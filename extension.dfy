/**
 * The attachment allow-list of the filtering cog (`ExtensionsList.actions_for`): which
 * extensions a message carries, which of them no triggered allow-filter covers, the text-like
 * exemption for evaluation output, the direct-message text chosen for the author, and what is
 * written into the filter context.
 */
module Extension {
  import opened Wrappers
  import opened PyStr

  /** An allow-filter: its id and the extension it allows, dot included (`.png`). */
  datatype Filter = Filter(id: nat, content: string)

  /** The two events the list is subscribed to. */
  datatype Event = MessageEvent | SnekboxEvent

  datatype ListType = Allow | Deny

  /** The only action settings the list ever returns: the defaults of its allow list. */
  datatype Actions = DefaultActions

  /**
   * `filter_.triggered_on(ctx)`: whether the filter fires on a context whose content is the
   * given set of extensions.
   */
  type TriggerOracle = (Filter, set<string>) -> bool

  const PasteUrl: string := "https://paste.pythondiscord.com"

  /** The extensions exempted for evaluation output, and singled out in the direct message. */
  const TxtLikeFiles: set<string> := {".txt", ".csv", ".json", ".py"}

  /** The order in which the text-like extensions are looked for. */
  const TxtLikeOrder: seq<string> := [".txt", ".csv", ".json", ".py"]

  const PyEmbedDescription: string :=
    "It looks like you tried to attach a Python file - please use a code-pasting service such as " + PasteUrl

  // ----------------------------------------------------------------------------
  // The extension of a file name
  // ----------------------------------------------------------------------------

  /** Some character of `p[lo..hi]` is not a dot. */
  predicate HasStem(p: string, lo: int, hi: int)
    requires 0 <= lo && hi <= |p|
  {
    exists j :: lo <= j < hi && p[j] != '.'
  }

  /**
   * `os.path.splitext(p)[1]` on POSIX: from the last dot on, when that dot lies after the last
   * `/` and something other than dots precedes it in the last path component; otherwise empty.
   */
  function SplitExt(p: string): (r: string)
    ensures r == [] || (r[0] == '.' && '.' !in r[1..] && '/' !in r)
    ensures |r| <= |p| && r == p[|p| - |r|..]
  {
    var sepIndex := RFind(p, '/');
    var dotIndex := RFind(p, '.');
    if dotIndex > sepIndex && HasStem(p, sepIndex + 1, dotIndex) then
      var r := p[dotIndex..];
      assert forall j :: 0 <= j < |r| - 1 ==> r[1..][j] == p[dotIndex + 1 + j];
      r
    else ""
  }

  /** A name without a dot has no extension. */
  lemma NoDotNoExtension(p: string)
    requires '.' !in p
    ensures SplitExt(p) == ""
  {
  }

  /** Leading dots do not start an extension: `.bashrc` has none. */
  lemma HiddenFileNoExtension(s: string)
    requires '.' !in s && '/' !in s
    ensures SplitExt("." + s) == ""
  {
    var p := "." + s;
    assert p[1..] == s;
    assert RFind(p, '.') == 0;
  }

  /** A name with a stem, a dot and a dot-free tail has that tail, dot included, as its extension. */
  lemma StemDotExtension(stem: string, e: string)
    requires stem != [] && stem[0] != '.' && '/' !in stem
    requires '.' !in e && '/' !in e
    ensures SplitExt(stem + "." + e) == "." + e
  {
    var p := stem + "." + e;
    var d := |stem|;
    assert p[d] == '.';
    assert forall j :: d < j < |p| ==> p[j] == e[j - d - 1];
    assert RFind(p, '.') == d;
    assert forall j :: 0 <= j < |p| ==> p[j] != '/' by {
      forall j | 0 <= j < |p| ensures p[j] != '/' {
        if j < d { assert p[j] == stem[j]; } else if j > d { assert p[j] == e[j - d - 1]; }
      }
    }
    assert RFind(p, '/') == -1;
    assert p[0] == stem[0];
    assert HasStem(p, 0, d);
    assert p[d..] == "." + e;
  }

  /** `splitext(attachment.filename.lower())[1]`. */
  function ExtOf(filename: string): string
  {
    SplitExt(Lower(filename))
  }

  // ----------------------------------------------------------------------------
  // Triggered filters and the not-allowed mapping
  // ----------------------------------------------------------------------------

  /** The allow-filters that fire on `exts`, in the list's order. */
  function Triggered(filters: seq<Filter>, exts: set<string>, triggeredOn: TriggerOracle): (r: seq<Filter>)
    ensures |r| <= |filters|
    ensures forall f :: f in r <==> f in filters && triggeredOn(f, exts)
  {
    if filters == [] then []
    else
      var rest := Triggered(filters[1..], exts, triggeredOn);
      assert forall f :: f in filters <==> f == filters[0] || f in filters[1..];
      if triggeredOn(filters[0], exts) then [filters[0]] + rest else rest
  }

  /**
   * Order is kept: the filters that fire in a list made of two parts are those of the first
   * part followed by those of the second, and a single filter is kept exactly when it fires.
   */
  lemma {:induction false} TriggeredInOrder(a: seq<Filter>, b: seq<Filter>, exts: set<string>, triggeredOn: TriggerOracle)
    ensures Triggered(a + b, exts, triggeredOn) == Triggered(a, exts, triggeredOn) + Triggered(b, exts, triggeredOn)
    ensures forall f :: Triggered([f], exts, triggeredOn) == if triggeredOn(f, exts) then [f] else []
  {
    TriggeredAppend(a, b, exts, triggeredOn);
    forall f
      ensures Triggered([f], exts, triggeredOn) == if triggeredOn(f, exts) then [f] else []
    {
      assert [f][1..] == [];
    }
  }

  /** Filtering distributes over concatenation. */
  lemma {:induction false} TriggeredAppend(a: seq<Filter>, b: seq<Filter>, exts: set<string>, triggeredOn: TriggerOracle)
    ensures Triggered(a + b, exts, triggeredOn) == Triggered(a, exts, triggeredOn) + Triggered(b, exts, triggeredOn)
    decreases |a|
  {
    if a == [] {
      assert a + b == b;
    } else {
      var head := if triggeredOn(a[0], exts) then [a[0]] else [];
      calc {
        Triggered(a + b, exts, triggeredOn);
        { assert (a + b)[0] == a[0] && (a + b)[1..] == a[1..] + b; }
        head + Triggered(a[1..] + b, exts, triggeredOn);
        { TriggeredAppend(a[1..], b, exts, triggeredOn); }
        head + (Triggered(a[1..], exts, triggeredOn) + Triggered(b, exts, triggeredOn));
        (head + Triggered(a[1..], exts, triggeredOn)) + Triggered(b, exts, triggeredOn);
        Triggered(a, exts, triggeredOn) + Triggered(b, exts, triggeredOn);
      }
    }
  }

  /** The extensions the triggered filters allow. */
  function AllowedExts(triggered: seq<Filter>): (r: set<string>)
    ensures forall e :: e in r <==> exists f :: f in triggered && f.content == e
  {
    set f | f in triggered :: f.content
  }

  /** A dictionary with string keys and values, as its items in insertion order. */
  type Dict = seq<(string, string)>

  function Keys(d: Dict): set<string>
  {
    if d == [] then {} else {d[0].0} + Keys(d[1..])
  }

  /** No key twice. */
  predicate DistinctKeys(d: Dict)
  {
    d == [] || (d[0].0 !in Keys(d[1..]) && DistinctKeys(d[1..]))
  }

  function KeyList(d: Dict): (r: seq<string>)
    ensures |r| == |d| && forall i :: 0 <= i < |d| ==> r[i] == d[i].0
  {
    seq(|d|, i requires 0 <= i < |d| => d[i].0)
  }

  function Values(d: Dict): (r: seq<string>)
    ensures |r| == |d| && forall i :: 0 <= i < |d| ==> r[i] == d[i].1
  {
    seq(|d|, i requires 0 <= i < |d| => d[i].1)
  }

  /** `d[k] = v`: a present key keeps its place and takes the new value; a new key goes last. */
  function Put(d: Dict, k: string, v: string): Dict
  {
    if d == [] then [(k, v)]
    else if d[0].0 == k then [(k, v)] + d[1..]
    else [d[0]] + Put(d[1..], k, v)
  }

  /** After `d[k] = v` the keys are the old ones and `k`, none twice, and `k` maps to `v`. */
  lemma {:induction false} PutMeaning(d: Dict, k: string, v: string)
    ensures Keys(Put(d, k, v)) == Keys(d) + {k}
    ensures DistinctKeys(d) ==> DistinctKeys(Put(d, k, v))
    ensures (k, v) in Put(d, k, v)
    ensures forall p :: p in Put(d, k, v) ==> p == (k, v) || p in d
  {
    var r := Put(d, k, v);
    if d == [] {
      assert r[1..] == [];
    } else {
      assert forall p :: p in d <==> p == d[0] || p in d[1..];
      if d[0].0 == k {
        assert r[1..] == d[1..];
      } else {
        var rest := Put(d[1..], k, v);
        PutMeaning(d[1..], k, v);
        assert r[1..] == rest;
        assert forall p :: p in r <==> p == d[0] || p in rest;
      }
    }
  }

  /** The keys are the first components of the items. */
  lemma {:induction false} KeysAt(d: Dict)
    ensures forall k :: k in Keys(d) <==> exists i :: 0 <= i < |d| && d[i].0 == k
  {
    if d != [] {
      KeysAt(d[1..]);
      assert forall i :: 0 < i < |d| ==> d[1..][i - 1] == d[i];
    }
  }

  lemma {:induction false} KeysSnoc(d: Dict, p: (string, string))
    ensures Keys(d + [p]) == Keys(d) + {p.0}
  {
    if d != [] {
      KeysSnoc(d[1..], p);
      assert (d + [p])[1..] == d[1..] + [p];
    }
  }

  /** `all_ext`: each attachment's extension paired with its name, in attachment order. */
  function AllExt(filenames: seq<string>): (r: Dict)
    ensures |r| == |filenames| && forall i :: 0 <= i < |r| ==> r[i] == (ExtOf(filenames[i]), filenames[i])
  {
    seq(|filenames|, i requires 0 <= i < |filenames| => (ExtOf(filenames[i]), filenames[i]))
  }

  /** The set of extensions of the attachments: what the filters are shown. */
  function Extensions(filenames: seq<string>): (r: set<string>)
    ensures forall e :: e in r <==> exists i :: 0 <= i < |filenames| && ExtOf(filenames[i]) == e
  {
    var r := Keys(AllExt(filenames));
    KeysAt(AllExt(filenames));
    r
  }

  /**
   * `{ext: filename for ext, filename in all_ext if ext not in allowed_ext}`, the pairs taken in
   * attachment order.
   */
  function NotAllowed(items: Dict, allowed: set<string>): Dict
  {
    if items == [] then []
    else
      var acc := NotAllowed(items[..|items| - 1], allowed);
      var p := items[|items| - 1];
      if p.0 in allowed then acc else Put(acc, p.0, p.1)
  }

  /** For evaluation output, `{ext: filename for ext, filename in not_allowed.items() if ext not in TXT_LIKE_FILES}`. */
  function Exempted(d: Dict, event: Event): (r: Dict)
    ensures forall p :: p in r ==> p in d
    ensures Keys(r) == if event.SnekboxEvent? then Keys(d) - TxtLikeFiles else Keys(d)
    ensures DistinctKeys(d) ==> DistinctKeys(r)
  {
    if event.MessageEvent? || d == [] then d
    else
      var rest := Exempted(d[1..], event);
      assert forall p :: p in d <==> p == d[0] || p in d[1..];
      if d[0].0 in TxtLikeFiles then rest
      else
        var r := [d[0]] + rest;
        assert r[1..] == rest;
        r
  }

  /**
   * The not-allowed mapping: its keys are the keys of the items that are not allowed, none twice,
   * and each comes with the value of an item that has it.
   */
  lemma {:induction false} NotAllowedMeaning(items: Dict, allowed: set<string>)
    ensures DistinctKeys(NotAllowed(items, allowed))
    ensures Keys(NotAllowed(items, allowed)) == Keys(items) - allowed
    ensures forall p :: p in NotAllowed(items, allowed) ==> p in items
  {
    if items != [] {
      var init := items[..|items| - 1];
      var p := items[|items| - 1];
      var acc := NotAllowed(init, allowed);
      NotAllowedMeaning(init, allowed);
      assert items == init + [p];
      KeysSnoc(init, p);
      assert forall q :: q in init ==> q in items;
      if p.0 !in allowed {
        PutMeaning(acc, p.0, p.1);
      }
    }
  }

  // ----------------------------------------------------------------------------
  // The verdict
  // ----------------------------------------------------------------------------

  /** What `actions_for` returns, and the extensions it found blocked, with a file name for each. */
  datatype Verdict = Verdict(
    actions: Option<Actions>, messages: seq<string>, triggered: map<ListType, seq<Filter>>, blocked: Dict)

  /** The label of a blocked extension in the messages relayed to moderators. */
  function Label(ext: string): string
  {
    if ext == "" then "`No Extension`" else "`" + ext + "`"
  }

  function Labels(d: Dict): (r: seq<string>)
    ensures |r| == |d| && forall i :: 0 <= i < |d| ==> r[i] == Label(d[i].0)
  {
    seq(|d|, i requires 0 <= i < |d| => Label(d[i].0))
  }

  /** Whether the allow list looks at this context at all. */
  predicate Applies(hasMessage: bool, attachments: seq<string>, validationsFailed: bool)
  {
    hasMessage && attachments != [] && !validationsFailed
  }

  /** The blocked extensions of a context the list applies to. */
  function Blocked(attachments: seq<string>, event: Event, filters: seq<Filter>, triggeredOn: TriggerOracle): Dict
  {
    var triggered := Triggered(filters, Extensions(attachments), triggeredOn);
    Exempted(NotAllowed(AllExt(attachments), AllowedExts(triggered)), event)
  }

  /**
   * `actions_for`'s answer: nothing without a message, without attachments, or when the
   * defaults' validations fail; the triggered filters alone when nothing is blocked; otherwise
   * also the default actions (none for evaluation output) and one label per blocked extension.
   */
  function Evaluate(hasMessage: bool, attachments: seq<string>, event: Event, validationsFailed: bool,
                    filters: seq<Filter>, triggeredOn: TriggerOracle): (v: Verdict)
  {
    if !Applies(hasMessage, attachments, validationsFailed) then Verdict(None, [], map[], [])
    else
      var triggered := Triggered(filters, Extensions(attachments), triggeredOn);
      var blocked := Blocked(attachments, event, filters, triggeredOn);
      if blocked == [] then Verdict(None, [], map[Allow := triggered], [])
      else
        var actions := if event.SnekboxEvent? then None else Some(DefaultActions);
        Verdict(actions, Labels(blocked), map[Allow := triggered], blocked)
  }

  /**
   * The meaning of the verdict: an extension is blocked exactly when the list applies, some
   * attachment has it, no filter that fired on the message's extensions allows it, and it is not
   * a text-like extension of evaluation output; each blocked extension comes with the name of an
   * attachment that has it, once.
   */
  lemma BlockedMeaning(hasMessage: bool, attachments: seq<string>, event: Event, validationsFailed: bool,
                       filters: seq<Filter>, triggeredOn: TriggerOracle, e: string)
    ensures var v := Evaluate(hasMessage, attachments, event, validationsFailed, filters, triggeredOn);
      && DistinctKeys(v.blocked)
      && (forall p :: p in v.blocked ==> p.1 in attachments && ExtOf(p.1) == p.0)
      && (e in Keys(v.blocked) <==>
            && Applies(hasMessage, attachments, validationsFailed)
            && (exists i :: 0 <= i < |attachments| && ExtOf(attachments[i]) == e)
            && (forall f :: f in filters && triggeredOn(f, Extensions(attachments)) ==> f.content != e)
            && !(event.SnekboxEvent? && e in TxtLikeFiles))
  {
    var v := Evaluate(hasMessage, attachments, event, validationsFailed, filters, triggeredOn);
    if Applies(hasMessage, attachments, validationsFailed) {
      var triggered := Triggered(filters, Extensions(attachments), triggeredOn);
      var allowed := AllowedExts(triggered);
      var items := AllExt(attachments);
      var d := NotAllowed(items, allowed);
      NotAllowedMeaning(items, allowed);
      KeysAt(items);
      assert forall p :: p in items ==> p.1 in attachments && ExtOf(p.1) == p.0;
      assert v.blocked == Exempted(d, event);
    }
  }

  /** The verdict's parts agree: actions and labels exactly when something is blocked. */
  lemma VerdictShape(hasMessage: bool, attachments: seq<string>, event: Event, validationsFailed: bool,
                     filters: seq<Filter>, triggeredOn: TriggerOracle)
    ensures var v := Evaluate(hasMessage, attachments, event, validationsFailed, filters, triggeredOn);
      && (!Applies(hasMessage, attachments, validationsFailed) ==> v == Verdict(None, [], map[], []))
      && (Applies(hasMessage, attachments, validationsFailed) ==>
            v.triggered == map[Allow := Triggered(filters, Extensions(attachments), triggeredOn)])
      && (v.actions.Some? <==> v.blocked != [] && event.MessageEvent?)
      && |v.messages| == |v.blocked|
      && (forall i :: 0 <= i < |v.blocked| ==>
            v.messages[i] == (if v.blocked[i].0 == "" then "`No Extension`" else "`" + v.blocked[i].0 + "`"))
  {
  }

  // ----------------------------------------------------------------------------
  // The direct message to the author
  // ----------------------------------------------------------------------------

  /** Which notice the author gets. */
  datatype Notice = PyNotice | TxtNotice(ext: string) | DisallowedNotice

  /** The first extension of `order` that is blocked. */
  function FirstBlocked(order: seq<string>, d: Dict): (r: Option<string>)
    ensures r.Some? ==> r.value in order && r.value in Keys(d)
    ensures r.None? ==> forall e :: e in order ==> e !in Keys(d)
  {
    if order == [] then None
    else if order[0] in Keys(d) then Some(order[0])
    else FirstBlocked(order[1..], d)
  }

  /**
   * The notice chosen when something is blocked: none for evaluation output; the paste notice
   * for a Python file; otherwise the text-file notice for a blocked text-like extension;
   * otherwise the list of disallowed types.
   */
  function ChooseNotice(d: Dict, event: Event): Option<Notice>
  {
    if event.SnekboxEvent? then None
    else if ".py" in Keys(d) then Some(PyNotice)
    else match FirstBlocked(TxtLikeOrder, d)
      case Some(e) => Some(TxtNotice(e))
      case None => Some(DisallowedNotice)
  }

  /** The notices in their order of precedence. */
  lemma NoticePrecedence(d: Dict, event: Event)
    ensures event.SnekboxEvent? <==> ChooseNotice(d, event).None?
    ensures ChooseNotice(d, event) == Some(PyNotice) <==> event.MessageEvent? && ".py" in Keys(d)
    ensures (exists e :: ChooseNotice(d, event) == Some(TxtNotice(e))) <==>
      event.MessageEvent? && ".py" !in Keys(d) && (exists e :: e in TxtLikeFiles && e in Keys(d))
    ensures ChooseNotice(d, event).Some? && ChooseNotice(d, event).value.TxtNotice? ==>
      ChooseNotice(d, event).value.ext in TxtLikeFiles && ChooseNotice(d, event).value.ext in Keys(d)
    ensures ChooseNotice(d, event) == Some(DisallowedNotice) <==>
      event.MessageEvent? && forall e :: e in TxtLikeFiles ==> e !in Keys(d)
  {
    assert forall e :: e in TxtLikeFiles <==> e in TxtLikeOrder;
    var fb := FirstBlocked(TxtLikeOrder, d);
    if event.MessageEvent? && ".py" !in Keys(d) && (exists e :: e in TxtLikeFiles && e in Keys(d)) {
      assert fb.Some?;
      assert ChooseNotice(d, event) == Some(TxtNotice(fb.value));
    }
  }

  /** `TXT_EMBED_DESCRIPTION.format(blocked_extension=ext)`. */
  function TxtEmbedDescription(ext: string): string
  {
    "You either uploaded a `" + ext + "` file or entered a message that was too long. " +
    "Please use our [paste bin](" + PasteUrl + ") instead."
  }

  /** `DISALLOWED_EMBED_DESCRIPTION.format(...)`. */
  function DisallowedEmbedDescription(blacklist: string, whitelist: string, metaMention: string): string
  {
    "It looks like you tried to attach file type(s) that we do not allow (" + blacklist + "). " +
    "We currently allow the following file types: **" + whitelist + "**.\n\n" +
    "Feel free to ask in " + metaMention + " if you think this is a mistake."
  }

  /** The allow list as the disallowed-types notice names it: every filter's extension, joined by ", ". */
  function WhitelistDescription(filters: seq<Filter>): string
  {
    Join(seq(|filters|, i requires 0 <= i < |filters| => filters[i].content), ", ")
  }

  /** The text of a notice. */
  function NoticeText(notice: Notice, d: Dict, whitelist: string, metaMention: string): string
  {
    match notice
    case PyNotice => PyEmbedDescription
    case TxtNotice(e) => TxtEmbedDescription(e)
    case DisallowedNotice => DisallowedEmbedDescription(Join(KeyList(d), ", "), whitelist, metaMention)
  }

  /** The context the filters write into; only the last three fields change. */
  class FilterContext {
    const event: Event
    const hasMessage: bool
    /** The file names of the message's attachments. */
    const attachments: seq<string>
    var dmEmbed: string
    var matches: seq<string>
    var blockedExts: set<string>

    constructor (event: Event, hasMessage: bool, attachments: seq<string>)
      ensures this.event == event && this.hasMessage == hasMessage && this.attachments == attachments
      ensures dmEmbed == "" && matches == [] && blockedExts == {}
    {
      this.event := event;
      this.hasMessage := hasMessage;
      this.attachments := attachments;
      dmEmbed := "";
      matches := [];
      blockedExts := {};
    }
  }

  class ExtensionsList {
    /** The filters of the allow list, in the order they were added. */
    var filters: seq<Filter>
    /** The allow list as last spelled out for the disallowed-types notice; empty until then. */
    var whitelistedDescription: string

    constructor (filters: seq<Filter>)
      ensures this.filters == filters && whitelistedDescription == ""
    {
      this.filters := filters;
      whitelistedDescription := "";
    }

    /**
     * `actions_for`: returns the verdict's actions, labels and triggered filters. When something
     * is blocked, the context and the spelled-out allow list are updated as `Record` says;
     * otherwise neither changes.
     */
    method ActionsFor(ctx: FilterContext, validationsFailed: bool, triggeredOn: TriggerOracle, metaMention: string)
      returns (actions: Option<Actions>, messages: seq<string>, triggered: map<ListType, seq<Filter>>)
      modifies ctx, this`whitelistedDescription
      ensures var v := Evaluate(ctx.hasMessage, ctx.attachments, ctx.event, validationsFailed, filters, triggeredOn);
        && actions == v.actions && messages == v.messages && triggered == v.triggered
        && (v.blocked == [] ==>
              && ctx.matches == old(ctx.matches) && ctx.blockedExts == old(ctx.blockedExts)
              && ctx.dmEmbed == old(ctx.dmEmbed) && whitelistedDescription == old(whitelistedDescription))
        && (v.blocked != [] ==> Recorded(ctx, v.blocked, metaMention, old(ctx.dmEmbed), old(ctx.matches),
                                         old(ctx.blockedExts), old(whitelistedDescription)))
    {
      var v := Evaluate(ctx.hasMessage, ctx.attachments, ctx.event, validationsFailed, filters, triggeredOn);
      if v.blocked != [] {
        Record(ctx, v.blocked, metaMention);
      }
      actions, messages, triggered := v.actions, v.messages, v.triggered;
    }

    /**
     * What recording the blocked extensions `d` has done to the context, measured against its
     * state before: the blocked file names appended to the matches, the blocked extensions added
     * to the blocked set, the chosen notice as the direct-message text (none for evaluation
     * output), and the allow list spelled out when the disallowed-types notice needed it and it
     * was still empty.
     */
    ghost predicate Recorded(ctx: FilterContext, d: Dict, metaMention: string,
                             dmEmbed0: string, matches0: seq<string>, blockedExts0: set<string>, description0: string)
      reads this, ctx
    {
      var notice := ChooseNotice(d, ctx.event);
      var spelled := notice == Some(DisallowedNotice) && description0 == "";
      && ctx.matches == matches0 + Values(d)
      && ctx.blockedExts == blockedExts0 + Keys(d)
      && whitelistedDescription == (if spelled then WhitelistDescription(filters) else description0)
      && ctx.dmEmbed == (if notice.Some? then NoticeText(notice.value, d, whitelistedDescription, metaMention) else dmEmbed0)
    }

    /** Lines 107-127 of `actions_for`, once something is blocked. */
    method Record(ctx: FilterContext, d: Dict, metaMention: string)
      modifies ctx, this`whitelistedDescription
      ensures Recorded(ctx, d, metaMention, old(ctx.dmEmbed), old(ctx.matches), old(ctx.blockedExts),
                       old(whitelistedDescription))
    {
      var notice := ChooseNotice(d, ctx.event);
      if notice.Some? {
        if notice.value.DisallowedNotice? && whitelistedDescription == "" {
          whitelistedDescription := WhitelistDescription(filters);
        }
        ctx.dmEmbed := NoticeText(notice.value, d, whitelistedDescription, metaMention);
      }
      ctx.matches := ctx.matches + Values(d);
      ctx.blockedExts := ctx.blockedExts + Keys(d);
    }
  }
}
