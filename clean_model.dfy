/**
 * The pure part of the moderation `clean` cog: its message model, the two argument
 * converters, argument validation, the defaults of the `clean` group command, the
 * normalisation of scope and bounds, and the deletion predicate.
 */
module CleanModel {
  import opened Wrappers
  import opened PyStr

  type MessageId = nat
  type UserId = nat
  type ChannelId = nat
  /** A moment, as milliseconds since the Unix epoch. */
  type Millis = int

  datatype Field = Field(name: string, value: string)

  /** The searchable parts of an embed; an absent attribute is the empty string. */
  datatype Embed = Embed(title: string, description: string, footerText: string, authorName: string, fields: seq<Field>)

  datatype Author = Author(id: UserId, bot: bool)

  datatype Message = Message(
    id: MessageId, author: Author, channel: ChannelId, createdAt: Millis, content: string, embeds: seq<Embed>)

  /** A `CleanLimit`: a message, or a moment already resolved from an `Age` or an ISO date-time. */
  datatype Limit = MessageLimit(message: Message) | TimeLimit(at: Millis)

  /** What the `CleanChannels` converter yields: the literal `*`, or a list of text channels. */
  datatype Channels = AllChannels | ChannelList(ids: seq<ChannelId>)

  /** A compiled pattern, known by the text between the backticks. */
  datatype Pattern = Pattern(source: string)

  /** Number of messages looked at per channel when no traverse count is given. */
  const DefaultTraverse: nat := 10

  // ----------------------------------------------------------------------------
  // Converters
  // ----------------------------------------------------------------------------

  /** Python truthiness of an optional `CleanChannels`: `None` and `[]` are false, `"*"` is true. */
  predicate ChannelsGiven(channels: Option<Channels>)
  {
    channels.Some? && (channels.value.AllChannels? || |channels.value.ids| > 0)
  }

  /** Word `k` is the first of `tokens` that does not resolve. */
  predicate FirstUnresolved(tokens: seq<string>, resolve: string -> Option<ChannelId>, k: int)
  {
    0 <= k < |tokens| && resolve(tokens[k]).None? && forall i :: 0 <= i < k ==> resolve(tokens[i]).Some?
  }

  /** Converts the space-separated channel names one by one; the first that does not resolve is the error. */
  function ResolveChannels(tokens: seq<string>, resolve: string -> Option<ChannelId>): (r: Result<seq<ChannelId>, string>)
    ensures r.Ok? ==> |r.value| == |tokens| && forall i :: 0 <= i < |tokens| ==> resolve(tokens[i]) == Some(r.value[i])
    ensures r.Err? ==> r.error in tokens && resolve(r.error).None?
    ensures r.Err? ==> exists k :: FirstUnresolved(tokens, resolve, k) && r.error == tokens[k]
    ensures r.Ok? <==> forall i :: 0 <= i < |tokens| ==> resolve(tokens[i]).Some?
  {
    if tokens == [] then Ok([])
    else match resolve(tokens[0])
      case None => Err(tokens[0])
      case Some(c) =>
        var rest := ResolveChannels(tokens[1..], resolve);
        assert forall i :: 1 <= i < |tokens| ==> tokens[i] == tokens[1..][i - 1];
        if rest.Err? then
          var k :| FirstUnresolved(tokens[1..], resolve, k) && rest.error == tokens[1..][k];
          assert FirstUnresolved(tokens, resolve, k + 1);
          Err(rest.error)
        else Ok([c] + rest.value)
  }

  /**
   * `CleanChannels.convert`: `*` is every channel; anything else is split on whitespace and
   * each word converted to a text channel (`resolve` stands for discord.py's converter).
   */
  function ConvertChannels(argument: string, resolve: string -> Option<ChannelId>): (r: Result<Channels, string>)
    ensures argument == "*" ==> r == Ok(AllChannels)
    ensures argument != "*" && r.Ok? ==>
      r.value.ChannelList? && |r.value.ids| == |Words(argument)| &&
      forall i :: 0 <= i < |Words(argument)| ==> resolve(Words(argument)[i]) == Some(r.value.ids[i])
    ensures argument != "*" && r.Err? ==> r.error in Words(argument) && resolve(r.error).None?
    ensures argument != "*" && r.Err? ==>
      exists k :: FirstUnresolved(Words(argument), resolve, k) && r.error == Words(argument)[k]
  {
    if argument == "*" then Ok(AllChannels)
    else
      match ResolveChannels(Words(argument), resolve)
      case Ok(ids) => Ok(ChannelList(ids))
      case Err(e) => Err(e)
  }

  datatype PatternError = MissingBackticks | RegexError

  /** `re.fullmatch(r"`(.+?)`", argument)`: a non-empty, single-line text between two backticks. */
  predicate Backticked(argument: string)
  {
    |argument| >= 3 && argument[0] == '`' && argument[|argument| - 1] == '`' && '\n' !in argument[1..|argument| - 1]
  }

  /**
   * The `Regex` converter: strips the wrapping backticks; `compiles` stands for `re.compile`
   * succeeding on the inner text.
   */
  function ConvertRegex(argument: string, compiles: string -> bool): (r: Result<Pattern, PatternError>)
    ensures !Backticked(argument) <==> r == Err(MissingBackticks)
    ensures r.Ok? ==> "`" + r.value.source + "`" == argument && r.value.source != [] && compiles(r.value.source)
    ensures r == Err(RegexError) ==> !compiles(argument[1..|argument| - 1])
  {
    if !Backticked(argument) then Err(MissingBackticks)
    else
      var inner := argument[1..|argument| - 1];
      assert "`" + inner + "`" == argument;
      if compiles(inner) then Ok(Pattern(inner)) else Err(RegexError)
  }

  /** Wrapping a single-line pattern in backticks is what the converter undoes. */
  lemma ConvertRegexRoundTrip(source: string, compiles: string -> bool)
    requires source != [] && '\n' !in source && compiles(source)
    ensures ConvertRegex("`" + source + "`", compiles) == Ok(Pattern(source))
  {
    var a := "`" + source + "`";
    assert a[1..|a| - 1] == source;
  }

  // ----------------------------------------------------------------------------
  // Validation and the defaults of the `clean` group command
  // ----------------------------------------------------------------------------

  /** The reasons `_validate_input` raises; the last is a `ValueError`, the others `BadArgument`. */
  datatype ArgumentError =
    | TraverseTooLarge(messageLimit: nat)
    | LimitAndChannels
    | LimitsInDifferentChannels
    | BotsOnlyWithUsers
    | SecondLimitWithoutFirst
  {
    predicate IsBadArgument() { !SecondLimitWithoutFirst? }
  }

  predicate IsMessageLimit(limit: Option<Limit>)
  {
    limit.Some? && limit.value.MessageLimit?
  }

  /**
   * The invariants a set of cleanup criteria must satisfy: a bounded traversal, a message
   * bound pins the scope to its channel (so no channel list beside it, and both message bounds
   * in one channel), bots-only excludes an author set, and an upper bound needs a lower one.
   */
  predicate ConsistentArguments(
    traverse: nat, messageLimit: nat, channels: Option<Channels>, botsOnly: bool, users: seq<UserId>,
    first: Option<Limit>, second: Option<Limit>)
  {
    && traverse <= messageLimit
    && ((IsMessageLimit(first) || IsMessageLimit(second)) ==> !ChannelsGiven(channels))
    && (IsMessageLimit(first) && IsMessageLimit(second) ==> first.value.message.channel == second.value.message.channel)
    && (botsOnly ==> users == [])
    && (first.None? ==> second.None?)
  }

  /** `_validate_input`: the checks in the source's order; `messageLimit` is `CleanMessages.message_limit`. */
  function ValidateInput(
    traverse: nat, messageLimit: nat, channels: Option<Channels>, botsOnly: bool, users: seq<UserId>,
    first: Option<Limit>, second: Option<Limit>): (r: Result<(), ArgumentError>)
    ensures r.Ok? <==> ConsistentArguments(traverse, messageLimit, channels, botsOnly, users, first, second)
    ensures traverse > messageLimit ==> r == Err(TraverseTooLarge(messageLimit))
    ensures r == Err(LimitAndChannels) ==> (IsMessageLimit(first) || IsMessageLimit(second)) && ChannelsGiven(channels)
    ensures r == Err(BotsOnlyWithUsers) ==> botsOnly && users != []
    ensures r == Err(SecondLimitWithoutFirst) ==> second.Some? && first.None?
  {
    if traverse > messageLimit then Err(TraverseTooLarge(messageLimit))
    else if (IsMessageLimit(first) || IsMessageLimit(second)) && ChannelsGiven(channels) then Err(LimitAndChannels)
    else if IsMessageLimit(first) && IsMessageLimit(second) && first.value.message.channel != second.value.message.channel then
      Err(LimitsInDifferentChannels)
    else if users != [] && botsOnly then Err(BotsOnlyWithUsers)
    else if second.Some? && first.None? then Err(SecondLimitWithoutFirst)
    else Ok(())
  }

  /** Each rule, broken on its own, is reported with its own error. */
  lemma ValidateInputNamesTheRule(
    traverse: nat, messageLimit: nat, channels: Option<Channels>, botsOnly: bool, users: seq<UserId>,
    first: Option<Limit>, second: Option<Limit>)
    requires traverse <= messageLimit
    ensures IsMessageLimit(first) && ChannelsGiven(channels) ==>
      ValidateInput(traverse, messageLimit, channels, botsOnly, users, first, second) == Err(LimitAndChannels)
    ensures (!ChannelsGiven(channels) && IsMessageLimit(first) && IsMessageLimit(second) &&
      first.value.message.channel != second.value.message.channel) ==>
      ValidateInput(traverse, messageLimit, channels, botsOnly, users, first, second) == Err(LimitsInDifferentChannels)
    ensures first.None? && second.None? && botsOnly && users != [] ==>
      ValidateInput(traverse, messageLimit, channels, botsOnly, users, first, second) == Err(BotsOnlyWithUsers)
    ensures first.None? && second.Some? && second.value.TimeLimit? && !(botsOnly && users != []) ==>
      ValidateInput(traverse, messageLimit, channels, botsOnly, users, first, second) == Err(SecondLimitWithoutFirst)
  {
  }

  /** The arguments `clean_group` passes on: a traverse count and whether to read the cache. */
  datatype GroupCall = GroupCall(traverse: nat, useCache: bool)

  /**
   * `clean_group`: `None` means it only sends the help text (no traverse count, users,
   * limits, pattern or channels were given); otherwise the defaults it fills in.
   */
  function CleanGroupDefaults(
    traverse: Option<nat>, users: seq<UserId>, first: Option<Limit>, second: Option<Limit>,
    useCache: Option<bool>, regex: Option<Pattern>, channels: Option<Channels>, messageLimit: nat): (r: Option<GroupCall>)
    ensures r.None? <==>
      (traverse.None? || traverse.value == 0) && users == [] && first.None? && second.None? && regex.None? &&
      !ChannelsGiven(channels)
    ensures r.Some? && traverse.Some? && traverse.value > 0 ==> r.value.traverse == traverse.value
    ensures r.Some? && (traverse.None? || traverse.value == 0) ==>
      r.value.traverse == (if first.Some? then messageLimit else DefaultTraverse)
    ensures r.Some? && useCache.Some? ==> r.value.useCache == useCache.value
    ensures r.Some? && useCache.None? ==> (r.value.useCache <==> channels == Some(AllChannels))
  {
    var traverseGiven := traverse.Some? && traverse.value > 0;
    if !(traverseGiven || users != [] || first.Some? || second.Some? || regex.Some? || ChannelsGiven(channels)) then None
    else
      var t := if traverseGiven then traverse.value else if first.Some? then messageLimit else DefaultTraverse;
      var cache := if useCache.Some? then useCache.value else channels == Some(AllChannels);
      Some(GroupCall(t, cache))
  }

  // ----------------------------------------------------------------------------
  // Normalisation of scope and bounds
  // ----------------------------------------------------------------------------

  /** The scope and the two bounds, as moments, after normalisation. */
  datatype Resolved = Resolved(channels: Channels, first: Option<Millis>, second: Option<Millis>)

  function LimitTime(limit: Limit): Millis
  {
    match limit
    case MessageLimit(m) => m.createdAt
    case TimeLimit(t) => t
  }

  function ResolveLimit(limit: Option<Limit>): Option<Millis>
  {
    if limit.Some? then Some(LimitTime(limit.value)) else None
  }

  /**
   * The normalisation at the start of `_clean_messages`: without channels the scope is the
   * channel of the first message limit, else of the second, else the invoking channel; message
   * limits become their creation times, and two bounds are put in order.
   */
  function Normalise(channels: Option<Channels>, first: Option<Limit>, second: Option<Limit>, invoking: ChannelId): (r: Resolved)
    ensures ChannelsGiven(channels) ==> r.channels == channels.value
    ensures !ChannelsGiven(channels) ==> r.channels.ChannelList? && |r.channels.ids| == 1
    ensures !ChannelsGiven(channels) && IsMessageLimit(first) ==> r.channels.ids[0] == first.value.message.channel
    ensures !ChannelsGiven(channels) && !IsMessageLimit(first) && IsMessageLimit(second) ==>
      r.channels.ids[0] == second.value.message.channel
    ensures !ChannelsGiven(channels) && !IsMessageLimit(first) && !IsMessageLimit(second) ==> r.channels.ids[0] == invoking
    ensures r.first.Some? <==> first.Some?
    ensures r.second.Some? <==> second.Some?
    ensures first.Some? && second.Some? ==>
      r.first.value <= r.second.value &&
      multiset{r.first.value, r.second.value} == multiset{LimitTime(first.value), LimitTime(second.value)}
    ensures first.Some? && second.None? ==> r.first == Some(LimitTime(first.value))
    ensures first.None? ==> r.second == ResolveLimit(second)
  {
    var scope :=
      if ChannelsGiven(channels) then channels.value
      else if IsMessageLimit(first) then ChannelList([first.value.message.channel])
      else if IsMessageLimit(second) then ChannelList([second.value.message.channel])
      else ChannelList([invoking]);
    var lo := ResolveLimit(first);
    var hi := ResolveLimit(second);
    if lo.Some? && hi.Some? && hi.value < lo.value then Resolved(scope, hi, lo) else Resolved(scope, lo, hi)
  }

  // ----------------------------------------------------------------------------
  // The deletion predicate
  // ----------------------------------------------------------------------------

  /** The sub-tests `_build_predicate` can combine, in the order it adds them. */
  datatype Test =
    | BotsOnly
    | SpecificUsers(users: seq<UserId>)
    | RegexMatch(pattern: Pattern)
    | InRange(first: Millis, second: Millis)
    | After(first: Millis)

  /** The texts the regex sub-test looks at in one embed, in order. */
  function FieldTexts(fields: seq<Field>): seq<string>
  {
    if fields == [] then [] else [fields[0].name, fields[0].value] + FieldTexts(fields[1..])
  }

  function EmbedTexts(embeds: seq<Embed>): seq<string>
  {
    if embeds == [] then []
    else
      var e := embeds[0];
      [e.title, e.description, e.footerText, e.authorName] + FieldTexts(e.fields) + EmbedTexts(embeds[1..])
  }

  /** The message content followed by every embed's attributes. */
  function Attributes(m: Message): seq<string>
  {
    [m.content] + EmbedTexts(m.embeds)
  }

  function NonEmpty(xs: seq<string>): (r: seq<string>)
    ensures forall k :: 0 <= k < |r| ==> r[k] != []
    ensures forall x :: x in xs && x != [] ==> x in r
  {
    if xs == [] then [] else (if xs[0] != [] then [xs[0]] else []) + NonEmpty(xs[1..])
  }

  /** The text the regex is searched in: the non-empty attributes joined by newlines. */
  function Haystack(m: Message): string
  {
    Join(NonEmpty(Attributes(m)), "\n")
  }

  /**
   * A search oracle: `search(p, s)` is whether `re.compile(p, re.IGNORECASE | re.DOTALL)`
   * finds a match anywhere in `s`.
   */
  type Search = (string, string) -> bool

  predicate Passes(test: Test, search: Search, m: Message)
  {
    match test
    case BotsOnly => m.author.bot
    case SpecificUsers(users) => m.author.id in users
    case RegexMatch(p) => search(p.source, Haystack(m))
    case InRange(first, second) => first <= m.createdAt <= second
    case After(first) => m.createdAt >= first
  }

  /** A message is to be deleted when it passes every sub-test (the empty conjunction holds). */
  predicate Accepts(tests: seq<Test>, search: Search, m: Message)
  {
    forall k :: 0 <= k < |tests| ==> Passes(tests[k], search, m)
  }

  /**
   * `_build_predicate`: the sub-tests for bots only, the author set, the pattern and at most one
   * of the range (when there is a second bound) or the after test.
   */
  function BuildPredicate(botsOnly: bool, users: seq<UserId>, regex: Option<Pattern>, first: Option<Millis>, second: Option<Millis>): (r: seq<Test>)
    requires second.Some? ==> first.Some?
    ensures |r| <= 4
    ensures r == [] <==> !botsOnly && users == [] && regex.None? && first.None?
  {
    (if botsOnly then [BotsOnly] else [])
    + (if users != [] then [SpecificUsers(users)] else [])
    + (if regex.Some? then [RegexMatch(regex.value)] else [])
    + (if second.Some? then [InRange(first.value, second.value)] else if first.Some? then [After(first.value)] else [])
  }

  lemma {:induction false} AcceptsAppend(a: seq<Test>, b: seq<Test>, search: Search, m: Message)
    ensures Accepts(a + b, search, m) <==> Accepts(a, search, m) && Accepts(b, search, m)
  {
    if Accepts(a, search, m) && Accepts(b, search, m) {
      forall k | 0 <= k < |a + b| ensures Passes((a + b)[k], search, m) {
        if k < |a| { assert (a + b)[k] == a[k]; } else { assert (a + b)[k] == b[k - |a|]; }
      }
    }
    if Accepts(a + b, search, m) {
      forall k | 0 <= k < |a| ensures Passes(a[k], search, m) { assert (a + b)[k] == a[k]; }
      forall k | 0 <= k < |b| ensures Passes(b[k], search, m) { assert (a + b)[k + |a|] == b[k]; }
    }
  }

  /** The built predicate is exactly the conjunction of the requested criteria. */
  lemma PredicateMeaning(
    botsOnly: bool, users: seq<UserId>, regex: Option<Pattern>, first: Option<Millis>, second: Option<Millis>,
    search: Search, m: Message)
    requires second.Some? ==> first.Some?
    ensures Accepts(BuildPredicate(botsOnly, users, regex, first, second), search, m) <==>
      && (botsOnly ==> m.author.bot)
      && (users != [] ==> m.author.id in users)
      && (regex.Some? ==> search(regex.value.source, Haystack(m)))
      && (second.Some? ==> first.value <= m.createdAt <= second.value)
      && (second.None? && first.Some? ==> m.createdAt >= first.value)
  {
    var a: seq<Test> := if botsOnly then [BotsOnly] else [];
    var b: seq<Test> := if users != [] then [SpecificUsers(users)] else [];
    var c: seq<Test> := if regex.Some? then [RegexMatch(regex.value)] else [];
    var d: seq<Test> := if second.Some? then [InRange(first.value, second.value)] else if first.Some? then [After(first.value)] else [];
    assert BuildPredicate(botsOnly, users, regex, first, second) == a + b + c + d;
    assert Accepts(a, search, m) <==> (botsOnly ==> m.author.bot) by {
      if botsOnly { assert a[0] == BotsOnly; }
    }
    assert Accepts(b, search, m) <==> (users != [] ==> m.author.id in users) by {
      if users != [] { assert b[0] == SpecificUsers(users); }
    }
    assert Accepts(c, search, m) <==> (regex.Some? ==> search(regex.value.source, Haystack(m))) by {
      if regex.Some? { assert c[0] == RegexMatch(regex.value); }
    }
    assert Accepts(d, search, m) <==>
      (second.Some? ==> first.value <= m.createdAt <= second.value) &&
      (second.None? && first.Some? ==> m.createdAt >= first.value) by {
      if |d| == 1 { assert Passes(d[0], search, m) <==> Accepts(d, search, m); }
    }
    AcceptsAppend(a + b + c, d, search, m);
    AcceptsAppend(a + b, c, search, m);
    AcceptsAppend(a, b, search, m);
  }

  /** With no criteria at all every message is accepted. */
  lemma NoCriteriaAcceptsAll(search: Search, m: Message)
    ensures Accepts(BuildPredicate(false, [], None, None, None), search, m)
  {
  }

  // ----------------------------------------------------------------------------
  // What the regex is searched in
  // ----------------------------------------------------------------------------

  /** `s[i..]` starts with `t`. */
  predicate OccursAt(s: string, t: string, i: nat)
  {
    i + |t| <= |s| && s[i..i + |t|] == t
  }

  lemma {:induction false} JoinOccurs(xs: seq<string>, sep: string, k: nat) returns (i: nat)
    requires k < |xs|
    ensures OccursAt(Join(xs, sep), xs[k], i)
  {
    if |xs| == 1 {
      i := 0;
      assert Join(xs, sep)[0..|xs[0]|] == xs[0];
    } else if k == 0 {
      i := 0;
      assert Join(xs, sep) == xs[0] + (sep + Join(xs[1..], sep));
    } else {
      var j := JoinOccurs(xs[1..], sep, k - 1);
      var rest := Join(xs[1..], sep);
      i := |xs[0]| + |sep| + j;
      assert Join(xs, sep) == (xs[0] + sep) + rest;
      assert Join(xs, sep)[i..i + |xs[k]|] == rest[j..j + |xs[k]|];
    }
  }

  /**
   * Every non-empty text of the message, its content or any embed title, description, footer
   * text, author name, field name or field value, is part of the text the regex searches.
   */
  lemma AttributeSearched(m: Message, text: string)
    requires text in Attributes(m) && text != []
    ensures exists i: nat :: OccursAt(Haystack(m), text, i)
  {
    var xs := NonEmpty(Attributes(m));
    assert text in xs;
    var k :| 0 <= k < |xs| && xs[k] == text;
    var i := JoinOccurs(xs, "\n", k);
    assert OccursAt(Haystack(m), text, i);
  }

  lemma {:induction false} FieldTextsHas(fields: seq<Field>, j: nat)
    requires j < |fields|
    ensures fields[j].name in FieldTexts(fields) && fields[j].value in FieldTexts(fields)
  {
    if j > 0 {
      FieldTextsHas(fields[1..], j - 1);
    }
  }

  lemma {:induction false} EmbedTextsHas(embeds: seq<Embed>, e: nat, f: nat)
    requires e < |embeds| && f < |embeds[e].fields|
    ensures embeds[e].fields[f].value in EmbedTexts(embeds)
  {
    if e == 0 {
      FieldTextsHas(embeds[0].fields, f);
    } else {
      EmbedTextsHas(embeds[1..], e - 1, f);
    }
  }

  /** A non-empty embed field value is searched, even when the content is empty. */
  lemma FieldValueSearched(m: Message, e: nat, f: nat)
    requires e < |m.embeds| && f < |m.embeds[e].fields| && m.embeds[e].fields[f].value != []
    ensures exists i: nat :: OccursAt(Haystack(m), m.embeds[e].fields[f].value, i)
  {
    EmbedTextsHas(m.embeds, e, f);
    AttributeSearched(m, m.embeds[e].fields[f].value);
  }
}
