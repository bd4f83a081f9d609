/**
 * The specification side of enumeration and deletion in the `clean` cog: the snowflake
 * age test, the per-channel grouping `message_mappings` builds, and the sequence of platform
 * calls `_delete_found` makes (bulk batches of at most 100 up to the first message too old
 * for bulk deletion, then one call per message), with what each call adds to the result.
 */
module CleanDeletion {
  import opened Wrappers
  import opened PyStr
  import opened CleanModel

  /** Discord's epoch, 2015-01-01T00:00:00Z, in Unix milliseconds. */
  const DiscordEpoch: int := 1420070400000
  const FourteenDaysMs: int := 14 * 24 * 60 * 60 * 1000
  /** `1 << 22`: a snowflake keeps its creation time above its 22 low bits. */
  const TimestampShift: int := 4194304
  /** The most messages one bulk-delete call accepts. */
  const BulkDeleteCap: nat := 100

  // ----------------------------------------------------------------------------
  // The age ceiling of bulk deletion
  // ----------------------------------------------------------------------------

  /** `(now - 14 days - epoch) << 22`, with the clock read as integer milliseconds. */
  function TwoWeeksOldSnowflake(nowMs: Millis): int
  {
    (nowMs - FourteenDaysMs - DiscordEpoch) * TimestampShift
  }

  /** `is_older_than_14d`: an integer comparison of the message id against the ceiling. */
  predicate IsOlderThan14d(m: Message, nowMs: Millis)
  {
    m.id < TwoWeeksOldSnowflake(nowMs)
  }

  /** The snowflake of a message created at `createdMs`, with `low` in its 22 low bits. */
  function Snowflake(createdMs: Millis, low: nat): int
    requires low < TimestampShift
  {
    (createdMs - DiscordEpoch) * TimestampShift + low
  }

  lemma MulMonotone(a: int, b: int, c: int)
    requires a <= b && c >= 0
    ensures a * c <= b * c
  {
  }

  /**
   * The id comparison decides age exactly: a snowflake is below the ceiling if and only if its
   * creation time is more than 14 days before `now`, whatever its low bits.
   */
  lemma SnowflakeAge(createdMs: Millis, low: nat, nowMs: Millis)
    requires low < TimestampShift
    ensures Snowflake(createdMs, low) < TwoWeeksOldSnowflake(nowMs) <==> createdMs < nowMs - FourteenDaysMs
  {
    var t := createdMs - DiscordEpoch;
    var n := nowMs - FourteenDaysMs - DiscordEpoch;
    if t < n {
      MulMonotone(t, n - 1, TimestampShift);
      assert (n - 1) * TimestampShift == n * TimestampShift - TimestampShift;
    } else {
      MulMonotone(n, t, TimestampShift);
    }
  }

  /** Older ids stay too old: the test is closed downwards in the id. */
  lemma OlderIsDownwardClosed(m: Message, older: Message, nowMs: Millis)
    requires older.id <= m.id && IsOlderThan14d(m, nowMs)
    ensures IsOlderThan14d(older, nowMs)
  {
  }

  /** A message too old now is too old at every later moment. */
  lemma OlderStaysOlder(m: Message, nowMs: Millis, laterMs: Millis)
    requires nowMs <= laterMs && IsOlderThan14d(m, nowMs)
    ensures IsOlderThan14d(m, laterMs)
  {
    MulMonotone(nowMs - FourteenDaysMs - DiscordEpoch, laterMs - FourteenDaysMs - DiscordEpoch, TimestampShift);
  }

  // ----------------------------------------------------------------------------
  // `message_mappings`: a `defaultdict(list)` keyed by channel, in insertion order
  // ----------------------------------------------------------------------------

  datatype ChannelMessages = ChannelMessages(channel: ChannelId, messages: seq<Message>)

  type Mappings = seq<ChannelMessages>

  /** `message_mappings[m.channel].append(m)`. */
  function AddMessage(g: Mappings, m: Message): Mappings
  {
    if g == [] then [ChannelMessages(m.channel, [m])]
    else if g[0].channel == m.channel then [ChannelMessages(g[0].channel, g[0].messages + [m])] + g[1..]
    else [g[0]] + AddMessage(g[1..], m)
  }

  /** The mapping built by appending `ms` one after another to an empty `defaultdict`. */
  function Group(ms: seq<Message>): Mappings
  {
    if ms == [] then [] else AddMessage(Group(ms[..|ms| - 1]), ms[|ms| - 1])
  }

  function Ids(ms: seq<Message>): (r: seq<MessageId>)
    ensures |r| == |ms| && forall i :: 0 <= i < |ms| ==> r[i] == ms[i].id
  {
    seq(|ms|, i requires 0 <= i < |ms| => ms[i].id)
  }

  /** `message_mappings[c]` without inserting: the list for `c`, or the empty list. */
  function Lookup(g: Mappings, c: ChannelId): seq<Message>
  {
    if g == [] then [] else if g[0].channel == c then g[0].messages else Lookup(g[1..], c)
  }

  /** The messages of `ms` that are in channel `c`, in order. */
  function InChannel(ms: seq<Message>, c: ChannelId): seq<Message>
  {
    if ms == [] then []
    else InChannel(ms[..|ms| - 1], c) + (if ms[|ms| - 1].channel == c then [ms[|ms| - 1]] else [])
  }

  /** The keys of the mapping. */
  function Keys(g: Mappings): set<ChannelId>
  {
    if g == [] then {} else {g[0].channel} + Keys(g[1..])
  }

  /** The channels the messages of `ms` are in. */
  function ChannelsOf(ms: seq<Message>): set<ChannelId>
  {
    if ms == [] then {} else ChannelsOf(ms[..|ms| - 1]) + {ms[|ms| - 1].channel}
  }

  predicate AllIn(ms: seq<Message>, c: ChannelId)
  {
    forall k :: 0 <= k < |ms| ==> ms[k].channel == c
  }

  /** Every key once, every list non-empty and made of messages of its key's channel. */
  predicate WellGrouped(g: Mappings)
  {
    g != [] ==>
      && g[0].messages != []
      && AllIn(g[0].messages, g[0].channel)
      && g[0].channel !in Keys(g[1..])
      && WellGrouped(g[1..])
  }

  lemma {:induction false} AddMessageLookup(g: Mappings, m: Message, c: ChannelId)
    ensures Lookup(AddMessage(g, m), c) == Lookup(g, c) + (if m.channel == c then [m] else [])
  {
    if g != [] && g[0].channel != m.channel {
      AddMessageLookup(g[1..], m, c);
    }
  }

  /** The list kept for each channel is that channel's messages, in enumeration order. */
  lemma {:induction false} GroupLookup(ms: seq<Message>, c: ChannelId)
    ensures Lookup(Group(ms), c) == InChannel(ms, c)
  {
    if ms != [] {
      GroupLookup(ms[..|ms| - 1], c);
      AddMessageLookup(Group(ms[..|ms| - 1]), ms[|ms| - 1], c);
    }
  }

  lemma {:induction false} AddMessageKeys(g: Mappings, m: Message)
    ensures Keys(AddMessage(g, m)) == Keys(g) + {m.channel}
  {
    if g != [] && g[0].channel != m.channel {
      AddMessageKeys(g[1..], m);
      assert AddMessage(g, m)[1..] == AddMessage(g[1..], m);
    } else if g != [] {
      assert AddMessage(g, m)[1..] == g[1..];
    }
  }

  lemma {:induction false} AddMessageFlatten(g: Mappings, m: Message)
    ensures multiset(Flatten(AddMessage(g, m))) == multiset(Flatten(g)) + multiset{m}
  {
    if g == [] {
      assert Flatten([ChannelMessages(m.channel, [m])]) == [m];
    } else if g[0].channel == m.channel {
      assert AddMessage(g, m)[1..] == g[1..];
    } else {
      AddMessageFlatten(g[1..], m);
      assert AddMessage(g, m)[1..] == AddMessage(g[1..], m);
    }
  }

  lemma {:induction false} AddMessageWellGrouped(g: Mappings, m: Message)
    requires WellGrouped(g)
    ensures WellGrouped(AddMessage(g, m))
  {
    if g == [] {
    } else if g[0].channel == m.channel {
      assert AddMessage(g, m)[1..] == g[1..];
    } else {
      AddMessageWellGrouped(g[1..], m);
      AddMessageKeys(g[1..], m);
      assert AddMessage(g, m)[1..] == AddMessage(g[1..], m);
    }
  }

  /**
   * The mapping has one non-empty list per channel that occurs and no other keys, and its
   * lists together hold exactly the enumerated messages.
   */
  lemma {:induction false} GroupWellGrouped(ms: seq<Message>)
    ensures WellGrouped(Group(ms))
    ensures Keys(Group(ms)) == ChannelsOf(ms)
    ensures multiset(Flatten(Group(ms))) == multiset(ms)
  {
    if ms != [] {
      var init := ms[..|ms| - 1];
      var last := ms[|ms| - 1];
      assert Group(ms) == AddMessage(Group(init), last);
      assert ChannelsOf(ms) == ChannelsOf(init) + {last.channel};
      GroupWellGrouped(init);
      AddMessageWellGrouped(Group(init), last);
      AddMessageKeys(Group(init), last);
      AddMessageFlatten(Group(init), last);
      assert init + [last] == ms;
      assert multiset(ms) == multiset(init) + multiset{last};
    }
  }

  /** All messages of the mapping, channel after channel. */
  function Flatten(g: Mappings): seq<Message>
  {
    if g == [] then [] else g[0].messages + Flatten(g[1..])
  }

  lemma {:induction false} FlattenLast(g: Mappings)
    requires g != []
    ensures Flatten(g) == Flatten(g[..|g| - 1]) + g[|g| - 1].messages
  {
    if |g| > 1 {
      assert g[..|g| - 1][1..] == g[1..][..|g| - 2];
      FlattenLast(g[1..]);
    }
  }

  // ----------------------------------------------------------------------------
  // The calls `_delete_found` makes, and what each adds to the result
  // ----------------------------------------------------------------------------

  /** A platform call: `channel.delete_messages(batch)` or `message.delete()`. */
  datatype DeleteCall = BulkDelete(channel: ChannelId, batch: seq<Message>) | DeleteOne(message: Message)

  /** The index of the first message too old for bulk deletion (the cut point), or the length. */
  function CutIndex(ms: seq<Message>, nowMs: Millis): (k: nat)
    ensures k <= |ms|
    ensures forall i :: 0 <= i < k ==> !IsOlderThan14d(ms[i], nowMs)
    ensures k < |ms| ==> IsOlderThan14d(ms[k], nowMs)
  {
    if ms == [] || IsOlderThan14d(ms[0], nowMs) then 0 else 1 + CutIndex(ms[1..], nowMs)
  }

  /** The bulk calls for `s`: full batches of 100 and a last, shorter one when something is left. */
  function Batches(channel: ChannelId, s: seq<Message>): seq<DeleteCall>
    decreases |s|
  {
    if s == [] then []
    else if |s| <= BulkDeleteCap then [BulkDelete(channel, s)]
    else [BulkDelete(channel, s[..BulkDeleteCap])] + Batches(channel, s[BulkDeleteCap..])
  }

  function Individually(s: seq<Message>): (r: seq<DeleteCall>)
    ensures |r| == |s| && forall i :: 0 <= i < |s| ==> r[i] == DeleteOne(s[i])
  {
    seq(|s|, i requires 0 <= i < |s| => DeleteOne(s[i]))
  }

  /** One channel's calls: the messages before the cut in bulk, the cut message and the rest one by one. */
  function ChannelPlan(cm: ChannelMessages, nowMs: Millis): seq<DeleteCall>
  {
    var k := CutIndex(cm.messages, nowMs);
    Batches(cm.channel, cm.messages[..k]) + Individually(cm.messages[k..])
  }

  /** The calls for all channels, in the mapping's order. */
  function Plan(g: Mappings, nowMs: Millis): seq<DeleteCall>
  {
    if g == [] then [] else Plan(g[..|g| - 1], nowMs) + ChannelPlan(g[|g| - 1], nowMs)
  }

  /**
   * What a call adds to the deleted list: a whole batch, even when the platform answered
   * NotFound; a single message only when it still existed (`missing` holds the ids already gone).
   */
  function CallResult(call: DeleteCall, missing: set<MessageId>): seq<Message>
  {
    match call
    case BulkDelete(_, batch) => batch
    case DeleteOne(m) => if m.id in missing then [] else [m]
  }

  function Outcome(calls: seq<DeleteCall>, missing: set<MessageId>): seq<Message>
  {
    if calls == [] then [] else Outcome(calls[..|calls| - 1], missing) + CallResult(calls[|calls| - 1], missing)
  }

  /** The messages of `s` that still existed, in order. */
  function Present(s: seq<Message>, missing: set<MessageId>): (r: seq<Message>)
    ensures forall i :: 0 <= i < |r| ==> r[i] in s && r[i].id !in missing
  {
    if s == [] then [] else Present(s[..|s| - 1], missing) + (if s[|s| - 1].id in missing then [] else [s[|s| - 1]])
  }

  lemma {:induction false} OutcomeAppend(a: seq<DeleteCall>, b: seq<DeleteCall>, missing: set<MessageId>)
    ensures Outcome(a + b, missing) == Outcome(a, missing) + Outcome(b, missing)
    decreases |b|
  {
    if b != [] {
      assert (a + b)[..|a + b| - 1] == a + b[..|b| - 1];
      OutcomeAppend(a, b[..|b| - 1], missing);
    } else {
      assert a + b == a;
    }
  }

  /** Stopping after the first `k` calls keeps a prefix of the full result. */
  lemma OutcomeOfPrefix(calls: seq<DeleteCall>, k: nat, missing: set<MessageId>)
    requires k <= |calls|
    ensures Outcome(calls[..k], missing) <= Outcome(calls, missing)
  {
    assert calls == calls[..k] + calls[k..];
    OutcomeAppend(calls[..k], calls[k..], missing);
  }

  lemma {:induction false} OutcomeSingle(call: DeleteCall, missing: set<MessageId>)
    ensures Outcome([call], missing) == CallResult(call, missing)
  {
    assert [call][..0] == [];
  }

  /** Bulk batches contribute all their messages: the batches together are the input, in order. */
  lemma {:induction false} BatchesCover(channel: ChannelId, s: seq<Message>, missing: set<MessageId>)
    ensures Outcome(Batches(channel, s), missing) == s
    decreases |s|
  {
    if s == [] {
    } else if |s| <= BulkDeleteCap {
      OutcomeSingle(BulkDelete(channel, s), missing);
    } else {
      BatchesCover(channel, s[BulkDeleteCap..], missing);
      OutcomeSingle(BulkDelete(channel, s[..BulkDeleteCap]), missing);
      OutcomeAppend([BulkDelete(channel, s[..BulkDeleteCap])], Batches(channel, s[BulkDeleteCap..]), missing);
      assert s[..BulkDeleteCap] + s[BulkDeleteCap..] == s;
    }
  }

  /**
   * Every bulk call goes to the channel with 1 to 100 messages, every call but the last has
   * exactly 100, and there are ceil(|s| / 100) of them.
   */
  lemma {:induction false} BatchesShape(channel: ChannelId, s: seq<Message>)
    ensures |Batches(channel, s)| == (|s| + BulkDeleteCap - 1) / BulkDeleteCap
    ensures forall i :: 0 <= i < |Batches(channel, s)| ==>
      Batches(channel, s)[i].BulkDelete? && Batches(channel, s)[i].channel == channel &&
      1 <= |Batches(channel, s)[i].batch| <= BulkDeleteCap
    ensures forall i :: 0 <= i < |Batches(channel, s)| - 1 ==> |Batches(channel, s)[i].batch| == BulkDeleteCap
    decreases |s|
  {
    if |s| > BulkDeleteCap {
      BatchesShape(channel, s[BulkDeleteCap..]);
      var r := Batches(channel, s);
      var t := Batches(channel, s[BulkDeleteCap..]);
      assert r == [BulkDelete(channel, s[..BulkDeleteCap])] + t;
      assert forall i :: 1 <= i < |r| ==> r[i] == t[i - 1];
    }
  }

  /** Batching a prefix of whole batches, then the rest, is batching the whole. */
  lemma {:induction false} BatchesSplit(channel: ChannelId, s: seq<Message>, n: nat)
    requires n <= |s| && n % BulkDeleteCap == 0
    ensures Batches(channel, s) == Batches(channel, s[..n]) + Batches(channel, s[n..])
    decreases n
  {
    var c := BulkDeleteCap;
    if n == 0 {
      assert s[n..] == s;
    } else if |s| == c {
      assert s[..n] == s;
      assert s[n..] == [];
    } else if n == c {
      assert Batches(channel, s[..n]) == [BulkDelete(channel, s[..c])];
    } else {
      assert s[..n][..c] == s[..c];
      assert s[..n][c..] == s[c..][..n - c];
      assert s[n..] == s[c..][n - c..];
      BatchesSplit(channel, s[c..], n - c);
    }
  }

  /** The calls for one channel, message by message. */
  lemma ChannelPlanShape(cm: ChannelMessages, nowMs: Millis, missing: set<MessageId>)
    ensures var k := CutIndex(cm.messages, nowMs);
      Outcome(ChannelPlan(cm, nowMs), missing) == cm.messages[..k] + Present(cm.messages[k..], missing)
  {
    var k := CutIndex(cm.messages, nowMs);
    var b := Batches(cm.channel, cm.messages[..k]);
    BatchesCover(cm.channel, cm.messages[..k], missing);
    OutcomeAppend(b, Individually(cm.messages[k..]), missing);
    IndividuallyOutcome(cm.messages[k..], missing);
  }

  lemma {:induction false} IndividuallyOutcome(s: seq<Message>, missing: set<MessageId>)
    ensures Outcome(Individually(s), missing) == Present(s, missing)
    decreases |s|
  {
    if s != [] {
      var init := s[..|s| - 1];
      IndividuallyOutcome(init, missing);
      assert Individually(s)[..|s| - 1] == Individually(init);
    }
  }

  /** 150 bot messages, all young enough: two bulk calls of 100 and 50, and all 150 deleted. */
  lemma ExampleOneHundredFifty(channel: ChannelId, ms: seq<Message>, nowMs: Millis, missing: set<MessageId>)
    requires |ms| == 150
    requires forall i :: 0 <= i < |ms| ==> !IsOlderThan14d(ms[i], nowMs)
    ensures ChannelPlan(ChannelMessages(channel, ms), nowMs) == [BulkDelete(channel, ms[..100]), BulkDelete(channel, ms[100..])]
    ensures Outcome(ChannelPlan(ChannelMessages(channel, ms), nowMs), missing) == ms
  {
    assert CutIndex(ms, nowMs) == 150;
    assert ms[..150] == ms;
    assert Batches(channel, ms[100..]) == [BulkDelete(channel, ms[100..])];
    assert Individually(ms[150..]) == [];
    ChannelPlanShape(ChannelMessages(channel, ms), nowMs, missing);
    assert Present([], missing) == [];
  }

  /**
   * Five messages whose third is the first too old for bulk deletion: the first two go in one
   * bulk call, the other three are deleted one by one.
   */
  lemma ExampleCutAtThird(channel: ChannelId, ms: seq<Message>, nowMs: Millis)
    requires |ms| == 5
    requires !IsOlderThan14d(ms[0], nowMs) && !IsOlderThan14d(ms[1], nowMs) && IsOlderThan14d(ms[2], nowMs)
    ensures ChannelPlan(ChannelMessages(channel, ms), nowMs) ==
      [BulkDelete(channel, ms[..2]), DeleteOne(ms[2]), DeleteOne(ms[3]), DeleteOne(ms[4])]
  {
    assert CutIndex(ms[2..], nowMs) == 0;
    assert CutIndex(ms[1..], nowMs) == 1 + CutIndex(ms[1..][1..], nowMs);
    assert ms[1..][1..] == ms[2..];
    assert CutIndex(ms, nowMs) == 2;
  }

  /** The full plan for the first `n` channels is where the plan for all channels starts. */
  lemma {:induction false} PlanPrefix(g: Mappings, n: nat, nowMs: Millis)
    requires n <= |g|
    ensures Plan(g[..n], nowMs) <= Plan(g, nowMs)
    decreases |g| - n
  {
    if n < |g| {
      PlanPrefix(g, n + 1, nowMs);
      assert g[..n + 1][..n] == g[..n];
    } else {
      assert g[..n] == g;
    }
  }

  /** One channel's calls delete at most its messages, and all of them when none was already gone. */
  lemma ChannelOutcome(cm: ChannelMessages, nowMs: Millis, missing: set<MessageId>)
    ensures |Outcome(ChannelPlan(cm, nowMs), missing)| <= |cm.messages|
    ensures missing == {} ==> Outcome(ChannelPlan(cm, nowMs), missing) == cm.messages
  {
    ChannelPlanShape(cm, nowMs, missing);
    PrefixThenPresent(cm.messages, CutIndex(cm.messages, nowMs), missing);
  }

  lemma PrefixThenPresent(s: seq<Message>, k: nat, missing: set<MessageId>)
    requires k <= |s|
    ensures |s[..k] + Present(s[k..], missing)| <= |s|
    ensures missing == {} ==> s[..k] + Present(s[k..], missing) == s
  {
    var front, back := s[..k], s[k..];
    PresentLength(back, missing);
    assert |front| + |back| == |s|;
    if missing == {} {
      assert front + back == s;
    }
  }

  /** Without cancellation, everything enumerated is deleted except the messages already gone. */
  lemma {:induction false} PlanOutcome(g: Mappings, nowMs: Millis, missing: set<MessageId>)
    ensures |Outcome(Plan(g, nowMs), missing)| <= |Flatten(g)|
    ensures missing == {} ==> Outcome(Plan(g, nowMs), missing) == Flatten(g)
  {
    if g != [] {
      var init := g[..|g| - 1];
      var cm := g[|g| - 1];
      var front := Plan(init, nowMs);
      var back := ChannelPlan(cm, nowMs);
      assert Plan(g, nowMs) == front + back;
      PlanOutcome(init, nowMs, missing);
      OutcomeAppend(front, back, missing);
      ChannelOutcome(cm, nowMs, missing);
      FlattenLast(g);
      assert Outcome(Plan(g, nowMs), missing) == Outcome(front, missing) + Outcome(back, missing);
    }
  }

  /**
   * With nothing already gone, carrying out the whole plan for the grouping of `ms` deletes
   * exactly the messages of `ms`, channel by channel.
   */
  lemma PlanDeletesAll(ms: seq<Message>, nowMs: Millis)
    ensures multiset(Outcome(Plan(Group(ms), nowMs), {})) == multiset(ms)
  {
    PlanOutcome(Group(ms), nowMs, {});
    GroupWellGrouped(ms);
  }

  lemma {:induction false} PresentLength(s: seq<Message>, missing: set<MessageId>)
    ensures |Present(s, missing)| <= |s|
    ensures missing == {} ==> Present(s, missing) == s
    decreases |s|
  {
    if s != [] {
      PresentLength(s[..|s| - 1], missing);
      assert s[..|s| - 1] + [s[|s| - 1]] == s;
    }
  }

  /** A bulk call never carries a message too old for bulk deletion, whatever the order of the list. */
  lemma BulkOnlyYoung(cm: ChannelMessages, nowMs: Millis, i: nat, m: Message)
    requires i < |ChannelPlan(cm, nowMs)| && ChannelPlan(cm, nowMs)[i].BulkDelete?
    requires m in ChannelPlan(cm, nowMs)[i].batch
    ensures !IsOlderThan14d(m, nowMs)
  {
    var k := CutIndex(cm.messages, nowMs);
    var b := Batches(cm.channel, cm.messages[..k]);
    BatchesCover(cm.channel, cm.messages[..k], {});
    assert i < |b|;
    assert ChannelPlan(cm, nowMs)[i] == b[i];
    BatchInOutcome(b, i, m, {});
  }

  lemma {:induction false} BatchInOutcome(calls: seq<DeleteCall>, i: nat, m: Message, missing: set<MessageId>)
    requires i < |calls| && calls[i].BulkDelete? && m in calls[i].batch
    ensures m in Outcome(calls, missing)
  {
    if i < |calls| - 1 {
      BatchInOutcome(calls[..|calls| - 1], i, m, missing);
    }
  }

  /**
   * When the list is newest first (strictly decreasing ids), every message handed to individual
   * deletion is indeed too old for bulk deletion. History is newest first only without an
   * `after` bound: a session with a first limit passes it as `after`, history then yields oldest
   * first, and this hypothesis does not hold.
   */
  lemma IndividualOnlyOld(cm: ChannelMessages, nowMs: Millis, j: nat)
    requires forall a, b :: 0 <= a < b < |cm.messages| ==> cm.messages[a].id > cm.messages[b].id
    requires CutIndex(cm.messages, nowMs) <= j < |cm.messages|
    ensures IsOlderThan14d(cm.messages[j], nowMs)
  {
    var k := CutIndex(cm.messages, nowMs);
    OlderIsDownwardClosed(cm.messages[k], cm.messages[j], nowMs);
  }

  /** The `q`-th full batch of 100. */
  lemma BatchAt(channel: ChannelId, s: seq<Message>, q: nat)
    requires BulkDeleteCap * (q + 1) <= |s|
    ensures |Batches(channel, s[..BulkDeleteCap * q])| == q
    ensures q < |Batches(channel, s)|
    ensures Batches(channel, s)[q] == BulkDelete(channel, s[BulkDeleteCap * q..BulkDeleteCap * (q + 1)])
  {
    var j := BulkDeleteCap * q;
    BatchesSplit(channel, s, j);
    BatchesShape(channel, s[..j]);
    var t := s[j..];
    assert t[..BulkDeleteCap] == s[j..j + BulkDeleteCap];
    if |t| == BulkDeleteCap {
      assert t == s[j..j + BulkDeleteCap];
    }
  }

  /** The shorter last batch, when the length is not a multiple of 100. */
  lemma LastBatch(channel: ChannelId, s: seq<Message>, q: nat)
    requires BulkDeleteCap * q < |s| < BulkDeleteCap * (q + 1)
    ensures |Batches(channel, s)| == q + 1
    ensures |Batches(channel, s[..BulkDeleteCap * q])| == q
    ensures Batches(channel, s)[q] == BulkDelete(channel, s[BulkDeleteCap * q..])
  {
    var j := BulkDeleteCap * q;
    BatchesSplit(channel, s, j);
    BatchesShape(channel, s[..j]);
    assert Batches(channel, s[j..]) == [BulkDelete(channel, s[j..])];
  }

  /** Exactly `q` batches when the length is `100 * q`. */
  lemma WholeBatches(channel: ChannelId, s: seq<Message>, q: nat)
    requires |s| == BulkDeleteCap * q
    ensures |Batches(channel, s)| == q
  {
    BatchesShape(channel, s);
  }

  /**
   * The batch being filled from `messages[100 * n..j]`, for the messages before `cut`: once it
   * holds 100 messages it is call `n`; at the cut, a partial batch is the last call and an empty
   * one means there are exactly `n` calls.
   */
  lemma BatchIndex(channel: ChannelId, messages: seq<Message>, cut: nat, n: nat, j: nat)
    requires cut <= |messages| && BulkDeleteCap * n <= j <= cut && j - BulkDeleteCap * n <= BulkDeleteCap
    ensures var P := Batches(channel, messages[..cut]);
      j - BulkDeleteCap * n == BulkDeleteCap ==> n < |P| && P[n] == BulkDelete(channel, messages[BulkDeleteCap * n..j])
    ensures var P := Batches(channel, messages[..cut]);
      j == cut && 0 < j - BulkDeleteCap * n < BulkDeleteCap ==>
        |P| == n + 1 && P[n] == BulkDelete(channel, messages[BulkDeleteCap * n..j])
    ensures j == cut && j == BulkDeleteCap * n ==> |Batches(channel, messages[..cut])| == n
  {
    var s := messages[..cut];
    if j - BulkDeleteCap * n == BulkDeleteCap {
      BatchAt(channel, s, n);
      assert s[BulkDeleteCap * n..BulkDeleteCap * (n + 1)] == messages[BulkDeleteCap * n..j];
    } else if j == cut && 0 < j - BulkDeleteCap * n {
      LastBatch(channel, s, n);
      assert s[BulkDeleteCap * n..] == messages[BulkDeleteCap * n..j];
    } else if j == cut {
      WholeBatches(channel, s, n);
    }
  }

  /** Issuing one more call of a prefix. */
  lemma PrefixStep(calls: seq<DeleteCall>, n: nat, missing: set<MessageId>)
    requires n < |calls|
    ensures calls[..n + 1] == calls[..n] + [calls[n]]
    ensures Outcome(calls[..n + 1], missing) == Outcome(calls[..n], missing) + CallResult(calls[n], missing)
  {
    assert calls[..n + 1][..n] == calls[..n];
  }

  /** Where channel `i`'s calls sit in the plan. */
  lemma PlanAt(g: Mappings, i: nat, nowMs: Millis)
    requires i < |g|
    ensures Plan(g[..i + 1], nowMs) == Plan(g[..i], nowMs) + ChannelPlan(g[i], nowMs)
    ensures |Plan(g[..i], nowMs)| + |ChannelPlan(g[i], nowMs)| <= |Plan(g, nowMs)|
    ensures Plan(g, nowMs)[|Plan(g[..i], nowMs)|..|Plan(g[..i], nowMs)| + |ChannelPlan(g[i], nowMs)|] == ChannelPlan(g[i], nowMs)
  {
    var h := g[..i + 1];
    assert h[..|h| - 1] == g[..i] && h[|h| - 1] == g[i];
    var p, c := Plan(g[..i], nowMs), ChannelPlan(g[i], nowMs);
    assert Plan(h, nowMs) == p + c;
    PlanPrefix(g, i + 1, nowMs);
    var all := Plan(g, nowMs);
    assert all[..|p| + |c|] == p + c;
    assert all[|p|..|p| + |c|] == (p + c)[|p|..];
  }

  /** The enumerated messages that pass every test, in order. */
  function Matching(ms: seq<Message>, tests: seq<Test>, search: Search): (r: seq<Message>)
    ensures |r| <= |ms|
    ensures forall i :: 0 <= i < |r| ==> r[i] in ms && Accepts(tests, search, r[i])
  {
    if ms == [] then []
    else Matching(ms[..|ms| - 1], tests, search) + (if Accepts(tests, search, ms[|ms| - 1]) then [ms[|ms| - 1]] else [])
  }

  /** What examining one more message does to the matches, the grouping and the id list. */
  lemma EnumerationStep(ms: seq<Message>, m: Message, tests: seq<Test>, search: Search)
    ensures Matching(ms + [m], tests, search) ==
      Matching(ms, tests, search) + (if Accepts(tests, search, m) then [m] else [])
    ensures Group(Matching(ms + [m], tests, search)) ==
      (if Accepts(tests, search, m) then AddMessage(Group(Matching(ms, tests, search)), m) else Group(Matching(ms, tests, search)))
    ensures Ids(Matching(ms + [m], tests, search)) ==
      Ids(Matching(ms, tests, search)) + (if Accepts(tests, search, m) then [m.id] else [])
  {
    assert (ms + [m])[..|ms|] == ms;
    var a := Matching(ms, tests, search);
    if Accepts(tests, search, m) {
      assert (a + [m])[..|a|] == a;
      assert Matching(ms + [m], tests, search) == a + [m];
      assert Ids(a + [m]) == Ids(a) + [m.id];
    } else {
      assert Matching(ms + [m], tests, search) == a;
    }
  }

  /** A message is matched exactly when it was enumerated and passes every test. */
  lemma {:induction false} MatchingMeaning(ms: seq<Message>, tests: seq<Test>, search: Search, m: Message)
    ensures m in Matching(ms, tests, search) <==> m in ms && Accepts(tests, search, m)
  {
    if ms != [] {
      MatchingMeaning(ms[..|ms| - 1], tests, search, m);
      assert ms == ms[..|ms| - 1] + [ms[|ms| - 1]];
    }
  }

  // ----------------------------------------------------------------------------
  // `_modlog_cleaned_messages`
  // ----------------------------------------------------------------------------

  function Reversed(s: seq<Message>): (r: seq<Message>)
    ensures |r| == |s| && forall i :: 0 <= i < |s| ==> r[i] == s[|s| - 1 - i]
  {
    seq(|s|, i requires 0 <= i < |s| => s[|s| - 1 - i])
  }

  function ChannelMention(c: ChannelId): string
  {
    "<#" + NatToString(c) + ">"
  }

  function UserMention(u: UserId): string
  {
    "<@" + NatToString(u) + ">"
  }

  function ChannelMentions(ids: seq<ChannelId>): (r: seq<string>)
    ensures |r| == |ids| && forall i :: 0 <= i < |ids| ==> r[i] == ChannelMention(ids[i])
  {
    seq(|ids|, i requires 0 <= i < |ids| => ChannelMention(ids[i]))
  }

  /** The scope named in the log entry: "all channels" for `*`, otherwise the mentions joined by ", ". */
  function TargetChannels(channels: Channels): string
  {
    match channels
    case AllChannels => "all channels"
    case ChannelList(ids) => Join(ChannelMentions(ids), ", ")
  }

  /** What is sent when something was deleted: the log, newest first, and the text of the entry. */
  datatype ModlogEntry = ModlogEntry(log: seq<Message>, text: string)

  /** The bold count that opens the log entry. */
  function CountHead(count: nat): string
  {
    "**" + NatToString(count) + "** messages deleted in "
  }

  function ModlogTail(channels: Channels, author: UserId, logUrl: string): string
  {
    TargetChannels(channels) + " by " + UserMention(author) +
      "\n\nA log of the deleted messages can be found [here](" + logUrl + ")."
  }

  lemma PrefixOfConcat(a: string, b: string)
    ensures a <= a + b
  {
    assert (a + b)[..|a|] == a;
  }

  /**
   * `_modlog_cleaned_messages`: nothing to log when nothing was deleted; otherwise the deleted
   * messages in reverse and a text that starts with their count in bold.
   */
  function ModlogReport(deleted: seq<Message>, channels: Channels, author: UserId, logUrl: string): (r: Option<ModlogEntry>)
    ensures r.None? <==> deleted == []
    ensures r.Some? ==> Reversed(r.value.log) == deleted
    ensures r.Some? ==> CountHead(|deleted|) <= r.value.text
  {
    if deleted == [] then None
    else
      var text := CountHead(|deleted|) + ModlogTail(channels, author, logUrl);
      PrefixOfConcat(CountHead(|deleted|), ModlogTail(channels, author, logUrl));
      Some(ModlogEntry(Reversed(deleted), text))
  }

  /** The count at the head of the log text reads back as the number of deleted messages. */
  lemma CountHeadValue(count: nat)
    ensures CountHead(count)[..2] == "**"
    ensures IsDigits(CountHead(count)[2..2 + |NatToString(count)|])
    ensures DecimalValue(CountHead(count)[2..2 + |NatToString(count)|]) == count
  {
    var digits := NatToString(count);
    assert CountHead(count) == "**" + (digits + "** messages deleted in ");
    assert CountHead(count)[2..2 + |digits|] == digits;
    NatToStringValue(count);
  }
}
