/**
 * How far the `clean` cog's loops get when the run is interrupted.
 *
 * The cog runs cooperatively: other coroutines (the `clean stop` command, the error handler
 * of another invocation) run only while it is suspended at an `await`. Awaits are numbered
 * 1, 2, ... over the cog's lifetime; an `Env` says what happens while the cog is suspended at
 * which await. A `Status` is the part of the cog's state the loops change: its flag, the number
 * of awaits so far, and the deletion calls made on the platform.
 */
module CleanSchedule {
  import opened Wrappers
  import opened CleanModel
  import opened CleanDeletion

  /**
   * What interrupts the cog while it is suspended at an await: another coroutine clears the flag
   * (`clean stop`, or the error handler of another invocation), or the awaited call raises a
   * platform error (anything but `NotFound`).
   */
  datatype Event = Cancel(at: nat) | Failure(at: nat)

  /**
   * The surroundings of one run: at most one interruption; the ids in `missing` are gone by the
   * time a single deletion reaches them; `nowMs` is the clock while deleting, read once per run.
   */
  datatype Env = Env(event: Option<Event>, missing: set<MessageId>, nowMs: Millis)

  /** The error a run ends with when the call awaited at `at` raises. */
  datatype Fault = HttpException(at: nat)

  datatype Status = Status(cleaning: bool, awaits: nat, calls: seq<DeleteCall>)

  /** The interruption falls on an await in `(lo, hi]`. */
  predicate StopsIn(env: Env, lo: nat, hi: int)
  {
    env.event.Some? && lo < env.event.value.at <= hi
  }

  predicate CancelledIn(env: Env, lo: nat, hi: int)
  {
    StopsIn(env, lo, hi) && env.event.value.Cancel?
  }

  predicate FailedIn(env: Env, lo: nat, hi: int)
  {
    StopsIn(env, lo, hi) && env.event.value.Failure?
  }

  /** The status after one more await at which the awaited call (if any) was `call`. */
  function Awaited(s: Status, env: Env, call: seq<DeleteCall>): Status
  {
    Status(s.cleaning && env.event != Some(Cancel(s.awaits + 1)), s.awaits + 1, s.calls + call)
  }

  // ----------------------------------------------------------------------------
  // Deletion loops: each call is issued after a check of the flag
  // ----------------------------------------------------------------------------

  /**
   * Of `n` calls, each issued right after a check of the flag, how many are issued when the flag
   * is `running` at the start and `base` awaits have passed: none if the flag is already clear,
   * otherwise every call up to and including the one during which the run is interrupted.
   */
  function Issued(running: bool, env: Env, base: nat, n: nat): (k: nat)
    ensures k <= n
  {
    if !running then 0 else if StopsIn(env, base, base + n) then env.event.value.at - base else n
  }

  /** Whether the last call issued raised. */
  predicate IssueRaised(running: bool, env: Env, base: nat, n: nat)
  {
    running && FailedIn(env, base, base + n)
  }

  /** Nothing happens: every call is issued and none raises. */
  lemma IssuedQuiet(env: Env, base: nat, n: nat)
    requires env.event.None?
    ensures Issued(true, env, base, n) == n && !IssueRaised(true, env, base, n)
  {
  }

  /**
   * The flag cleared during the `j`-th call: exactly `j` calls are issued, the last being the one
   * in flight when the flag was cleared, and none raises.
   */
  lemma IssuedCancelled(env: Env, base: nat, n: nat, j: nat)
    requires 1 <= j <= n && env.event == Some(Cancel(base + j))
    ensures Issued(true, env, base, n) == j && !IssueRaised(true, env, base, n)
  {
  }

  /** The `j`-th call raised: exactly `j` calls are issued, and the loop raises. */
  lemma IssuedFailed(env: Env, base: nat, n: nat, j: nat)
    requires 1 <= j <= n && env.event == Some(Failure(base + j))
    ensures Issued(true, env, base, n) == j && IssueRaised(true, env, base, n)
  {
  }

  /** A clear flag at the start issues nothing. */
  lemma IssuedNotRunning(env: Env, base: nat, n: nat)
    ensures Issued(false, env, base, n) == 0 && !IssueRaised(false, env, base, n)
  {
  }

  /**
   * A deletion loop over the calls `P` is `n` calls in, none raised, and `deleted` is what they
   * removed.
   */
  ghost predicate Progress(P: seq<DeleteCall>, n: nat, env: Env, s0: Status, deleted: seq<Message>, s: Status)
  {
    && n <= |P|
    && (s0.cleaning || n == 0)
    && !StopsIn(env, s0.awaits, s0.awaits + n - 1)
    && !FailedIn(env, s0.awaits, s0.awaits + n)
    && s == Status(s0.cleaning && !CancelledIn(env, s0.awaits, s0.awaits + n), s0.awaits + n, s0.calls + P[..n])
    && deleted == Outcome(P[..n], env.missing)
  }

  /**
   * A deletion loop over the calls `P`, started in `s0`, has run to its end in `s`: it issued
   * the calls the schedule allows and no more, raised exactly when the last of them raised, and
   * otherwise returned what those calls removed.
   */
  ghost predicate Ran(P: seq<DeleteCall>, env: Env, s0: Status, r: Result<seq<Message>, Fault>, s: Status)
  {
    var k := Issued(s0.cleaning, env, s0.awaits, |P|);
    && s.calls == s0.calls + P[..k]
    && s.awaits == s0.awaits + k
    && s.cleaning == (s0.cleaning && !CancelledIn(env, s0.awaits, s0.awaits + k))
    && (r.Err? <==> IssueRaised(s0.cleaning, env, s0.awaits, |P|))
    && (r.Err? ==> r.error == HttpException(s0.awaits + k))
    && (r.Ok? ==> r.value == Outcome(P[..k], env.missing))
  }

  /**
   * A deletion loop that returned normally issued a prefix of its plan, and what it reports as
   * deleted is what those calls removed.
   */
  lemma RanPrefix(P: seq<DeleteCall>, env: Env, s0: Status, r: Result<seq<Message>, Fault>, s: Status)
    requires Ran(P, env, s0, r, s) && r.Ok?
    ensures s0.calls <= s.calls
    ensures s.calls[|s0.calls|..] <= P
    ensures r.value == Outcome(s.calls[|s0.calls|..], env.missing)
  {
    var k := Issued(s0.cleaning, env, s0.awaits, |P|);
    assert s.calls[|s0.calls|..] == P[..k];
  }

  /** Whether or not it raised, a deletion loop issued a prefix of its plan. */
  lemma RanCalls(P: seq<DeleteCall>, env: Env, s0: Status, r: Result<seq<Message>, Fault>, s: Status)
    requires Ran(P, env, s0, r, s)
    ensures s0.calls <= s.calls && s.calls[|s0.calls|..] <= P
  {
    var k := Issued(s0.cleaning, env, s0.awaits, |P|);
    assert s.calls[|s0.calls|..] == P[..k];
  }

  lemma Start(P: seq<DeleteCall>, env: Env, s0: Status)
    ensures Progress(P, 0, env, s0, [], s0)
  {
    assert P[..0] == [];
  }

  /** The flag was found clear: the loop returns what it has. */
  lemma StopEarly(P: seq<DeleteCall>, n: nat, env: Env, s0: Status, deleted: seq<Message>, s: Status)
    requires Progress(P, n, env, s0, deleted, s) && !s.cleaning
    ensures Ran(P, env, s0, Ok(deleted), s)
  {
  }

  /** The loop ends: the flag was found clear, or every call was issued. */
  lemma Finish(P: seq<DeleteCall>, n: nat, env: Env, s0: Status, deleted: seq<Message>, s: Status)
    requires Progress(P, n, env, s0, deleted, s) && (s.cleaning ==> n == |P|)
    ensures Ran(P, env, s0, Ok(deleted), s)
  {
  }

  /** After issuing call `P[n]` with the flag set. */
  lemma AfterCall(P: seq<DeleteCall>, n: nat, env: Env, s0: Status, deleted: seq<Message>, s1: Status, s: Status)
    requires Progress(P, n, env, s0, deleted, s1) && s1.cleaning && n < |P|
    requires s == Awaited(s1, env, [P[n]])
    ensures env.event == Some(Failure(s.awaits)) ==> Ran(P, env, s0, Err(HttpException(s.awaits)), s)
    ensures env.event != Some(Failure(s.awaits)) ==>
      Progress(P, n + 1, env, s0, deleted + CallResult(P[n], env.missing), s)
  {
    PrefixStep(P, n, env.missing);
  }

  /** A loop of `m` calls nested at call `n` of a loop of `total`, both started with the flag set. */
  lemma NestedSchedule(run0: bool, env: Env, a0: nat, n: nat, m: nat, total: nat)
    requires n + m <= total && run0 && !StopsIn(env, a0, a0 + n)
    ensures var k := Issued(true, env, a0 + n, m);
      && (IssueRaised(true, env, a0 + n, m) ==>
            Issued(run0, env, a0, total) == n + k && IssueRaised(run0, env, a0, total))
      && (!IssueRaised(true, env, a0 + n, m) ==>
            !StopsIn(env, a0, a0 + n + k - 1) && !FailedIn(env, a0, a0 + n + k))
      && (CancelledIn(env, a0 + n, a0 + n + k) <==> CancelledIn(env, a0, a0 + n + k))
      && (!CancelledIn(env, a0 + n, a0 + n + k) && !IssueRaised(true, env, a0 + n, m) ==> k == m)
  {
  }

  /** The calls of a nested loop extend the prefix of the outer plan they sit in. */
  lemma NestedCalls(c0: seq<DeleteCall>, P: seq<DeleteCall>, n: nat, S: seq<DeleteCall>, k: nat)
    requires n + |S| <= |P| && P[n..n + |S|] == S && k <= |S|
    ensures c0 + P[..n] + S[..k] == c0 + P[..n + k]
  {
    assert P[n..n + k] == S[..k];
    assert P[..n + k] == P[..n] + P[n..n + k];
  }

  /** What the calls of a nested loop remove extends what the outer prefix removed. */
  lemma NestedOutcome(P: seq<DeleteCall>, n: nat, S: seq<DeleteCall>, k: nat, missing: set<MessageId>)
    requires n + |S| <= |P| && P[n..n + |S|] == S && k <= |S|
    ensures Outcome(P[..n], missing) + Outcome(S[..k], missing) == Outcome(P[..n + k], missing)
  {
    assert P[n..n + k] == S[..k];
    assert P[..n + k] == P[..n] + P[n..n + k];
    OutcomeAppend(P[..n], S[..k], missing);
  }

  /** A nested loop over `S`, which sits at `P[n..]`, ran with the flag set and raised. */
  lemma NestedRaised(P: seq<DeleteCall>, n: nat, S: seq<DeleteCall>, env: Env, s0: Status,
                     before: seq<Message>, s1: Status, r: Result<seq<Message>, Fault>, s: Status)
    requires Progress(P, n, env, s0, before, s1) && s1.cleaning
    requires n + |S| <= |P| && P[n..n + |S|] == S
    requires Ran(S, env, s1, r, s) && r.Err?
    ensures Ran(P, env, s0, Err(r.error), s)
  {
    var k := Issued(true, env, s1.awaits, |S|);
    NestedSchedule(s0.cleaning, env, s0.awaits, n, |S|, |P|);
    NestedCalls(s0.calls, P, n, S, k);
  }

  /** A nested loop over `S`, which sits at `P[n..]`, ran with the flag set and returned. */
  lemma NestedReturned(P: seq<DeleteCall>, n: nat, S: seq<DeleteCall>, env: Env, s0: Status,
                       before: seq<Message>, s1: Status, r: Result<seq<Message>, Fault>, s: Status)
    requires Progress(P, n, env, s0, before, s1) && s1.cleaning
    requires n + |S| <= |P| && P[n..n + |S|] == S
    requires Ran(S, env, s1, r, s) && r.Ok?
    ensures Progress(P, n + Issued(true, env, s1.awaits, |S|), env, s0, before + r.value, s)
    ensures s.cleaning ==> Issued(true, env, s1.awaits, |S|) == |S|
  {
    var k := Issued(true, env, s1.awaits, |S|);
    NestedSchedule(s0.cleaning, env, s0.awaits, n, |S|, |P|);
    NestedCalls(s0.calls, P, n, S, k);
    NestedOutcome(P, n, S, k, env.missing);
  }

  /** A nested loop started with the flag clear issues nothing and returns nothing. */
  lemma NestedIdle(P: seq<DeleteCall>, n: nat, S: seq<DeleteCall>, env: Env, s0: Status,
                   before: seq<Message>, s1: Status, r: Result<seq<Message>, Fault>, s: Status)
    requires Progress(P, n, env, s0, before, s1) && !s1.cleaning
    requires Ran(S, env, s1, r, s)
    ensures r == Ok([]) && !s.cleaning && Issued(s1.cleaning, env, s1.awaits, |S|) == 0
    ensures Progress(P, n, env, s0, before + r.value, s)
  {
    assert S[..0] == [];
    assert before + [] == before;
  }

  /**
   * After a nested deletion loop over `S`, started in `s1` once `n` calls of `P` had completed:
   * either the outer loop raises with it, or it has made progress by the calls the nested loop
   * issued, and by all of them when the flag is still set. When the flag was set at the start of
   * the nested loop, `S` sits at `P[n..]`.
   */
  lemma NestedStep(P: seq<DeleteCall>, n: nat, S: seq<DeleteCall>, env: Env, s0: Status,
                   before: seq<Message>, s1: Status, r: Result<seq<Message>, Fault>, s: Status)
      returns (m: nat, after: seq<Message>)
    requires Progress(P, n, env, s0, before, s1)
    requires s1.cleaning ==> n + |S| <= |P| && P[n..n + |S|] == S
    requires Ran(S, env, s1, r, s)
    ensures r.Err? ==> Ran(P, env, s0, Err(r.error), s)
    ensures r.Ok? ==> m == n + Issued(s1.cleaning, env, s1.awaits, |S|) && after == before + r.value
    ensures r.Ok? ==> Progress(P, m, env, s0, after, s)
    ensures r.Ok? && s.cleaning ==> m == n + |S|
  {
    m := n + Issued(s1.cleaning, env, s1.awaits, |S|);
    after := if r.Ok? then before + r.value else before;
    if r.Err? {
      NestedRaised(P, n, S, env, s0, before, s1, r, s);
    } else if s1.cleaning {
      NestedReturned(P, n, S, env, s0, before, s1, r, s);
    } else {
      NestedIdle(P, n, S, env, s0, before, s1, r, s);
    }
  }

  /**
   * After the deletion loop for channel `i` of a mapping `g`, started in `s1` once the calls for
   * the channels before it had been issued (when the flag was set).
   */
  lemma ChannelStep(g: Mappings, i: nat, env: Env, s0: Status, n: nat, before: seq<Message>, s1: Status,
                    r: Result<seq<Message>, Fault>, s: Status)
      returns (m: nat, after: seq<Message>)
    requires i < |g| && Progress(Plan(g, env.nowMs), n, env, s0, before, s1)
    requires s1.cleaning ==> n == |Plan(g[..i], env.nowMs)|
    requires Ran(ChannelPlan(ChannelMessages(g[i].channel, g[i].messages), env.nowMs), env, s1, r, s)
    ensures r.Err? ==> Ran(Plan(g, env.nowMs), env, s0, Err(r.error), s)
    ensures r.Ok? ==> after == before + r.value && Progress(Plan(g, env.nowMs), m, env, s0, after, s)
    ensures r.Ok? && s.cleaning ==> m == |Plan(g[..i + 1], env.nowMs)|
  {
    PlanAt(g, i, env.nowMs);
    assert ChannelMessages(g[i].channel, g[i].messages) == g[i];
    m, after := NestedStep(Plan(g, env.nowMs), n, ChannelPlan(g[i], env.nowMs), env, s0, before, s1, r, s);
  }

  // ----------------------------------------------------------------------------
  // The bulk walk over one channel's messages
  // ----------------------------------------------------------------------------

  /** The bulk calls for a channel: its messages before the cut point, in batches of up to 100. */
  function BulkPlan(channel: ChannelId, messages: seq<Message>, nowMs: Millis): seq<DeleteCall>
  {
    Batches(channel, messages[..CutIndex(messages, nowMs)])
  }

  /** A channel's calls are its bulk plan followed by one call per message from the cut point on. */
  lemma ChannelPlanParts(channel: ChannelId, messages: seq<Message>, nowMs: Millis)
    ensures var P := ChannelPlan(ChannelMessages(channel, messages), nowMs);
      var B := BulkPlan(channel, messages, nowMs);
      var rest := Individually(messages[CutIndex(messages, nowMs)..]);
      P == B + rest && P[0..0 + |B|] == B && P[|B|..|B| + |rest|] == rest
  {
  }

  /**
   * The walk is at index `i`, short of the cut point: the `n` full batches before it have been
   * taken, and `toDelete` holds the messages since.
   */
  predicate Collected(messages: seq<Message>, nowMs: Millis, n: nat, i: nat, toDelete: seq<Message>)
  {
    && i <= CutIndex(messages, nowMs)
    && BulkDeleteCap * n <= i
    && toDelete == messages[BulkDeleteCap * n..i]
    && |toDelete| < BulkDeleteCap
  }

  /** The walk is at index `i` and the `n` full batches before it have gone out. */
  ghost predicate Walking(channel: ChannelId, messages: seq<Message>, env: Env, s0: Status,
                          n: nat, i: nat, toDelete: seq<Message>, deleted: seq<Message>, s: Status)
  {
    && Collected(messages, env.nowMs, n, i, toDelete)
    && Progress(BulkPlan(channel, messages, env.nowMs), n, env, s0, deleted, s)
  }

  lemma WalkStart(channel: ChannelId, messages: seq<Message>, env: Env, s0: Status)
    ensures Walking(channel, messages, env, s0, 0, 0, [], [], s0)
  {
    Start(BulkPlan(channel, messages, env.nowMs), env, s0);
  }

  /** Message `i` is young enough and joins a batch that stays below 100 messages. */
  lemma WalkCollect(messages: seq<Message>, nowMs: Millis, n: nat, i: nat, toDelete: seq<Message>)
    requires Collected(messages, nowMs, n, i, toDelete)
    requires i < |messages| && !IsOlderThan14d(messages[i], nowMs) && |toDelete| + 1 < BulkDeleteCap
    ensures Collected(messages, nowMs, n, i + 1, toDelete + [messages[i]])
  {
    assert toDelete + [messages[i]] == messages[BulkDeleteCap * n..i + 1];
  }

  /** Message `i` is young enough and completes a batch of 100: that batch is call `n`. */
  lemma WalkFull(channel: ChannelId, messages: seq<Message>, nowMs: Millis, n: nat, i: nat, toDelete: seq<Message>)
    requires Collected(messages, nowMs, n, i, toDelete)
    requires i < |messages| && !IsOlderThan14d(messages[i], nowMs) && |toDelete| + 1 == BulkDeleteCap
    ensures var P := BulkPlan(channel, messages, nowMs);
      n < |P| && P[n] == BulkDelete(channel, toDelete + [messages[i]])
    ensures Collected(messages, nowMs, n + 1, i + 1, [])
  {
    var cut := CutIndex(messages, nowMs);
    assert toDelete + [messages[i]] == messages[BulkDeleteCap * n..i + 1];
    BatchIndex(channel, messages, cut, n, i + 1);
  }

  /**
   * The walk stops at the cut point; what is left to flush is the last call of the bulk plan,
   * or there is nothing left and every call has gone out.
   */
  lemma WalkEnd(channel: ChannelId, messages: seq<Message>, nowMs: Millis, n: nat, i: nat, toDelete: seq<Message>)
    requires Collected(messages, nowMs, n, i, toDelete)
    requires i == |messages| || IsOlderThan14d(messages[i], nowMs)
    ensures i == CutIndex(messages, nowMs)
    ensures var P := BulkPlan(channel, messages, nowMs);
      && (toDelete == [] ==> n == |P|)
      && (toDelete != [] ==> n + 1 == |P| && P[n] == BulkDelete(channel, toDelete))
  {
    BatchIndex(channel, messages, i, n, i);
  }

  // ----------------------------------------------------------------------------
  // Enumeration loops: each step is awaited, then the flag is checked
  // ----------------------------------------------------------------------------

  /**
   * Of `n` steps, each awaited and then followed by a check of the flag, how many are taken: the
   * first always is, and the loop stops after the first step that found the flag clear (already
   * at the start, or cleared then) or that raised.
   */
  function Polled(running: bool, env: Env, base: nat, n: nat): (k: nat)
    ensures k <= n
  {
    if n == 0 then 0
    else if !running then 1
    else if StopsIn(env, base, base + n) then env.event.value.at - base
    else n
  }

  predicate PollRaised(running: bool, env: Env, base: nat, n: nat)
  {
    Polled(running, env, base, n) > 0 && env.event == Some(Failure(base + Polled(running, env, base, n)))
  }

  /** Nothing happens during an enumeration that starts with the flag set: every step is taken. */
  lemma PolledQuiet(env: Env, base: nat, n: nat)
    requires env.event.None?
    ensures Polled(true, env, base, n) == n && !PollRaised(true, env, base, n)
  {
  }

  /** A clear flag at the start: the first step is still taken, and only it. */
  lemma PolledNotRunning(env: Env, base: nat, n: nat)
    requires n > 0
    ensures Polled(false, env, base, n) == 1
    ensures PollRaised(false, env, base, n) <==> env.event == Some(Failure(base + 1))
  {
  }

  /** An enumeration of `total` steps is `j` steps in, started in `s0`, and nothing stopped it. */
  predicate Polling(total: nat, j: nat, env: Env, s0: Status, s: Status)
  {
    && j <= total
    && (s0.cleaning || j == 0)
    && !StopsIn(env, s0.awaits, s0.awaits + j)
    && s == Status(s0.cleaning, s0.awaits + j, s0.calls)
  }

  /**
   * An enumeration over the messages `E`, started in `s0`, has run to its end in `s` with
   * result `r`: it took the steps the schedule allows, raised exactly when the last of them
   * raised, returned the grouped matches of all of `E` when the flag is still set and empty
   * containers when it is not.
   */
  ghost predicate Enumerated(E: seq<Message>, tests: seq<Test>, search: Search, env: Env, s0: Status,
                             r: Result<(Mappings, seq<MessageId>), Fault>, s: Status)
  {
    var k := Polled(s0.cleaning, env, s0.awaits, |E|);
    && s.calls == s0.calls
    && s.awaits == s0.awaits + k
    && s.cleaning == (s0.cleaning && !CancelledIn(env, s0.awaits, s0.awaits + k))
    && (r.Err? <==> PollRaised(s0.cleaning, env, s0.awaits, |E|))
    && (r.Err? ==> r.error == HttpException(s0.awaits + k))
    && (r.Ok? && s.cleaning ==> r.value == (Group(Matching(E, tests, search)), Ids(Matching(E, tests, search))))
    && (r.Ok? && !s.cleaning ==> r.value == ([], []))
  }

  /** The next step has been awaited. */
  lemma PollStep(E: seq<Message>, j: nat, tests: seq<Test>, search: Search, env: Env, s0: Status, s1: Status, s: Status)
    requires Polling(|E|, j, env, s0, s1) && j < |E|
    requires s == Awaited(s1, env, [])
    ensures env.event == Some(Failure(s.awaits)) ==> Enumerated(E, tests, search, env, s0, Err(HttpException(s.awaits)), s)
    ensures env.event != Some(Failure(s.awaits)) && !s.cleaning ==> Enumerated(E, tests, search, env, s0, Ok(([], [])), s)
    ensures env.event != Some(Failure(s.awaits)) && s.cleaning ==> Polling(|E|, j + 1, env, s0, s)
  {
    assert s0.calls + [] == s0.calls;
  }

  /** Every step has been taken. */
  lemma PollDone(E: seq<Message>, tests: seq<Test>, search: Search, env: Env, s0: Status, s: Status,
                 mappings: Mappings, ids: seq<MessageId>)
    requires Polling(|E|, |E|, env, s0, s)
    requires mappings == Group(Matching(E, tests, search)) && ids == Ids(Matching(E, tests, search))
    ensures Enumerated(E, tests, search, env, s0, Ok((mappings, ids)), s)
  {
  }

  /** The grouped matches and their ids, after one more examined message. */
  function Gather(tests: seq<Test>, search: Search, acc: (Mappings, seq<MessageId>), m: Message): (Mappings, seq<MessageId>)
  {
    if Accepts(tests, search, m) then (AddMessage(acc.0, m), acc.1 + [m.id]) else acc
  }

  /** The grouped matches among `ms` and their ids. */
  function Gathered(ms: seq<Message>, tests: seq<Test>, search: Search): (Mappings, seq<MessageId>)
  {
    (Group(Matching(ms, tests, search)), Ids(Matching(ms, tests, search)))
  }

  /** Gathering one more message extends what was gathered from the messages before it. */
  lemma GatherNext(ms: seq<Message>, m: Message, tests: seq<Test>, search: Search)
    ensures Gather(tests, search, Gathered(ms, tests, search), m) == Gathered(ms + [m], tests, search)
  {
    EnumerationStep(ms, m, tests, search);
    var g := Gathered(ms, tests, search);
    if Accepts(tests, search, m) {
      assert Gather(tests, search, g, m) == (AddMessage(g.0, m), g.1 + [m.id]);
    } else {
      assert g.1 + [] == g.1;
    }
  }

  /**
   * An enumeration over `E`, started in `s0`, has examined its prefix `done` and is still
   * running in `s`, holding in `acc` the grouped matches of `done` and their ids.
   */
  ghost predicate Gathering(E: seq<Message>, done: seq<Message>, tests: seq<Test>, search: Search, env: Env,
                            s0: Status, s: Status, acc: (Mappings, seq<MessageId>))
  {
    && done <= E
    && Polling(|E|, |done|, env, s0, s)
    && acc == Gathered(done, tests, search)
  }

  /**
   * The await before message `k` of a page that follows `seen` in `E`, and what follows it:
   * the enumeration raises, ends empty, or goes on having gathered one message more.
   */
  lemma PageStep(E: seq<Message>, seen: seq<Message>, page: seq<Message>, k: nat, tests: seq<Test>, search: Search,
                 env: Env, s0: Status, s1: Status, s: Status, acc: (Mappings, seq<MessageId>))
    requires seen + page <= E && k < |page|
    requires Gathering(E, seen + page[..k], tests, search, env, s0, s1, acc)
    requires s == Awaited(s1, env, [])
    ensures env.event == Some(Failure(s.awaits)) ==> Enumerated(E, tests, search, env, s0, Err(HttpException(s.awaits)), s)
    ensures env.event != Some(Failure(s.awaits)) && !s.cleaning ==> Enumerated(E, tests, search, env, s0, Ok(([], [])), s)
    ensures env.event != Some(Failure(s.awaits)) && s.cleaning ==>
      Gathering(E, seen + page[..k + 1], tests, search, env, s0, s, Gather(tests, search, acc, page[k]))
  {
    var done := seen + page[..k];
    assert seen + page[..k + 1] == done + [page[k]];
    assert |done| < |seen + page| <= |E|;
    PollStep(E, |done|, tests, search, env, s0, s1, s);
    GatherNext(done, page[k], tests, search);
  }

  // ----------------------------------------------------------------------------
  // Runs that nothing interrupts
  // ----------------------------------------------------------------------------

  /** With no interruption, a deletion loop started with the flag set issues every call. */
  lemma QuietRan(P: seq<DeleteCall>, env: Env, s0: Status, r: Result<seq<Message>, Fault>, s: Status)
    requires Ran(P, env, s0, r, s) && env.event.None? && s0.cleaning
    ensures r == Ok(Outcome(P, env.missing))
    ensures s == Status(true, s0.awaits + |P|, s0.calls + P)
  {
    IssuedQuiet(env, s0.awaits, |P|);
    assert P[..|P|] == P;
  }

  /** With no interruption, an enumeration started with the flag set returns all the matches. */
  lemma QuietEnumerated(E: seq<Message>, tests: seq<Test>, search: Search, env: Env, s0: Status,
                        r: Result<(Mappings, seq<MessageId>), Fault>, s: Status)
    requires Enumerated(E, tests, search, env, s0, r, s) && env.event.None? && s0.cleaning
    ensures r == Ok((Group(Matching(E, tests, search)), Ids(Matching(E, tests, search))))
    ensures s == Status(true, s0.awaits + |E|, s0.calls)
  {
    PolledQuiet(env, s0.awaits, |E|);
  }
}
