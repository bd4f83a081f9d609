/**
 * The `Clean` cog as a state machine: its one `cleaning` flag, the message enumerators, the
 * deleter and the session that strings them together.
 */
module CleanCog {
  import opened Wrappers
  import opened PyStr
  import opened CleanModel
  import opened CleanDeletion
  import opened CleanSchedule

  // ----------------------------------------------------------------------------
  // What the bot can see
  // ----------------------------------------------------------------------------

  /**
   * `channel.history(limit=.., before=.., after=..)`: the messages the provider yields for a
   * channel, a limit and the two bounds, in the order it yields them.
   */
  type History = (ChannelId, nat, Option<Millis>, Option<Millis>) -> seq<Message>

  /** The messages the history enumerator steps through: one channel after another. */
  function Examined(channels: seq<ChannelId>, history: History, traverse: nat, before: Option<Millis>, after: Option<Millis>): seq<Message>
  {
    if channels == [] then []
    else Examined(channels[..|channels| - 1], history, traverse, before, after) + history(channels[|channels| - 1], traverse, before, after)
  }

  lemma ExaminedAt(channels: seq<ChannelId>, i: nat, history: History, traverse: nat, before: Option<Millis>, after: Option<Millis>)
    requires i < |channels|
    ensures Examined(channels[..i + 1], history, traverse, before, after) ==
      Examined(channels[..i], history, traverse, before, after) + history(channels[i], traverse, before, after)
    ensures Examined(channels[..i + 1], history, traverse, before, after) <= Examined(channels, history, traverse, before, after)
  {
    assert channels[..i + 1][..i] == channels[..i];
    ExaminedPrefix(channels, i + 1, history, traverse, before, after);
  }

  lemma {:induction false} ExaminedPrefix(channels: seq<ChannelId>, n: nat, history: History, traverse: nat, before: Option<Millis>, after: Option<Millis>)
    requires n <= |channels|
    ensures Examined(channels[..n], history, traverse, before, after) <= Examined(channels, history, traverse, before, after)
    decreases |channels| - n
  {
    if n < |channels| {
      ExaminedPrefix(channels, n + 1, history, traverse, before, after);
      assert channels[..n + 1][..n] == channels[..n];
    } else {
      assert channels[..n] == channels;
    }
  }

  /** `islice(cache, traverse)`: the first `traverse` messages in the cache's iteration order. */
  function CacheSlice(cache: seq<Message>, traverse: nat): (r: seq<Message>)
    ensures r <= cache && |r| == Min(traverse, |cache|)
  {
    cache[..Min(traverse, |cache|)]
  }

  /** The invoking command message, its channel, whether that is a moderation channel, and its author. */
  datatype Invocation = Invocation(message: Message, channel: ChannelId, modChannel: bool, author: UserId)

  /**
   * The bot's surroundings: its message cache, the history provider, the guild's text channels,
   * and the log service's answer to an upload.
   */
  datatype World = World(cache: seq<Message>, history: History, textChannels: seq<ChannelId>,
                         logUrl: (seq<Message>, UserId) -> string)

  /** The messages a session examines for a resolved scope. */
  function Candidates(scope: Channels, useCache: bool, traverse: nat, first: Option<Millis>, second: Option<Millis>, world: World): seq<Message>
  {
    if scope.AllChannels? && useCache then CacheSlice(world.cache, traverse)
    else Examined(if scope.AllChannels? then world.textChannels else scope.ids, world.history, traverse, second, first)
  }

  function InvocationCalls(ctx: Invocation): seq<DeleteCall>
  {
    if ctx.modChannel then [] else [DeleteOne(ctx.message)]
  }

  /** Seconds after which a notice outside a moderation channel deletes itself. */
  const MessageDeleteDelay: nat := 5

  /** A message sent to the invoking channel, with the delay after which it deletes itself, if any. */
  datatype Notice = Notice(text: string, deleteAfter: Option<nat>)

  /** `_send_expiring_message`: notices in moderation channels stay, others go after five seconds. */
  function ExpiringNotice(ctx: Invocation, text: string): Notice
  {
    Notice(text, if ctx.modChannel then None else Some(MessageDeleteDelay))
  }

  const BusyNotice: string := ":x: Please wait for the currently ongoing clean operation to complete."
  const NoMatchesNotice: string := ":x: No matching messages could be found."
  const NotCleaningNotice: string := ":question: There's no cleaning going on."

  /** How a `_clean_messages` call ends. */
  datatype SessionOutcome =
    | Rejected(error: ArgumentError)
    | Busy
    | Failed(fault: Fault)
    | Cancelled
    | Finished(mappings: Mappings, ids: seq<MessageId>, deleted: seq<Message>, report: Option<ModlogEntry>,
               logged: bool, reacted: bool, raised: Option<Fault>)

  /**
   * What the end of a session has done, measured against the state before it: it told the log
   * to ignore the found ids, issued a prefix of the plan for what was found, deleted what those
   * calls removed, and cleared the flag. After that come the closing steps, each an await that
   * may raise (`raised`), which ends the session: the no-matches notice or the upload and the
   * log entry, then the check mark in a moderation channel. A step that raised has no effect.
   */
  ghost predicate Concluded(
    ctx: Invocation, scope: Channels, mappings: Mappings, ids: seq<MessageId>, world: World, env: Env,
    calls0: seq<DeleteCall>, sent0: seq<Notice>, modlog0: seq<ModlogEntry>, ignored0: seq<MessageId>,
    outcome: SessionOutcome, calls: seq<DeleteCall>, sent: seq<Notice>, modlog: seq<ModlogEntry>, ignored: seq<MessageId>)
    requires outcome.Finished?
  {
    && outcome.mappings == mappings && outcome.ids == ids
    && ignored == ignored0 + ids
    && calls0 <= calls
    && calls[|calls0|..] <= Plan(mappings, env.nowMs)
    && outcome.deleted == Outcome(calls[|calls0|..], env.missing)
    && Closed(ctx, scope, world, env, sent0, modlog0, outcome, sent, modlog)
  }

  /**
   * The closing steps of a session, once the flag is clear: the report of what was deleted, the
   * no-matches notice or the log entry, and the check mark; a step that raised has no effect and
   * ends the session with the failure the `Env` schedules.
   */
  ghost predicate Closed(
    ctx: Invocation, scope: Channels, world: World, env: Env, sent0: seq<Notice>, modlog0: seq<ModlogEntry>,
    outcome: SessionOutcome, sent: seq<Notice>, modlog: seq<ModlogEntry>)
    requires outcome.Finished?
  {
    && outcome.report == ModlogReport(outcome.deleted, scope, ctx.author, world.logUrl(Reversed(outcome.deleted), ctx.author))
    && (outcome.logged ==> outcome.report.Some?)
    && modlog == modlog0 + (if outcome.logged then [outcome.report.value] else [])
    && sent == sent0 + (if outcome.report.None? && outcome.raised.None? then [ExpiringNotice(ctx, NoMatchesNotice)] else [])
    && (outcome.reacted ==> outcome.logged && ctx.modChannel)
    && (outcome.raised.None? ==> (outcome.logged <==> outcome.report.Some?) && (outcome.reacted <==> outcome.logged && ctx.modChannel))
    && (outcome.raised.Some? ==>
          env.event == Some(Failure(outcome.raised.value.at)) && !outcome.reacted && (outcome.logged ==> ctx.modChannel))
  }

  /**
   * What a finished session has done, measured against the state before it: it deleted the
   * invocation (outside moderation channels, after telling the log to ignore it), and then
   * concluded on the grouped matches among the candidates of the normalised scope.
   */
  ghost predicate SessionRecord(
    ctx: Invocation, traverse: nat, channels: Option<Channels>, botsOnly: bool, users: seq<UserId>,
    regex: Option<Pattern>, first: Option<Limit>, second: Option<Limit>, useCache: bool,
    world: World, search: Search, env: Env,
    calls0: seq<DeleteCall>, sent0: seq<Notice>, modlog0: seq<ModlogEntry>, ignored0: seq<MessageId>,
    outcome: SessionOutcome, calls: seq<DeleteCall>, sent: seq<Notice>, modlog: seq<ModlogEntry>, ignored: seq<MessageId>)
    requires outcome.Finished?
  {
    && (second.Some? ==> first.Some?)
    && var resolved := Normalise(channels, first, second, ctx.channel);
    var tests := BuildPredicate(botsOnly, users, regex, resolved.first, resolved.second);
    var matches := Matching(Candidates(resolved.channels, useCache, traverse, resolved.first, resolved.second, world), tests, search);
    Concluded(ctx, resolved.channels, Group(matches), Ids(matches), world, env,
              calls0 + InvocationCalls(ctx), sent0, modlog0, ignored0 + (if ctx.modChannel then [] else [ctx.message.id]),
              outcome, calls, sent, modlog, ignored)
  }

  /**
   * What a session that raised has left behind, measured from the state after the invocation
   * was dealt with: either nothing more, or the found ids told to the log and a prefix of the
   * plan for the found messages issued.
   */
  ghost predicate Interrupted(mappings: Mappings, ids: seq<MessageId>, env: Env,
                              calls0: seq<DeleteCall>, ignored0: seq<MessageId>, calls: seq<DeleteCall>, ignored: seq<MessageId>)
  {
    && calls0 <= calls
    && calls[|calls0|..] <= Plan(mappings, env.nowMs)
    && (ignored == ignored0 + ids || (ignored == ignored0 && calls == calls0))
  }

  /** `Interrupted` for a session on the normalised scope and the predicate built for it. */
  ghost predicate SessionInterrupted(
    ctx: Invocation, traverse: nat, channels: Option<Channels>, botsOnly: bool, users: seq<UserId>,
    regex: Option<Pattern>, first: Option<Limit>, second: Option<Limit>, useCache: bool,
    world: World, search: Search, env: Env,
    calls0: seq<DeleteCall>, ignored0: seq<MessageId>, calls: seq<DeleteCall>, ignored: seq<MessageId>)
  {
    && (second.Some? ==> first.Some?)
    && var resolved := Normalise(channels, first, second, ctx.channel);
    var tests := BuildPredicate(botsOnly, users, regex, resolved.first, resolved.second);
    var matches := Matching(Candidates(resolved.channels, useCache, traverse, resolved.first, resolved.second, world), tests, search);
    Interrupted(Group(matches), Ids(matches), env, calls0 + InvocationCalls(ctx),
                ignored0 + (if ctx.modChannel then [] else [ctx.message.id]), calls, ignored)
  }

  /** How a `clean` command ends: the help text was posted (or raised), or a session ran. */
  datatype GroupOutcome = HelpPosted(raised: Option<Fault>) | SessionRan(session: SessionOutcome)

  /** The outcomes after which a command error reaches `cog_command_error`. */
  predicate Raises(r: SessionOutcome)
  {
    r.Rejected? || r.Failed? || (r.Finished? && r.raised.Some?)
  }

  /** How many awaits `_modlog_cleaned_messages` makes: the notice, or the upload and the log entry. */
  function LogSteps(deleted: seq<Message>): nat
  {
    if deleted == [] then 1 else 2
  }

  class Clean {
    /** The single-flight flag: set while a session runs, polled to notice cancellation. */
    var cleaning: bool
    /** How many awaits the cog has been suspended at. */
    var awaits: nat
    /** The deletion calls made on the platform, in order. */
    var calls: seq<DeleteCall>
    /** The notices sent to invoking channels. */
    var sent: seq<Notice>
    /** The entries posted to the moderation log. */
    var modlog: seq<ModlogEntry>
    /** The message ids the moderation log was told not to report as deleted. */
    var ignored: seq<MessageId>

    constructor ()
      ensures !cleaning && awaits == 0 && calls == [] && sent == [] && modlog == [] && ignored == []
    {
      cleaning := false;
      awaits := 0;
      calls := [];
      sent := [];
      modlog := [];
      ignored := [];
    }

    /** The part of the state the loops change. */
    function Now(): Status
      reads this
    {
      Status(cleaning, awaits, calls)
    }

    /** One await: other coroutines may run, and the awaited call may raise. */
    method Suspend(env: Env) returns (r: Result<(), Fault>)
      modifies this
      ensures Now() == Awaited(old(Now()), env, [])
      ensures sent == old(sent) && modlog == old(modlog) && ignored == old(ignored)
      ensures r.Err? <==> env.event == Some(Failure(awaits))
      ensures r.Err? ==> r.error == HttpException(awaits)
    {
      awaits := awaits + 1;
      if env.event == Some(Cancel(awaits)) {
        cleaning := false;
      }
      r := if env.event == Some(Failure(awaits)) then Err(HttpException(awaits)) else Ok(());
    }

    /** `channel.delete_messages(batch)` under `suppress(NotFound)`. */
    method DeleteMessages(channel: ChannelId, batch: seq<Message>, env: Env) returns (r: Result<(), Fault>)
      modifies this
      ensures Now() == Awaited(old(Now()), env, [BulkDelete(channel, batch)])
      ensures sent == old(sent) && modlog == old(modlog) && ignored == old(ignored)
      ensures r.Err? <==> env.event == Some(Failure(awaits))
      ensures r.Err? ==> r.error == HttpException(awaits)
    {
      calls := calls + [BulkDelete(channel, batch)];
      r := Suspend(env);
    }

    /** `message.delete()`: the answer says whether the message still existed. */
    method DeleteMessage(m: Message, env: Env) returns (r: Result<bool, Fault>)
      modifies this
      ensures Now() == Awaited(old(Now()), env, [DeleteOne(m)])
      ensures sent == old(sent) && modlog == old(modlog) && ignored == old(ignored)
      ensures r.Err? <==> env.event == Some(Failure(awaits))
      ensures r.Err? ==> r.error == HttpException(awaits)
      ensures r.Ok? ==> (r.value <==> m.id !in env.missing)
    {
      calls := calls + [DeleteOne(m)];
      var s := Suspend(env);
      r := if s.Err? then Err(s.error) else Ok(m.id !in env.missing);
    }

    // --------------------------------------------------------------------------
    // The deleter
    // --------------------------------------------------------------------------

    /**
     * `_delete_messages_individually`: one `delete()` per message, the flag checked before each;
     * a message already gone is left out of the result.
     */
    method DeleteMessagesIndividually(messages: seq<Message>, env: Env) returns (r: Result<seq<Message>, Fault>)
      modifies this
      ensures Ran(Individually(messages), env, old(Now()), r, Now())
      ensures sent == old(sent) && modlog == old(modlog) && ignored == old(ignored)
    {
      ghost var P := Individually(messages);
      ghost var s0 := old(Now());
      Start(P, env, s0);
      var deleted: seq<Message> := [];
      var i := 0;
      while i < |messages|
        invariant i <= |messages|
        invariant Progress(P, i, env, s0, deleted, Now())
        invariant sent == old(sent) && modlog == old(modlog) && ignored == old(ignored)
      {
        if !cleaning {
          Finish(P, i, env, s0, deleted, Now());
          return Ok(deleted);
        }
        ghost var s1 := Now();
        var found := DeleteMessage(messages[i], env);
        AfterCall(P, i, env, s0, deleted, s1, Now());
        if found.Err? {
          return Err(found.error);
        }
        if found.value {
          deleted := deleted + [messages[i]];
        }
        i := i + 1;
      }
      Finish(P, i, env, s0, deleted, Now());
      r := Ok(deleted);
    }

    /**
     * The first half of `_delete_found`'s loop body for one channel: walk the messages, collecting
     * them into bulk calls of up to 100, until the first one too old for a bulk call, then flush
     * what is left. The flag is checked before each message and before the flush. When the walk
     * completes, it stopped at the cut point, and `deleteOld` says whether messages remain.
     */
    method DeleteInBulk(channel: ChannelId, messages: seq<Message>, env: Env)
      returns (r: Result<seq<Message>, Fault>, currentIndex: nat, deleteOld: bool)
      modifies this
      ensures Ran(BulkPlan(channel, messages, env.nowMs), env, old(Now()), r, Now())
      ensures r.Ok? && cleaning ==>
        currentIndex == CutIndex(messages, env.nowMs) && (deleteOld <==> currentIndex < |messages|)
      ensures sent == old(sent) && modlog == old(modlog) && ignored == old(ignored)
    {
      ghost var P := BulkPlan(channel, messages, env.nowMs);
      ghost var s0 := old(Now());
      WalkStart(channel, messages, env, s0);
      ghost var n: nat := 0;
      var deleted: seq<Message> := [];
      var toDelete: seq<Message> := [];
      deleteOld := false;
      currentIndex := 0;
      while currentIndex < |messages|
        invariant Walking(channel, messages, env, s0, n, currentIndex, toDelete, deleted, Now())
        invariant !deleteOld
        invariant sent == old(sent) && modlog == old(modlog) && ignored == old(ignored)
      {
        if !cleaning {
          Finish(P, n, env, s0, deleted, Now());
          return Ok(deleted), currentIndex, deleteOld;
        }
        if IsOlderThan14d(messages[currentIndex], env.nowMs) {
          deleteOld := true;
          break;
        }
        ghost var collected := toDelete;
        toDelete := toDelete + [messages[currentIndex]];
        if |toDelete| == BulkDeleteCap {
          WalkFull(channel, messages, env.nowMs, n, currentIndex, collected);
          var res := IssueBatch(channel, toDelete, deleted, env, P, n, s0);
          if res.Err? {
            return Err(res.error), currentIndex, deleteOld;
          }
          deleted := deleted + toDelete;
          toDelete := [];
          n := n + 1;
        } else {
          WalkCollect(messages, env.nowMs, n, currentIndex, collected);
        }
        currentIndex := currentIndex + 1;
      }
      WalkEnd(channel, messages, env.nowMs, n, currentIndex, toDelete);
      assert deleteOld <==> currentIndex < |messages|;
      r := FlushLeftover(channel, toDelete, deleted, env, P, n, s0);
    }

    /** Call `n` of the bulk walk, issued with the flag set. */
    method IssueBatch(channel: ChannelId, toDelete: seq<Message>, deleted: seq<Message>, env: Env,
                      ghost P: seq<DeleteCall>, ghost n: nat, ghost s0: Status)
      returns (r: Result<(), Fault>)
      modifies this
      requires Progress(P, n, env, s0, deleted, Now()) && cleaning
      requires n < |P| && P[n] == BulkDelete(channel, toDelete)
      ensures r.Err? ==> Ran(P, env, s0, Err(r.error), Now())
      ensures r.Ok? ==> Progress(P, n + 1, env, s0, deleted + toDelete, Now())
      ensures sent == old(sent) && modlog == old(modlog) && ignored == old(ignored)
    {
      ghost var s1 := Now();
      r := DeleteMessages(channel, toDelete, env);
      AfterCall(P, n, env, s0, deleted, s1, Now());
    }

    /**
     * The end of the bulk walk: unless the flag is clear, the messages collected since the last
     * full batch go out in one last bulk call.
     */
    method FlushLeftover(channel: ChannelId, toDelete: seq<Message>, deleted: seq<Message>, env: Env,
                         ghost P: seq<DeleteCall>, ghost n: nat, ghost s0: Status)
      returns (r: Result<seq<Message>, Fault>)
      modifies this
      requires Progress(P, n, env, s0, deleted, Now())
      requires cleaning && toDelete == [] ==> n == |P|
      requires cleaning && toDelete != [] ==> n + 1 == |P| && P[n] == BulkDelete(channel, toDelete)
      ensures Ran(P, env, s0, r, Now())
      ensures sent == old(sent) && modlog == old(modlog) && ignored == old(ignored)
    {
      if !cleaning || |toDelete| == 0 {
        Finish(P, n, env, s0, deleted, Now());
        return Ok(deleted);
      }
      var res := IssueBatch(channel, toDelete, deleted, env, P, n, s0);
      if res.Err? {
        return Err(res.error);
      }
      Finish(P, n + 1, env, s0, deleted + toDelete, Now());
      r := Ok(deleted + toDelete);
    }

    /**
     * The body of `_delete_found`'s loop for one channel: bulk calls of up to 100 for the
     * messages before the cut point, then the rest one by one; a cancelled run returns what was
     * already deleted.
     */
    method DeleteChannelMessages(channel: ChannelId, messages: seq<Message>, env: Env) returns (r: Result<seq<Message>, Fault>)
      modifies this
      ensures Ran(ChannelPlan(ChannelMessages(channel, messages), env.nowMs), env, old(Now()), r, Now())
      ensures sent == old(sent) && modlog == old(modlog) && ignored == old(ignored)
    {
      ghost var cut := CutIndex(messages, env.nowMs);
      ghost var B := BulkPlan(channel, messages, env.nowMs);
      ghost var rest := Individually(messages[cut..]);
      ghost var P := ChannelPlan(ChannelMessages(channel, messages), env.nowMs);
      ChannelPlanParts(channel, messages, env.nowMs);
      ghost var s0 := old(Now());
      Start(P, env, s0);
      var bulk, currentIndex, deleteOld := DeleteInBulk(channel, messages, env);
      ghost var n, after := NestedStep(P, 0, B, env, s0, [], s0, bulk, Now());
      if bulk.Err? {
        return Err(bulk.error);
      }
      var deleted := bulk.value;
      if !cleaning {
        Finish(P, n, env, s0, deleted, Now());
        return Ok(deleted);
      }
      if deleteOld {
        ghost var s1 := Now();
        var oldDeleted := DeleteMessagesIndividually(messages[currentIndex..], env);
        ghost var m, after := NestedStep(P, n, rest, env, s0, deleted, s1, oldDeleted, Now());
        if oldDeleted.Err? {
          return Err(oldDeleted.error);
        }
        n := m;
        deleted := deleted + oldDeleted.value;
        Finish(P, n, env, s0, deleted, Now());
        return Ok(deleted);
      }
      assert rest == [];
      Finish(P, n, env, s0, deleted, Now());
      r := Ok(deleted);
    }

    /**
     * `_delete_found`: every channel of the mapping in turn; the result is what the calls issued
     * before the flag was cleared removed, in call order.
     */
    method DeleteFound(mappings: Mappings, env: Env) returns (r: Result<seq<Message>, Fault>)
      modifies this
      ensures Ran(Plan(mappings, env.nowMs), env, old(Now()), r, Now())
      ensures sent == old(sent) && modlog == old(modlog) && ignored == old(ignored)
    {
      ghost var P := Plan(mappings, env.nowMs);
      ghost var s0 := old(Now());
      Start(P, env, s0);
      ghost var n: nat := 0;
      var deleted: seq<Message> := [];
      var i := 0;
      while i < |mappings|
        invariant i <= |mappings|
        invariant Progress(P, n, env, s0, deleted, Now())
        invariant cleaning ==> n == |Plan(mappings[..i], env.nowMs)|
        invariant sent == old(sent) && modlog == old(modlog) && ignored == old(ignored)
      {
        ghost var s1 := Now();
        var channelDeleted := DeleteChannelMessages(mappings[i].channel, mappings[i].messages, env);
        ghost var m, after := ChannelStep(mappings, i, env, s0, n, deleted, s1, channelDeleted, Now());
        if channelDeleted.Err? {
          return Err(channelDeleted.error);
        }
        deleted := deleted + channelDeleted.value;
        n := m;
        i := i + 1;
      }
      assert mappings[..i] == mappings;
      Finish(P, n, env, s0, deleted, Now());
      r := Ok(deleted);
    }
  
    // --------------------------------------------------------------------------
    // The enumerators
    // --------------------------------------------------------------------------

    /**
     * `_get_messages_from_cache`: the first `traverse` cached messages that pass the tests,
     * grouped by channel, and their ids in the same order. The loop has no await, so the flag
     * cannot change while it runs: the result is every match, or nothing when the flag is
     * already clear.
     */
    method GetMessagesFromCache(cache: seq<Message>, traverse: nat, tests: seq<Test>, search: Search)
      returns (mappings: Mappings, ids: seq<MessageId>)
      ensures cleaning ==> mappings == Group(Matching(CacheSlice(cache, traverse), tests, search))
      ensures cleaning ==> ids == Ids(Matching(CacheSlice(cache, traverse), tests, search))
      ensures !cleaning ==> mappings == [] && ids == []
    {
      var examined := CacheSlice(cache, traverse);
      var acc: (Mappings, seq<MessageId>) := ([], []);
      var i := 0;
      while i < |examined|
        invariant i <= |examined|
        invariant acc == Gathered(examined[..i], tests, search)
        invariant !cleaning ==> i == 0
      {
        if !cleaning {
          break;
        }
        var message := examined[i];
        assert examined[..i + 1] == examined[..i] + [message];
        GatherNext(examined[..i], message, tests, search);
        acc := Gather(tests, search, acc, message);
        i := i + 1;
      }
      assert cleaning ==> examined[..i] == examined;
      mappings, ids := acc.0, acc.1;
    }

    /**
     * `_get_messages_from_channels`: each channel's history in turn, every message awaited and
     * then the flag checked; a cleared flag throws away what was gathered.
     */
    method GetMessagesFromChannels(channels: seq<ChannelId>, traverse: nat, tests: seq<Test>, search: Search,
                                   before: Option<Millis>, after: Option<Millis>, history: History, env: Env)
      returns (r: Result<(Mappings, seq<MessageId>), Fault>)
      modifies this
      ensures Enumerated(Examined(channels, history, traverse, before, after), tests, search, env, old(Now()), r, Now())
      ensures sent == old(sent) && modlog == old(modlog) && ignored == old(ignored)
    {
      ghost var E := Examined(channels, history, traverse, before, after);
      ghost var s0 := old(Now());
      var acc: (Mappings, seq<MessageId>) := ([], []);
      ghost var seen: seq<Message> := [];
      var c := 0;
      while c < |channels|
        invariant c <= |channels|
        invariant seen == Examined(channels[..c], history, traverse, before, after)
        invariant Gathering(E, seen, tests, search, env, s0, Now(), acc)
        invariant sent == old(sent) && modlog == old(modlog) && ignored == old(ignored)
      {
        var page := history(channels[c], traverse, before, after);
        ExaminedAt(channels, c, history, traverse, before, after);
        var stop;
        stop, acc := PollPage(page, E, seen, s0, tests, search, env, acc);
        if stop.Some? {
          return stop.value;
        }
        seen := seen + page;
        c := c + 1;
      }
      assert channels[..c] == channels;
      PollDone(E, tests, search, env, s0, Now(), acc.0, acc.1);
      r := Ok(acc);
    }

    /**
     * One channel's page of `_get_messages_from_channels`, the messages `page` that follow
     * `seen` in the whole enumeration `E`: each is awaited, then the flag checked, then the
     * message tested. Either the enumeration ended here (`stop`), or the page was taken whole.
     */
    method PollPage(page: seq<Message>, ghost E: seq<Message>, ghost seen: seq<Message>, ghost s0: Status,
                    tests: seq<Test>, search: Search, env: Env, acc0: (Mappings, seq<MessageId>))
      returns (stop: Option<Result<(Mappings, seq<MessageId>), Fault>>, acc: (Mappings, seq<MessageId>))
      requires seen + page <= E
      requires Gathering(E, seen, tests, search, env, s0, Now(), acc0)
      modifies this
      ensures stop.Some? ==> Enumerated(E, tests, search, env, s0, stop.value, Now())
      ensures stop.None? ==> Gathering(E, seen + page, tests, search, env, s0, Now(), acc)
      ensures sent == old(sent) && modlog == old(modlog) && ignored == old(ignored)
    {
      acc := acc0;
      var k := 0;
      assert seen + page[..0] == seen;
      while k < |page|
        invariant k <= |page|
        invariant Gathering(E, seen + page[..k], tests, search, env, s0, Now(), acc)
        invariant sent == old(sent) && modlog == old(modlog) && ignored == old(ignored)
      {
        ghost var s1 := Now();
        var step := Suspend(env);
        PageStep(E, seen, page, k, tests, search, env, s0, s1, Now(), acc);
        if step.Err? {
          return Some(Err(step.error)), acc;
        }
        if !cleaning {
          return Some(Ok(([], []))), acc;
        }
        acc := Gather(tests, search, acc, page[k]);
        k := k + 1;
      }
      assert page[..k] == page;
      stop := None;
    }

    /**
     * The choice in `_clean_messages`: the cache for `*` when it may be used, otherwise the
     * history of each channel in scope (for `*`, every text channel of the guild), between the
     * two bounds.
     */
    method Enumerate(scope: Channels, useCache: bool, traverse: nat, first: Option<Millis>, second: Option<Millis>,
                     tests: seq<Test>, search: Search, world: World, env: Env)
      returns (r: Result<(Mappings, seq<MessageId>), Fault>)
      modifies this
      ensures var E := Candidates(scope, useCache, traverse, first, second, world);
        r.Ok? && cleaning ==> r.value == (Group(Matching(E, tests, search)), Ids(Matching(E, tests, search)))
      ensures r.Ok? && !cleaning ==> r.value == ([], [])
      ensures calls == old(calls) && (cleaning ==> old(cleaning))
      ensures env.event.None? && old(cleaning) ==> r.Ok? && cleaning
      ensures scope.AllChannels? && useCache ==> r.Ok? && Now() == old(Now())
      ensures r.Err? ==> cleaning == old(cleaning) && env.event.Some? && env.event.value.Failure?
      ensures sent == old(sent) && modlog == old(modlog) && ignored == old(ignored)
    {
      if scope.AllChannels? && useCache {
        var mappings, ids := GetMessagesFromCache(world.cache, traverse, tests, search);
        r := Ok((mappings, ids));
      } else {
        var channels := if scope.AllChannels? then world.textChannels else scope.ids;
        assert Candidates(scope, useCache, traverse, first, second, world) == Examined(channels, world.history, traverse, second, first);
        r := GetMessagesFromChannels(channels, traverse, tests, search, second, first, world.history, env);
        if env.event.None? && old(cleaning) {
          QuietEnumerated(Examined(channels, world.history, traverse, second, first), tests, search, env, old(Now()), r, Now());
        }
      }
    }

    // --------------------------------------------------------------------------
    // The session
    // --------------------------------------------------------------------------

    /** `_send_expiring_message`: one await, at which the send may raise; a send that raised posted nothing. */
    method SendExpiring(ctx: Invocation, text: string, env: Env) returns (r: Result<(), Fault>)
      modifies this
      ensures Now() == Awaited(old(Now()), env, [])
      ensures r.Err? <==> env.event == Some(Failure(awaits))
      ensures r.Err? ==> r.error == HttpException(awaits)
      ensures sent == old(sent) + (if r.Ok? then [ExpiringNotice(ctx, text)] else [])
      ensures modlog == old(modlog) && ignored == old(ignored)
    {
      r := Suspend(env);
      if r.Ok? {
        sent := sent + [ExpiringNotice(ctx, text)];
      }
    }

    /**
     * `_delete_invocation`: outside moderation channels the command message is deleted, after
     * telling the moderation log to ignore it; its being gone already is not an error.
     */
    method DeleteInvocation(ctx: Invocation, env: Env) returns (r: Result<(), Fault>)
      modifies this
      ensures Now() == if ctx.modChannel then old(Now()) else Awaited(old(Now()), env, InvocationCalls(ctx))
      ensures ignored == old(ignored) + (if ctx.modChannel then [] else [ctx.message.id])
      ensures r.Err? <==> !ctx.modChannel && env.event == Some(Failure(awaits))
      ensures r.Err? ==> r.error == HttpException(awaits)
      ensures sent == old(sent) && modlog == old(modlog)
    {
      if !ctx.modChannel {
        ignored := ignored + [ctx.message.id];
        var deleted := DeleteMessage(ctx.message, env);
        if deleted.Err? {
          return Err(deleted.error);
        }
      }
      r := Ok(());
    }

    /**
     * `_modlog_cleaned_messages`: with nothing deleted, the no-matches notice; otherwise the
     * deleted messages are uploaded newest first and the entry goes to the moderation log.
     */
    method ModlogCleanedMessages(deleted: seq<Message>, scope: Channels, ctx: Invocation, world: World, env: Env)
      returns (logged: Result<bool, Fault>, report: Option<ModlogEntry>)
      modifies this
      ensures report == ModlogReport(deleted, scope, ctx.author, world.logUrl(Reversed(deleted), ctx.author))
      ensures logged.Ok? ==> (logged.value <==> deleted != []) && awaits == old(awaits) + LogSteps(deleted)
      ensures logged.Err? <==> FailedIn(env, old(awaits), old(awaits) + LogSteps(deleted))
      ensures logged.Err? ==> logged.error == HttpException(awaits) && env.event == Some(Failure(awaits))
      ensures modlog == old(modlog) + (if logged.Ok? && report.Some? then [report.value] else [])
      ensures sent == old(sent) + (if logged.Ok? && report.None? then [ExpiringNotice(ctx, NoMatchesNotice)] else [])
      ensures cleaning == (old(cleaning) && !CancelledIn(env, old(awaits), awaits))
      ensures calls == old(calls) && ignored == old(ignored)
    {
      report := ModlogReport(deleted, scope, ctx.author, world.logUrl(Reversed(deleted), ctx.author));
      if deleted == [] {
        var notice := SendExpiring(ctx, NoMatchesNotice, env);
        if notice.Err? {
          return Err(notice.error), report;
        }
        return Ok(false), report;
      }
      // `upload_log`, then `send_log_message`
      var upload := Suspend(env);
      if upload.Err? {
        return Err(upload.error), report;
      }
      var post := Suspend(env);
      if post.Err? {
        return Err(post.error), report;
      }
      modlog := modlog + [report.value];
      logged := Ok(true);
    }

    /**
     * `_clean_messages`: validate; refuse while another session runs; otherwise set the flag and
     * run the session.
     */
    method CleanMessages(ctx: Invocation, traverse: nat, messageLimit: nat, channels: Option<Channels>,
                         botsOnly: bool, users: seq<UserId>, regex: Option<Pattern>,
                         first: Option<Limit>, second: Option<Limit>, useCache: bool,
                         world: World, search: Search, env: Env)
      returns (outcome: SessionOutcome)
      modifies this
      ensures var valid := ValidateInput(traverse, messageLimit, channels, botsOnly, users, first, second);
        valid.Err? ==>
          outcome == Rejected(valid.error) && Now() == old(Now()) &&
          sent == old(sent) && modlog == old(modlog) && ignored == old(ignored)
      ensures var valid := ValidateInput(traverse, messageLimit, channels, botsOnly, users, first, second);
        valid.Ok? && old(cleaning) ==>
          Now() == Awaited(old(Now()), env, []) && modlog == old(modlog) && ignored == old(ignored) &&
          (env.event == Some(Failure(awaits)) ==> outcome == Failed(HttpException(awaits)) && sent == old(sent)) &&
          (env.event != Some(Failure(awaits)) ==> outcome == Busy && sent == old(sent) + [ExpiringNotice(ctx, BusyNotice)])
      ensures var valid := ValidateInput(traverse, messageLimit, channels, botsOnly, users, first, second);
        valid.Ok? && !old(cleaning) ==> outcome.Failed? || outcome.Cancelled? || outcome.Finished?
      ensures outcome.Failed? ==> cleaning
      ensures outcome.Failed? && !old(cleaning) ==>
        sent == old(sent) && modlog == old(modlog) &&
        SessionInterrupted(ctx, traverse, channels, botsOnly, users, regex, first, second, useCache, world, search, env,
                           old(calls), old(ignored), calls, ignored)
      ensures outcome.Cancelled? ==>
        !cleaning && calls == old(calls) + InvocationCalls(ctx) && modlog == old(modlog) && sent == old(sent) &&
        ignored == old(ignored) + (if ctx.modChannel then [] else [ctx.message.id])
      ensures outcome.Finished? ==>
        !cleaning &&
        SessionRecord(ctx, traverse, channels, botsOnly, users, regex, first, second, useCache, world, search, env,
                      old(calls), old(sent), old(modlog), old(ignored), outcome, calls, sent, modlog, ignored)
      ensures var valid := ValidateInput(traverse, messageLimit, channels, botsOnly, users, first, second);
        env.event.None? && valid.Ok? && !old(cleaning) ==>
          outcome.Finished? && outcome.raised.None? && outcome.deleted == Outcome(Plan(outcome.mappings, env.nowMs), env.missing)
    {
      var valid := ValidateInput(traverse, messageLimit, channels, botsOnly, users, first, second);
      if valid.Err? {
        return Rejected(valid.error);
      }
      if cleaning {
        var notice := SendExpiring(ctx, BusyNotice, env);
        if notice.Err? {
          return Failed(notice.error);
        }
        return Busy;
      }
      cleaning := true;
      outcome := RunSession(ctx, traverse, channels, botsOnly, users, regex, first, second, useCache, world, search, env);
    }

    /**
     * The body of a session, once the flag is set: normalise scope and bounds, build the
     * predicate, delete the invocation, enumerate, and stop quietly when the flag was cleared
     * meanwhile; otherwise conclude.
     */
    method RunSession(ctx: Invocation, traverse: nat, channels: Option<Channels>,
                      botsOnly: bool, users: seq<UserId>, regex: Option<Pattern>,
                      first: Option<Limit>, second: Option<Limit>, useCache: bool,
                      world: World, search: Search, env: Env)
      returns (outcome: SessionOutcome)
      requires cleaning && (second.Some? ==> first.Some?)
      modifies this
      ensures outcome.Failed? || outcome.Cancelled? || outcome.Finished?
      ensures outcome.Failed? ==> cleaning
      ensures outcome.Failed? ==>
        sent == old(sent) && modlog == old(modlog) &&
        SessionInterrupted(ctx, traverse, channels, botsOnly, users, regex, first, second, useCache, world, search, env,
                           old(calls), old(ignored), calls, ignored)
      ensures outcome.Cancelled? ==>
        !cleaning && calls == old(calls) + InvocationCalls(ctx) && modlog == old(modlog) && sent == old(sent) &&
        ignored == old(ignored) + (if ctx.modChannel then [] else [ctx.message.id])
      ensures outcome.Finished? ==>
        !cleaning &&
        SessionRecord(ctx, traverse, channels, botsOnly, users, regex, first, second, useCache, world, search, env,
                      old(calls), old(sent), old(modlog), old(ignored), outcome, calls, sent, modlog, ignored)
      ensures env.event.None? ==>
        outcome.Finished? && outcome.raised.None? && outcome.deleted == Outcome(Plan(outcome.mappings, env.nowMs), env.missing)
    {
      var resolved := Normalise(channels, first, second, ctx.channel);
      var tests := BuildPredicate(botsOnly, users, regex, resolved.first, resolved.second);
      outcome := Proceed(ctx, resolved.channels, useCache, traverse, resolved.first, resolved.second, tests, search, world, env);
    }

    /**
     * A session with its scope, bounds and tests settled: delete the invocation, enumerate the
     * candidates, stop when the flag was cleared meanwhile, and otherwise conclude on the matches.
     */
    method Proceed(ctx: Invocation, scope: Channels, useCache: bool, traverse: nat, first: Option<Millis>, second: Option<Millis>,
                   tests: seq<Test>, search: Search, world: World, env: Env)
      returns (outcome: SessionOutcome)
      requires cleaning
      modifies this
      ensures outcome.Failed? || outcome.Cancelled? || outcome.Finished?
      ensures outcome.Failed? ==> cleaning
      ensures outcome.Failed? ==>
        var matches := Matching(Candidates(scope, useCache, traverse, first, second, world), tests, search);
        sent == old(sent) && modlog == old(modlog) &&
        Interrupted(Group(matches), Ids(matches), env, old(calls) + InvocationCalls(ctx),
                    old(ignored) + (if ctx.modChannel then [] else [ctx.message.id]), calls, ignored)
      ensures outcome.Cancelled? ==>
        !cleaning && calls == old(calls) + InvocationCalls(ctx) && modlog == old(modlog) && sent == old(sent) &&
        ignored == old(ignored) + (if ctx.modChannel then [] else [ctx.message.id])
      ensures outcome.Finished? ==>
        var matches := Matching(Candidates(scope, useCache, traverse, first, second, world), tests, search);
        !cleaning &&
        Concluded(ctx, scope, Group(matches), Ids(matches), world, env,
                  old(calls) + InvocationCalls(ctx), old(sent), old(modlog),
                  old(ignored) + (if ctx.modChannel then [] else [ctx.message.id]),
                  outcome, calls, sent, modlog, ignored)
      ensures env.event.None? ==>
        outcome.Finished? && outcome.raised.None? && outcome.deleted == Outcome(Plan(outcome.mappings, env.nowMs), env.missing)
    {
      var invocation := DeleteInvocation(ctx, env);
      if invocation.Err? {
        return Failed(invocation.error);
      }
      var found := Enumerate(scope, useCache, traverse, first, second, tests, search, world, env);
      if found.Err? {
        return Failed(found.error);
      }
      if !cleaning {
        return Cancelled;
      }
      outcome := Conclude(ctx, scope, found.value.0, found.value.1, world, env);
    }

    /**
     * The end of a session: tell the log to ignore the found ids, delete them, clear the flag,
     * log, and react in a moderation channel when something was logged. The deletion calls are
     * a prefix of the plan for what was found, and the log reports what those calls removed.
     */
    method Conclude(ctx: Invocation, scope: Channels, mappings: Mappings, ids: seq<MessageId>, world: World, env: Env)
      returns (outcome: SessionOutcome)
      requires cleaning
      modifies this
      ensures outcome.Failed? || outcome.Finished?
      ensures outcome.Failed? ==> cleaning
      ensures outcome.Failed? ==>
        sent == old(sent) && modlog == old(modlog) && Interrupted(mappings, ids, env, old(calls), old(ignored), calls, ignored)
      ensures outcome.Finished? ==>
        !cleaning &&
        Concluded(ctx, scope, mappings, ids, world, env, old(calls), old(sent), old(modlog), old(ignored),
                  outcome, calls, sent, modlog, ignored)
      ensures env.event.None? ==>
        outcome.Finished? && outcome.raised.None? && outcome.deleted == Outcome(Plan(mappings, env.nowMs), env.missing)
    {
      ignored := ignored + ids;
      ghost var s1 := Now();
      var deleted := DeleteFound(mappings, env);
      ghost var s2 := Now();
      ghost var P := Plan(mappings, env.nowMs);
      if deleted.Err? {
        RanCalls(P, env, s1, deleted, s2);
        return Failed(deleted.error);
      }
      RanPrefix(P, env, s1, deleted, s2);
      if env.event.None? {
        QuietRan(P, env, s1, deleted, s2);
      }
      cleaning := false;
      outcome := Close(ctx, scope, mappings, ids, deleted.value, world, env);
    }

    /**
     * The closing steps: log what was deleted, and add the check mark when that logged in a
     * moderation channel; the check mark's `NotFound` is suppressed, other errors raise.
     */
    method Close(ctx: Invocation, scope: Channels, mappings: Mappings, ids: seq<MessageId>, deleted: seq<Message>,
                 world: World, env: Env)
      returns (outcome: SessionOutcome)
      requires !cleaning
      modifies this
      ensures outcome.Finished? && outcome.mappings == mappings && outcome.ids == ids && outcome.deleted == deleted
      ensures Closed(ctx, scope, world, env, old(sent), old(modlog), outcome, sent, modlog)
      ensures env.event.None? ==> outcome.raised.None?
      ensures !cleaning && calls == old(calls) && ignored == old(ignored)
    {
      var logged, report := ModlogCleanedMessages(deleted, scope, ctx, world, env);
      if logged.Err? {
        return Finished(mappings, ids, deleted, report, false, false, Some(logged.error));
      }
      if !(logged.value && ctx.modChannel) {
        return Finished(mappings, ids, deleted, report, logged.value, false, None);
      }
      var reaction := Suspend(env);
      if reaction.Err? {
        return Finished(mappings, ids, deleted, report, true, false, Some(reaction.error));
      }
      outcome := Finished(mappings, ids, deleted, report, true, true, None);
    }

    // --------------------------------------------------------------------------
    // The commands
    // --------------------------------------------------------------------------

    /** `cog_command_error`: any error raised by a command of the cog clears the flag. */
    method CogCommandError()
      modifies this
      ensures !cleaning
      ensures awaits == old(awaits) && calls == old(calls)
      ensures sent == old(sent) && modlog == old(modlog) && ignored == old(ignored)
    {
      cleaning := false;
    }

    /**
     * `clean stop`: clears the flag if a session runs and says which was the case, then deletes
     * the invocation; afterwards no session is marked as running.
     */
    method CleanCancel(ctx: Invocation, checkMark: string, env: Env) returns (r: Result<(), Fault>)
      modifies this
      ensures !cleaning && modlog == old(modlog)
      ensures env.event == Some(Failure(old(awaits) + 1)) ==>
        r == Err(HttpException(old(awaits) + 1)) && sent == old(sent) && calls == old(calls) && ignored == old(ignored)
      ensures env.event != Some(Failure(old(awaits) + 1)) ==>
        sent == old(sent) + [ExpiringNotice(ctx, if old(cleaning) then checkMark + " Clean interrupted." else NotCleaningNotice)] &&
        calls == old(calls) + InvocationCalls(ctx) &&
        ignored == old(ignored) + (if ctx.modChannel then [] else [ctx.message.id])
    {
      var text;
      if !cleaning {
        text := NotCleaningNotice;
      } else {
        cleaning := false;
        text := checkMark + " Clean interrupted.";
      }
      r := SendExpiring(ctx, text, env);
      if r.Err? {
        CogCommandError();
        return;
      }
      r := DeleteInvocation(ctx, env);
      if r.Err? {
        CogCommandError();
      }
    }

    /**
     * `clean`: only the help text when nothing was asked for; otherwise a session with the
     * defaults filled in, and the error handler when the session raises.
     */
    method CleanGroup(ctx: Invocation, users: seq<UserId>, traverse: Option<nat>, first: Option<Limit>,
                      second: Option<Limit>, useCache: Option<bool>, botsOnly: bool, regex: Option<Pattern>,
                      channels: Option<Channels>, messageLimit: nat, world: World, search: Search, env: Env)
      returns (outcome: GroupOutcome)
      modifies this
      ensures var call := CleanGroupDefaults(traverse, users, first, second, useCache, regex, channels, messageLimit);
        outcome.HelpPosted? <==> call.None?
      ensures outcome.HelpPosted? ==>
        awaits == old(awaits) + 1 && calls == old(calls) &&
        sent == old(sent) && modlog == old(modlog) && ignored == old(ignored) &&
        (outcome.raised.Some? <==> env.event == Some(Failure(awaits))) &&
        (outcome.raised.Some? ==> outcome.raised.value == HttpException(awaits) && !cleaning) &&
        (outcome.raised.None? ==> Now() == Awaited(old(Now()), env, []))
      ensures outcome.SessionRan? && Raises(outcome.session) ==> !cleaning
      ensures outcome.SessionRan? && outcome.session.Busy? ==> old(cleaning) && Now() == Awaited(old(Now()), env, [])
      ensures old(cleaning) && env.event == Some(Failure(old(awaits) + 1)) ==> !cleaning
    {
      var call := CleanGroupDefaults(traverse, users, first, second, useCache, regex, channels, messageLimit);
      if call.None? {
        // `send_help`: one await, whose error reaches the error handler
        var help := Suspend(env);
        if help.Err? {
          CogCommandError();
          return HelpPosted(Some(help.error));
        }
        return HelpPosted(None);
      }
      var session := CleanMessages(ctx, call.value.traverse, messageLimit, channels, botsOnly, users, regex,
                                   first, second, call.value.useCache, world, search, env);
      if Raises(session) {
        CogCommandError();
      }
      outcome := SessionRan(session);
    }
}
}
