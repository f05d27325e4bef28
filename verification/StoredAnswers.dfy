/** What becomes of a callee's stored answer (`src/worker.ts`, `src/liveness/wait_sweeper.ts`): over every run only the
    callee's own next return replaces it, so the sweep that looks for a lost reply finds the one that was sent. */
module StoredAnswers {
  import opened Protocol
  import opened WaitIndex
  import opened WaitGate
  import opened Store
  import opened Builders
  import opened Dispatch
  import opened Worker
  import opened Runner
  import opened Sweeper
  import opened CallTree
  import opened Recovery
  import Endings

  // ----- what handling a message stores -----

  lemma {:induction false} MembersKeepResults(db: Db, f: FanOut, tasks: seq<GroupTask>)
    ensures DispatchMembers(db, f, tasks).results == db.results
  {
    hide EncodeMember, Registered;
    if tasks != [] {
      MembersKeepResults(db, f, tasks[..|tasks| - 1]);
    }
  }

  lemma {:induction false} OpsKeepResults(db: Db, c: Context, ops: seq<Op>, now: int)
    ensures RunOps(db, c, ops, now).0.results == db.results
  {
    hide EncodeMember, Registered, DispatchMembers;
    if ops != [] {
      var n := |ops| - 1;
      OpsKeepResults(db, c, ops[..n], now);
      var (db1, c1) := RunOps(db, c, ops[..n], now);
      if ops[n].DispatchGroup? && ops[n].tasks != [] {
        var f := FanOutOf(c1, ops[n], now);
        MembersKeepResults(OpenGroup(db1, f, |ops[n].tasks|), f, ops[n].tasks);
      }
    }
  }

  lemma {:induction false} FlushKeepsResults(db: Db, replies: seq<Command>)
    ensures Flush(db, replies).results == db.results
  {
    if replies != [] {
      FlushKeepsResults(db, replies[..|replies| - 1]);
    }
  }

  /** The reply, if there is one, answers a call outside any group in the name of `child`. */
  predicate AnswersFor(reply: Option<Command>, command: Command, child: string) {
    && reply.Some? && reply.value.Resume? && reply.value.header.taskGroupId == ""
    && command.header.messageId == child && child != ""
  }

  /** What `child` has stored afterwards: its reply if there was one, and what was stored before if there was not. */
  ghost predicate StoresOnly(db: Db, db': Db, reply: Option<Command>, command: Command, child: string) {
    && (reply.Some? ==> reply.value.Resume? && ContentOf(reply.value.content) == reply.value.content)
    && Stored(db', child) == if AnswersFor(reply, command, child) then Some(ResultOf(reply.value))
        else Stored(db, child)
  }

  lemma SingleGroupsDiffer(a: string, b: string)
    requires SingleCallGroup(a) == SingleCallGroup(b)
    ensures a == b
  {
    assert a == SingleCallGroup(a)[|SINGLE_GROUP_PREFIX|..];
    assert b == SingleCallGroup(b)[|SINGLE_GROUP_PREFIX|..];
  }

  lemma RepliedStores(db: Db, env: Env, command: Command, h: Header, status: string, entered: Option<Command>,
                      result: TaskResult, child: string)
    requires h.messageId == command.header.messageId
    ensures var o := Replied(db, env, h, status, entered, result);
            StoresOnly(db, o.db, o.reply, command, child)
  {
    hide SingleCallGroup;
    if SingleCallGroup(h.messageId) == SingleCallGroup(child) {
      SingleGroupsDiffer(h.messageId, child);
    }
  }

  lemma CancelStores(db: Db, env: Env, command: Command, owed: Option<Header>, entered: Option<Command>, reason: string,
                     child: string)
    requires owed.Some? ==> owed.value.messageId == command.header.messageId
    ensures var o := CancelPath(db, env, command, owed, entered, reason);
            StoresOnly(db, o.db, o.reply, command, child)
  {
    hide Replied, StoresOnly;
    if owed.Some? {
      RepliedStores(db, env, command, owed.value, CANCELLED, entered, FailureResult(CANCELLED, "reason", reason),
                    child);
    }
    StoresNothing(db, db, command, child);
  }

  lemma StoresNothing(db: Db, db': Db, command: Command, child: string)
    requires db'.results == db.results
    ensures StoresOnly(db, db', None, command, child)
  {
  }

  /** Only what is stored matters. */
  lemma StoresAlike(a: Db, b: Db, db': Db, reply: Option<Command>, command: Command, child: string)
    requires StoresOnly(b, db', reply, command, child) && Stored(a, child) == Stored(b, child)
    ensures StoresOnly(a, db', reply, command, child)
  {
  }

  lemma SameResultsSameStored(a: Db, b: Db, child: string)
    requires a.results == b.results
    ensures Stored(a, child) == Stored(b, child)
  {
  }

  lemma OwedNamesTheExecution(command: Command, existing: Option<Record>)
    ensures var owed := ReplyHeader(command, existing);
            owed.Some? ==> owed.value.messageId == command.header.messageId
  {
  }

  lemma RunStores(db: Db, env: Env, command: Command, existing: Option<Record>, handler: Handler, child: string)
    ensures var o := RunHandler(db, env, command, existing, handler);
            StoresOnly(db, o.db, o.reply, command, child)
  {
    hide RunOps, Flush, ReplyHeader, RestoreInbound, Replied, CancelPath, StoresOnly, Stored, StaysSuspended;
    OwedNamesTheExecution(command, existing);
    var owed := ReplyHeader(command, existing);
    var inbound := RestoreInbound(command, existing);
    var c0 := ContextFor(env, inbound);
    var (db1, c) := RunOps(db, c0, handler.ops, env.now);
    var o := RunHandler(db, env, command, existing, handler);
    OpsKeepResults(db, c0, handler.ops, env.now);
    match handler.end
    case Returns(result) =>
      var db2 := Flush(db1, c.pending);
      FlushKeepsResults(db1, c.pending);
      var final := result.(status := FinalStatus(c, result));
      SameResultsSameStored(db, db2, child);
      if owed.Some? && !StaysSuspended(c, result) {
        RepliedStores(db2, env, command, owed.value, final.status, Some(inbound), final, child);
      } else {
        StoresNothing(db2, o.db, command, child);
      }
      StoresAlike(db, db2, o.db, o.reply, command, child);
    case Throws(error) =>
      SameResultsSameStored(db, db1, child);
      if owed.Some? {
        RepliedStores(db1, env, command, owed.value, FAILED, Some(inbound), FailureResult(FAILED, "error", error),
                      child);
      } else {
        StoresNothing(db1, o.db, command, child);
      }
      StoresAlike(db, db1, o.db, o.reply, command, child);
    case Cancels(reason) =>
      SameResultsSameStored(db, db1, child);
      CancelStores(db1, env, command, owed, Some(inbound), reason, child);
      StoresAlike(db, db1, o.db, o.reply, command, child);
  }

  lemma JoinStores(db: Db, command: Command, child: string)
    requires command.header.taskGroupId != SingleCallGroup(child)
    ensures Stored(JoinReply(db, command).0, child) == Stored(db, child)
  {
    hide SingleCallGroup;
  }

  lemma HandlingStores(db: Db, env: Env, command: Command, existing: Option<Record>, handler: Handler, child: string)
    requires command.header.taskGroupId != SingleCallGroup(child)
    ensures var o := HandleMessage(db, env, command, existing, handler);
            StoresOnly(db, o.db, o.reply, command, child)
  {
    hide RunHandler, CancelPath, ReplyHeader, JoinReply, StoresOnly, Stored, SingleCallGroup;
    OwedNamesTheExecution(command, existing);
    if existing.Some? && existing.value.cancelRequested {
      CancelStores(db, env, command, ReplyHeader(command, existing), None,
                   OrElse(existing.value.cancelReason, "task cancelled before processing"), child);
    } else {
      var (joined, stop) := JoinReply(db, command);
      JoinStores(db, command, child);
      var o := HandleMessage(db, env, command, existing, handler);
      if stop.None? {
        RunStores(joined, env, command, existing, handler, child);
      } else {
        StoresNothing(joined, o.db, command, child);
      }
      StoresAlike(db, joined, o.db, o.reply, command, child);
    }
  }

  function ReplyOf(report: Report): Option<Command> {
    if report.Handled? then report.reply else None
  }

  /** A delivery stores its execution's reply if it sends one, and touches no other single call's answer. Group ids are
      minted, so none is spelt like a single call's. */
  lemma DeliveryStores(db: Db, env: Env, command: Command, handler: Handler, child: string)
    requires command.header.taskGroupId != SingleCallGroup(child)
    ensures var (db', report) := Process(db, env, command, handler);
            StoresOnly(db, db', ReplyOf(report), command, child)
  {
    hide Gate, HandleMessage, IsTerminal, SingleCallGroup;
    var full := WithHistory(command, env.history);
    var existing := Existing(db, command);
    var begun := Begin(Gated(db, command).0, env, full, existing);
    HandlingStores(begun, env, full, existing, handler, child);
  }

  lemma {:induction false} SweepsKeepAnswers(db: Db, cfg: Config, clock: nat -> int, batch: seq<string>,
                                             scores: map<string, int>, child: string)
    requires forall m :: m in batch ==> m in scores
    ensures Stored(ResolveAll(db, cfg, clock, batch, scores), child) == Stored(db, child)
  {
    hide ResolveEntry;
    if batch != [] {
      var n := |batch| - 1;
      SweepsKeepAnswers(db, cfg, clock, batch[..n], scores, child);
      SweepFrame(ResolveAll(db, cfg, clock, batch[..n], scores), cfg, clock(n), batch[n], scores[batch[n]]);
    }
  }

  // ----- over every run -----

  /** Not a return of `child`, nor a reply under a group named like its own; and what is elsewhere, such as a sweep,
      leaves its answer alone. */
  ghost predicate Spares(t: Tree, e: Event, child: string) {
    match e
    case Deliver(env, command, handler) =>
      && command.header.taskGroupId != SingleCallGroup(child)
      && !AnswersFor(ReplyOf(Process(t.db, env, command, handler).1), command, child)
    case Elsewhere(db) => Stored(db, child) == Stored(t.db, child)
    case _ => true
  }

  lemma StepSpares(t: Tree, e: Event, child: string)
    requires Spares(t, e, child)
    ensures Stored(After(t, e).db, child) == Stored(t.db, child)
  {
    hide Process, SingleCallGroup;
    if e.Deliver? {
      DeliveryStores(t.db, e.env, e.command, e.handler, child);
    }
  }

  /** In every run a callee's stored answer stands until the callee returns again. */
  lemma {:induction false} AnswerStands(trees: seq<Tree>, events: seq<Event>, i: nat, j: nat, child: string)
    requires Run(trees, events) && i <= j <= |events|
    requires forall l :: i <= l < j ==> Spares(trees[l], events[l], child)
    ensures Stored(trees[j].db, child) == Stored(trees[i].db, child)
  {
    hide Faithful, Possible, After, Stored, Spares;
    if i < j {
      AnswerStands(trees, events, i, j - 1, child);
      StepSpares(trees[j - 1], events[j - 1], child);
    }
  }

  /** In every run, whichever delivery sent it and whatever happened since, a reply to a single call that got lost is
      rebuilt by the sweep that finds its sender finished and its caller still suspended, unless that sender has
      returned again. */
  lemma EveryLostReplyIsRebuilt(trees: seq<Tree>, events: seq<Event>, i: nat, j: nat, k: Key, cfg: Config, now: int,
                                score: int)
    requires Run(trees, events) && i < j <= |events| && events[i].Deliver?
    requires k in trees[i].asks && Concerns(events[i].command, trees[i].asks[k])
    requires var h := trees[i].asks[k];
             h.taskGroupId == "" && h.messageId != "" && h.parentMessageId != "" &&
                 events[i].command.header.taskGroupId != SingleCallGroup(h.messageId)
    requires var report := Process(trees[i].db, events[i].env, events[i].command, events[i].handler).1;
             ReplyOf(report).Some? && report.reply.value.Resume? &&
                 FinishedUnheard(trees[j].db, trees[i].asks[k], report.reply.value.status)
    requires forall l :: i < l < j ==> Spares(trees[l], events[l], trees[i].asks[k].messageId)
    ensures var (h, lost) := (trees[i].asks[k],
                              Process(trees[i].db, events[i].env, events[i].command, events[i].handler).1.reply.value);
            var v := Decide(trees[j].db, cfg, now, EncodeMember(WaitFor(h)), score);
            v.Send? && v.outcome == Recovered && SameAnswer(v.reply, lost)
  {
    hide Faithful, Possible, Process, Stored, Spares, Decide, EncodeMember, SingleCallGroup, FinishedUnheard,
         SameAnswer,
         PostedLast, BegunDb, RunOps, JoinReply;
    var Deliver(env, command, handler) := events[i];
    var h := trees[i].asks[k];
    var lost := Process(trees[i].db, env, command, handler).1.reply.value;
    EveryRunAnswersItsDispatcher(trees, events, i, k);
    RunsStayFaithful(trees, events, i);
    FaithAt(trees[i], k);
    ReplyClearsTheRegisteredWait(lost, h, env);
    DeliveryStores(trees[i].db, env, command, handler, h.messageId);
    Endings.DeliveryKeepsAsks(trees, events, i, k);
    AnswerStands(trees, events, i + 1, j, h.messageId);
    hide Run;
    LostReplyIsRebuilt(lost, h, trees[j].db, cfg, now, score);
  }
}
