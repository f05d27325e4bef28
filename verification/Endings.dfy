/** How the executions of a call tree end (`src/worker.ts`, `src/runner.ts`, `src/client.ts`): which of them end with
    nobody told, and what a cancellation does to the others. */
module Endings {
  import opened Protocol
  import opened WaitIndex
  import opened WaitGate
  import opened Store
  import opened Builders
  import opened Dispatch
  import opened Worker
  import opened Runner
  import opened CallTree

  lemma {:induction false} SuspendedStates(db: Db, c: Context, ops: seq<Op>, now: int)
    requires c.suspendedState == ""
    ensures RunOps(db, c, ops, now).1.suspendedState in {"", WAITING_AGENT, WAITING_USER}
  {
    hide RunOp;
    if ops != [] {
      var n := |ops| - 1;
      SuspendedStates(db, c, ops[..n], now);
      var (db1, c1) := RunOps(db, c, ops[..n], now);
      OpSuspends(db1, c1, ops[n], now);
    }
  }

  lemma OpSuspends(db: Db, c: Context, op: Op, now: int)
    ensures RunOp(db, c, op, now).1.suspendedState in {c.suspendedState, WAITING_AGENT, WAITING_USER}
  {
    hide Publish, DispatchMembers, AllStandIns, RegisterIn;
  }

  /** The execution is over and sent no reply: it was finalized unstarted, or handled to a status that does not wait. */
  predicate EndsSilently(report: Report) {
    || report.CancelledUnstarted?
    || (report.Handled? && report.reply.None? && !IsSuspended(BaseStatus(report.status)))
  }

  /** The gate lets the message through and it is no replay of a finished dispatch. */
  predicate Admits(db: Db, command: Command, r: Record) {
    Allows(Gated(db, command).1) && !(IsTerminal(r.status) && command.Ask?)
  }

  /** A handled message ends its execution silently: `db` is the store in which it has begun to run. */
  ghost predicate EndsUnheard(db: Db, env: Env, command: Command, r: Record, h: Header, handler: Handler) {
    if r.cancelRequested then CallerCancelled(db, h)
    else if command.Resume? && command.header.taskGroupId != "" && DeadGroup(db, command.header.taskGroupId) then true
    else
      var (joined, stop) := JoinReply(db, command);
      && stop.None? && handler.end.Cancels?
      && CallerCancelled(RunOps(joined, ContextFor(env, RestoreInbound(command, Some(r))), handler.ops, env.now).0, h)
  }

  lemma HandledSilently(db: Db, env: Env, command: Command, r: Record, h: Header, started: bool, handler: Handler)
    requires Concerns(command, h) && Remembers(r, h, started) && h.sourceAgentType != CLIENT && h.sourceAgentType != ""
    ensures var o := HandleMessage(db, env, command, Some(r), handler);
            && (o.reply.None? && !IsSuspended(BaseStatus(o.status)) <==> EndsUnheard(db, env, command, r, h, handler))
            && (EndsUnheard(db, env, command, r, h, handler) ==> o.status in {FAILED, CANCELLED, GROUP_ABORTED})
  {
    WaitingIsSuspended();
    WaitingAgentBase();
    WaitingUserBase();
    GroupWaitBase();
    GroupAbortBase();
    FinishedBases();
    hide BaseStatus, IsSuspended, IsTerminal, Remembers, JoinReply, RunHandler, HandleMessage, CancelPath,
         CallerCancelled, RunOps;
    hide RestoreInbound;
    var o := HandleMessage(db, env, command, Some(r), handler);
    var (joined, stop) := JoinReply(db, command);
    HandlingAnswers(db, env, command, r, h, started, handler);
    JoinStops(db, command);
    EnteredUnlessStopped(db, env, command, Some(r), handler);
    if r.cancelRequested {
      CancelledStatus(db, env, command, r, handler);
    } else if stop.None? {
      RunStatus(joined, env, command, r, handler);
      var c0 := ContextFor(env, RestoreInbound(command, Some(r)));
      SuspendedStates(joined, c0, handler.ops, env.now);
      NotStoppedRuns(db, env, command, r, handler);
    }
  }

  lemma NotStoppedRuns(db: Db, env: Env, command: Command, r: Record, handler: Handler)
    requires !r.cancelRequested && JoinReply(db, command).1.None?
    ensures HandleMessage(db, env, command, Some(r), handler) == RunHandler(JoinReply(db, command).0, env, command,
            Some(r), handler)
  {
    hide RunHandler, JoinReply;
  }

  lemma CancelledStatus(db: Db, env: Env, command: Command, r: Record, handler: Handler)
    requires r.cancelRequested
    ensures HandleMessage(db, env, command, Some(r), handler).status == CANCELLED
  {
    hide RunHandler, JoinReply, ReplyHeader, AgentReturn;
  }

  /** The status a handler's run ends with. */
  lemma RunStatus(db: Db, env: Env, command: Command, r: Record, handler: Handler)
    ensures var c := RunOps(db, ContextFor(env, RestoreInbound(command, Some(r))), handler.ops, env.now).1;
            RunHandler(db, env, command, Some(r), handler).status ==
            match handler.end
            case Returns(result) => if StaysSuspended(c, result) then c.suspendedState else result.status
            case Throws(_) => FAILED
            case Cancels(_) => CANCELLED
  {
    hide RunOps, RestoreInbound, ReplyHeader, AgentReturn, Flush, IsTerminal;
  }

  /** What becomes of a message, case by case. */
  lemma ProcessCases(db: Db, env: Env, command: Command, r: Record, handler: Handler)
    requires Existing(db, command) == Some(r)
    ensures var (db', report) := Process(db, env, command, handler);
            var o := HandleMessage(BegunDb(db, env, command, r), env, WithHistory(command, env.history), Some(r),
                                   handler);
            if !Admits(db, command, r) then report.Denied? || report.Replayed?
            else if Unstarted(r) then report.CancelledUnstarted?
            else report == Handled(o.status, o.entered, o.reply) && db' == Finish(o.db, KeyOf(command), o.status)
  {
    StatusesDiffer();
    hide Gate, HandleMessage, IsTerminal;
  }

  // ----- no cancellation leaves an execution looking unstarted -----

  /** Every cancelled record of the later store was there before, as it is. */
  ghost predicate NoNewCancel(a: Db, b: Db) {
    forall k :: k in b.records && b.records[k].cancelRequested ==> k in a.records && a.records[k] == b.records[k]
  }

  lemma MemberAddsNoCancel(db: Db, f: FanOut, t: GroupTask)
    ensures NoNewCancel(db, DispatchMember(db, f, t))
  {
    hide EncodeMember, Registered;
  }

  lemma {:induction false} MembersAddNoCancel(db: Db, f: FanOut, tasks: seq<GroupTask>)
    ensures NoNewCancel(db, DispatchMembers(db, f, tasks))
  {
    hide DispatchMember;
    if tasks != [] {
      var n := |tasks| - 1;
      MembersAddNoCancel(db, f, tasks[..n]);
      MemberAddsNoCancel(DispatchMembers(db, f, tasks[..n]), f, tasks[n]);
    }
  }

  lemma OpAddsNoCancel(db: Db, c: Context, op: Op, now: int)
    ensures NoNewCancel(db, RunOp(db, c, op, now).0)
  {
    hide EncodeMember, Registered, DispatchMembers;
    if op.DispatchGroup? && op.tasks != [] {
      var f := FanOutOf(c, op, now);
      MembersAddNoCancel(OpenGroup(db, f, |op.tasks|), f, op.tasks);
    }
  }

  lemma {:induction false} OpsAddNoCancel(db: Db, c: Context, ops: seq<Op>, now: int)
    ensures NoNewCancel(db, RunOps(db, c, ops, now).0)
  {
    hide RunOp;
    if ops != [] {
      var n := |ops| - 1;
      OpsAddNoCancel(db, c, ops[..n], now);
      var (db1, c1) := RunOps(db, c, ops[..n], now);
      OpAddsNoCancel(db1, c1, ops[n], now);
    }
  }

  /** Handling a message cancels no execution. */
  lemma HandlingAddsNoCancel(db: Db, env: Env, command: Command, existing: Option<Record>, handler: Handler)
    ensures var o := HandleMessage(db, env, command, existing, handler);
            && NoNewCancel(db, o.db)
            && (existing.Some? && existing.value.cancelRequested ==>
                o.db.records == db.records && o.status == CANCELLED)
  {
    hide RunHandler, CancelPath, ReplyHeader, RestoreInbound, RunOps;
    var (joined, stop) := JoinReply(db, command);
    if existing.Some? && existing.value.cancelRequested {
      CancelOnlySends(db, env, command, ReplyHeader(command, existing), None,
                      OrElse(existing.value.cancelReason, "task cancelled before processing"));
    } else if stop.None? {
      RunOnlySends(joined, env, command, existing, handler);
      OpsAddNoCancel(joined, ContextFor(env, RestoreInbound(command, existing)), handler.ops, env.now);
    }
  }

  lemma DeliveryLeavesNoneUnstarted(db: Db, env: Env, command: Command, handler: Handler)
    requires NoneUnstarted(db)
    ensures NoneUnstarted(Process(db, env, command, handler).0)
    ensures !Process(db, env, command, handler).1.CancelledUnstarted?
  {
    StatusesDiffer();
    hide Gate, HandleMessage, IsTerminal;
    var full := WithHistory(command, env.history);
    var existing := Existing(db, command);
    var begun := Begin(Gated(db, command).0, env, full, existing);
    HandlingAddsNoCancel(begun, env, full, existing, handler);
  }

  lemma MarksAreStarted(r: Record, byWorker: bool, reason: string)
    ensures !Unstarted(MarkedBy(r, byWorker, reason))
  {
    StatusesDiffer();
  }

  /** In every run no execution is both cancelled and still recorded as waiting for a worker: whoever cancels one that
      is not finished writes CANCELLING. */
  lemma {:induction false} NoneCancelledUnstarted(trees: seq<Tree>, events: seq<Event>, i: nat)
    requires Run(trees, events) && i <= |events|
    ensures NoneUnstarted(trees[i].db)
  {
    hide Faithful, Possible, Process;
    if i > 0 {
      NoneCancelledUnstarted(trees, events, i - 1);
      match events[i - 1]
      case ClientSend(_, _, _, _, _) =>
      case Deliver(env, command, handler) => DeliveryLeavesNoneUnstarted(trees[i - 1].db, env, command, handler);
      case RequestCancel(k, byWorker, reason) =>
        if k in trees[i - 1].db.records {
          MarksAreStarted(trees[i - 1].db.records[k], byWorker, reason);
        }
      case Elsewhere(db) =>
        assert Possible(trees[i - 1], events[i - 1]);
        ElsewhereKeepsRecords(trees[i - 1], db);
    }
  }

  lemma ElsewhereKeepsRecords(t: Tree, db: Db)
    requires Possible(t, Elsewhere(db))
    ensures db.records == t.db.records
  {
  }

  /** So the branch that finalizes an unstarted cancelled execution is never taken. */
  lemma UnstartedBranchIsNeverTaken(trees: seq<Tree>, events: seq<Event>, i: nat)
    requires Run(trees, events) && i < |events| && events[i].Deliver?
    ensures !Process(trees[i].db, events[i].env, events[i].command, events[i].handler).1.CancelledUnstarted?
  {
    hide Run, Process;
    NoneCancelledUnstarted(trees, events, i);
    RunLength(trees, events);
    DeliveryLeavesNoneUnstarted(trees[i].db, events[i].env, events[i].command, events[i].handler);
  }

  lemma RunLength(trees: seq<Tree>, events: seq<Event>)
    requires Run(trees, events)
    ensures |trees| == |events| + 1
  {
  }

  // ----- the silent endings -----

  /** In every run, an execution whose dispatcher awaits a reply ends without sending one in exactly these cases: it is
      cancelled together with its caller, before or during its run; or a reply to it names a Task Group whose tracker is
      gone or aborted. Its record then says that it is over. */
  lemma SilentEndingsExactly(trees: seq<Tree>, events: seq<Event>, i: nat, k: Key)
    requires Run(trees, events) && i < |events| && events[i].Deliver?
    requires k in trees[i].asks && Concerns(events[i].command, trees[i].asks[k]) &&
             trees[i].asks[k].sourceAgentType != ""
    ensures k in trees[i].db.records && k in trees[i + 1].db.records
    ensures var Deliver(env, command, handler) := events[i];
            var (db, h, r) := (trees[i].db, trees[i].asks[k], trees[i].db.records[k]);
            var report := Process(db, env, command, handler).1;
            && (EndsSilently(report) <==>
                && Admits(db, command, r)
                && EndsUnheard(BegunDb(db, env, command, r), env, WithHistory(command, env.history), r, h, handler))
            && (EndsSilently(report) ==> IsTerminal(BaseStatus(trees[i + 1].db.records[k].status)))
  {
    FinishedBases();
    GroupAbortBase();
    WaitingIsSuspended();
    hide Faithful, HandleMessage, Remembers, Process, BegunDb, BaseStatus, IsSuspended, EndsUnheard, Admits, AskedBy,
         Concerns;
    RunsStayFaithful(trees, events, i);
    RunsStayFaithful(trees, events, i + 1);
    NoneCancelledUnstarted(trees, events, i);
    FaithAt(trees[i], k);
    DeliveryKeepsAsks(trees, events, i, k);
    FaithAt(trees[i + 1], k);
    var Deliver(env, command, handler) := events[i];
    var (db, h, r) := (trees[i].db, trees[i].asks[k], trees[i].db.records[k]);
    ConcernsItsKey(db, command, h, r);
    ProcessCases(db, env, command, r, handler);
    HistoryConcerns(command, env, h);
    HandledSilently(BegunDb(db, env, command, r), env, WithHistory(command, env.history), r, h, k in trees[i].started,
                    handler);
  }

  /** In every run, an execution whose cancellation was asked for answers the next message it is woken or dispatched by:
      it ends CANCELLED without entering its handler and tells its caller so, unless the caller is being cancelled too.
      */
  lemma CancelledExecutionAnswers(trees: seq<Tree>, events: seq<Event>, i: nat, k: Key)
    requires Run(trees, events) && i < |events| && events[i].Deliver?
    requires k in trees[i].asks && Concerns(events[i].command, trees[i].asks[k]) &&
             trees[i].asks[k].sourceAgentType != ""
    requires k in trees[i].db.records && trees[i].db.records[k].cancelRequested
    requires Admits(trees[i].db, events[i].command, trees[i].db.records[k])
    ensures var Deliver(env, command, handler) := events[i];
            var (db, h, r) := (trees[i].db, trees[i].asks[k], trees[i].db.records[k]);
            var report := Process(db, env, command, handler).1;
            && report.Handled? && report.status == CANCELLED && report.entered.None?
            && (report.reply.Some? <==> !CallerCancelled(BegunDb(db, env, command, r), h))
            && (report.reply.Some? ==>
                  RepliesTo(report.reply.value, h, env) && report.reply.value.Resume? &&
                      report.reply.value.status == CANCELLED)
  {
    hide Faithful, HandleMessage, Remembers, Process, BegunDb, Admits, Concerns, CallerCancelled, RepliesTo, RunOps;
    RunsStayFaithful(trees, events, i);
    NoneCancelledUnstarted(trees, events, i);
    FaithAt(trees[i], k);
    var Deliver(env, command, handler) := events[i];
    var (db, h, r) := (trees[i].db, trees[i].asks[k], trees[i].db.records[k]);
    ConcernsItsKey(db, command, h, r);
    ProcessCases(db, env, command, r, handler);
    HistoryConcerns(command, env, h);
    var full := WithHistory(command, env.history);
    CancelledHandling(BegunDb(db, env, command, r), env, full, r, h, k in trees[i].started, handler);
  }

  lemma CancelledHandling(db: Db, env: Env, command: Command, r: Record, h: Header, started: bool, handler: Handler)
    requires Concerns(command, h) && Remembers(r, h, started) && h.sourceAgentType != CLIENT && h.sourceAgentType != ""
    requires r.cancelRequested
    ensures var o := HandleMessage(db, env, command, Some(r), handler);
            && o.status == CANCELLED && o.entered.None? && (o.reply.Some? <==> !CallerCancelled(db, h))
            && (o.reply.Some? ==>
                  RepliesTo(o.reply.value, h, env) && o.reply.value.Resume? && o.reply.value.status == CANCELLED)
  {
    hide RunHandler, JoinReply, Remembers, RepliesTo, CallerCancelled, CancelPath, ReplyHeader;
    var reason := OrElse(r.cancelReason, "task cancelled before processing");
    CancelAnswers(db, env, command, r, h, started, None, reason);
    CancelReplyStatus(db, env, command, ReplyHeader(command, Some(r)), None, reason);
  }

  lemma CancelReplyStatus(db: Db, env: Env, command: Command, owed: Option<Header>, entered: Option<Command>,
                          reason: string)
    ensures var o := CancelPath(db, env, command, owed, entered, reason);
            o.status == CANCELLED && (o.reply.Some? ==> o.reply.value.Resume? && o.reply.value.status == CANCELLED)
  {
  }

  /** In particular one cancelled while it was queued. */
  lemma CancelledWhileQueuedAnswers(trees: seq<Tree>, events: seq<Event>, i: nat, k: Key)
    requires Run(trees, events) && i + 1 < |events|
    requires k in trees[i].db.records && trees[i].db.records[k].status == QUEUED
    requires events[i].RequestCancel? && events[i].key == k
    requires events[i + 1].Deliver? && events[i + 1].command.Ask? && k in trees[i].asks &&
             events[i + 1].command.header == trees[i].asks[k] && trees[i].asks[k].sourceAgentType != ""
    ensures var Deliver(env, command, handler) := events[i + 1];
            var (db, h) := (trees[i + 1].db, trees[i].asks[k]);
            var report := Process(db, env, command, handler).1;
            && k in db.records && db.records[k].status == CANCELLING
            && report.Handled? && report.status == CANCELLED
            && (report.reply.Some? <==> !CallerCancelled(BegunDb(db, env, command, db.records[k]), h))
  {
    StatusesDiffer();
    hide Faithful, Process, BegunDb, CallerCancelled, RepliesTo;
    assert trees[i + 1] == After(trees[i], events[i]);
    CancelledExecutionAnswers(trees, events, i + 1, k);
  }

  lemma HistoryConcerns(command: Command, env: Env, h: Header)
    requires Concerns(command, h)
    ensures Concerns(WithHistory(command, env.history), h)
  {
  }

  lemma ConcernsItsKey(db: Db, command: Command, h: Header, r: Record)
    requires Concerns(command, h) && h.sessionId != "" && AskKey(h) in db.records && db.records[AskKey(h)] == r
    ensures KeyOf(command) == AskKey(h) && Existing(db, command) == Some(r)
  {
  }

  /** A delivery forgets no dispatch. */
  lemma DeliveryKeepsAsks(trees: seq<Tree>, events: seq<Event>, i: nat, k: Key)
    requires Run(trees, events) && i < |events| && events[i].Deliver? && k in trees[i].asks
    ensures k in trees[i + 1].asks
    ensures trees[i + 1].db == Process(trees[i].db, events[i].env, events[i].command, events[i].handler).0
  {
    hide Faithful, Process, Possible, RunOps;
    var Deliver(env, command, handler) := events[i];
    var report := Process(trees[i].db, env, command, handler).1;
    if report.Handled? && report.entered.Some? {
      AskedByGrows(trees[i].asks, ContextFor(env, report.entered.value), handler.ops, env.now);
    }
  }

  lemma {:induction false} AskedByGrows(asks: map<Key, Header>, c: Context, ops: seq<Op>, now: int)
    ensures asks.Keys <= AskedBy(asks, c, ops, now).Keys
  {
    hide Asked;
    if ops != [] {
      var n := |ops| - 1;
      AskedByGrows(asks, c, ops[..n], now);
      PutGrows(AskedBy(asks, c, ops[..n], now), Asked(c, ops[n], now));
    }
  }

  lemma {:induction false} PutGrows(asks: map<Key, Header>, headers: seq<Header>)
    ensures asks.Keys <= Put(asks, headers).Keys
  {
    if headers != [] {
      PutGrows(asks, headers[..|headers| - 1]);
    }
  }
}
