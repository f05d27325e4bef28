/** What a delivery makes of its execution (`src/runner.ts`, `src/registry.ts`): the record it leaves, the command its
    handler reads, and that a refused delivery changes nothing. */
module Executions {
  import opened Protocol
  import opened WaitIndex
  import opened WaitGate
  import opened Store
  import opened Builders
  import opened Dispatch
  import opened Worker
  import opened Runner
  import opened CallTree
  import opened Endings
  import opened Requests

  lemma {:induction false} MembersKeepRecords(db: Db, c: Context, op: Op, tasks: seq<GroupTask>, now: int, k: Key)
    requires op.DispatchGroup? && k in db.records && forall t :: t in tasks ==> (c.sessionId, t.messageId) != k
    ensures var db' := DispatchMembers(db, FanOutOf(c, op, now), tasks);
            k in db'.records && db'.records[k] == db.records[k]
  {
    hide DispatchMember, FanOutOf, IsNew, NamesItsDispatch, IsMemberAsk, GoesOut;
    if tasks != [] {
      var n := |tasks| - 1;
      assert tasks[n] in tasks && forall t :: t in tasks[..n] ==> t in tasks;
      MembersKeepRecords(db, c, op, tasks[..n], now, k);
      MemberIsRecorded(DispatchMembers(db, FanOutOf(c, op, now), tasks[..n]), c, op, tasks[n], now);
    }
  }

  lemma RequestKeepsRecords(db: Db, c: Context, op: Op, now: int, k: Key)
    requires FreshOp(db, c, op, now) && k in db.records
    ensures var db' := RunOp(db, c, op, now).0;
            k in db'.records && db'.records[k] == db.records[k]
  {
    hide IsNew, NamesItsDispatch, IsCall, DispatchMembers, AllStandIns;
    match op
    case CallAgent(_, _, _, _, _, _, _, _, _, _) =>
      CallIsRecorded(db, c, op, now);
      hide RunOp;
    case AskUser(_) =>
    case DispatchGroup(tasks, _, _, _, _) =>
      if tasks != [] {
        MembersKeepRecords(OpenGroup(db, FanOutOf(c, op, now), |tasks|), c, op, tasks, now, k);
      }
  }

  /** New ids leave every recorded execution alone. */
  lemma {:induction false} RequestsKeepRecords(db: Db, c: Context, ops: seq<Op>, now: int, k: Key)
    requires FreshOps(db, c, ops, now) && k in db.records
    ensures var db' := RunOps(db, c, ops, now).0;
            k in db'.records && db'.records[k] == db.records[k]
  {
    hide RunOp, FreshOp;
    if ops != [] {
      var n := |ops| - 1;
      RequestsKeepRecords(db, c, ops[..n], now, k);
      var (db1, c1) := RunOps(db, c, ops[..n], now);
      RequestKeepsRecords(db1, c1, ops[n], now, k);
    }
  }

  lemma HandlingKeepsRecords(db: Db, env: Env, command: Command, existing: Option<Record>, handler: Handler, k: Key)
    requires k in db.records
    requires FreshOps(JoinReply(db, command).0, ContextFor(env, RestoreInbound(command, existing)), handler.ops,
                      env.now)
    ensures var db' := HandleMessage(db, env, command, existing, handler).db;
            k in db'.records && db'.records[k] == db.records[k]
  {
    hide RunOps, FreshOps, RunHandler, CancelPath, ReplyHeader, RestoreInbound;
    if existing.Some? && existing.value.cancelRequested {
      CancelOnlySends(db, env, command, ReplyHeader(command, existing), None,
                      OrElse(existing.value.cancelReason, "task cancelled before processing"));
    } else {
      var joined := JoinReply(db, command).0;
      RunOnlySends(joined, env, command, existing, handler);
      RequestsKeepRecords(joined, ContextFor(env, RestoreInbound(command, existing)), handler.ops, env.now, k);
    }
  }

  /** The record of an execution nobody had recorded, once a worker has handled a message of it. */
  ghost predicate IsUnknownExecution(r: Record, command: Command, env: Env, status: string) {
    && r.executionId == (if command.header.traceId != "" then command.header.traceId else env.mintedId)
    && r.messageId == command.header.messageId && r.sessionId == command.header.sessionId
    && r.parentMessageId == command.header.parentMessageId && r.targetAgentType == command.header.targetAgentType
    && r.traceId == "" && r.sourceAgentType == "" && r.taskGroupId == "" && r.metadata == command.header.metadata
    && r.workerId == env.workerId && r.status == status && r.createdAt == env.now && !r.cancelRequested
  }

  /** A handled message leaves its execution recorded under the worker that handled it, with the status the handling
      ended in; an Ask also brings its metadata. No other recorded execution changes. */
  lemma HandledRecord(db: Db, env: Env, command: Command, handler: Handler)
    requires command.header.sessionId != "" && MintsNew(db, env, command, handler)
    requires Process(db, env, command, handler).1.Handled?
    ensures var (db', report) := Process(db, env, command, handler);
            var k := KeyOf(command);
            && k in db'.records
            && (forall other :: other in db.records && other != k ==>
                  other in db'.records && db'.records[other] == db.records[other])
            && (k !in db.records ==> IsUnknownExecution(db'.records[k], command, env, report.status))
            && (k in db.records ==>
                  db'.records[k] == db.records[k].(status := report.status, workerId := env.workerId,
                                                   metadata := if command.Ask? then command.header.metadata
                                                               else db.records[k].metadata))
  {
    hide HandleMessage, Gate, FreshOps, RestoreInbound, ContextFor, JoinReply, IsTerminal;
    var k := KeyOf(command);
    var full := WithHistory(command, env.history);
    var existing := Existing(db, command);
    var begun := Begin(Gated(db, command).0, env, full, existing);
    var o := HandleMessage(begun, env, full, existing, handler);
    forall other | other in begun.records ensures other in o.db.records && o.db.records[other] == begun.records[other] {
      HandlingKeepsRecords(begun, env, full, existing, handler, other);
    }
    assert Process(db, env, command, handler).0 == Finish(o.db, k, o.status);
  }

  /** Beside its message a reply stores at most its own single call's result. */
  ghost predicate OnlyAnswers(db: Db, o: Outcome, messageId: string) {
    && o.db == db.(ctrl := o.db.ctrl, results := o.db.results)
    && (if o.reply.Some?
        then o.db.ctrl == db.ctrl + [Posted(o.reply.value.header.targetAgentType, o.reply.value)] else o.db == db)
    && forall g :: g != SingleCallGroup(messageId) ==>
         (g in o.db.results <==> g in db.results) && (g in db.results ==> o.db.results[g] == db.results[g])
  }

  lemma RepliedOnlyAnswers(db: Db, env: Env, h: Header, status: string, entered: Option<Command>, result: TaskResult)
    ensures OnlyAnswers(db, Replied(db, env, h, status, entered, result), h.messageId)
  {
    hide SingleCallGroup;
  }

  lemma SilentOnlyAnswers(db: Db, status: string, entered: Option<Command>, messageId: string)
    ensures OnlyAnswers(db, Outcome(db, status, entered, None), messageId)
  {
  }

  lemma OwedUnderItsId(command: Command, r: Record)
    ensures ReplyHeader(command, Some(r)).Some? ==>
              ReplyHeader(command, Some(r)).value.messageId == command.header.messageId
  {
  }

  /** An execution that is being cancelled takes no part in its groups: the message that finds it cancelled is neither
      joined nor stored, and nothing but its own reply is sent or stored. */
  lemma CancelledJoinsNothing(db: Db, env: Env, command: Command, r: Record, handler: Handler)
    requires r.cancelRequested
    ensures OnlyAnswers(db, HandleMessage(db, env, command, Some(r), handler), command.header.messageId)
  {
    hide Replied, JoinReply, RunHandler, ReplyHeader, OnlyAnswers;
    OwedUnderItsId(command, r);
    SilentOnlyAnswers(db, CANCELLED, None, command.header.messageId);
    var owed := ReplyHeader(command, Some(r));
    if owed.Some? {
      RepliedOnlyAnswers(db, env, owed.value, CANCELLED, None,
                         FailureResult(CANCELLED, "reason", OrElse(r.cancelReason,
                                                                   "task cancelled before processing")));
    }
  }

  /** A denied copy and a replayed dispatch leave the whole store as it was. */
  lemma RefusedChangesNothing(db: Db, env: Env, command: Command, handler: Handler)
    ensures var (db', report) := Process(db, env, command, handler);
            report.Denied? || report.Replayed? ==> db' == db
  {
    hide HandleMessage, IsTerminal, Gate;
    if command.Resume? {
      GateCases(db.waits, command.header);
    }
  }

  /** Over every run: what a delivery that was handled leaves of its execution's record, and of everybody else's. */
  lemma DeliveriesRecord(trees: seq<Tree>, events: seq<Event>, i: nat, k: Key)
    requires Run(trees, events) && i < |events| && events[i].Deliver?
    requires k in trees[i].asks && Concerns(events[i].command, trees[i].asks[k])
    ensures k in trees[i].db.records
    ensures var Deliver(env, command, handler) := events[i];
            var (r, report) := (trees[i].db.records[k], Process(trees[i].db, env, command, handler).1);
            var db' := trees[i + 1].db;
            if report.Handled? then
              && k in db'.records
              && db'.records[k] == r.(status := report.status, workerId := env.workerId,
                                      metadata := if command.Ask? then trees[i].asks[k].metadata else r.metadata)
              && forall other :: other in trees[i].db.records && other != k ==>
                   other in db'.records && db'.records[other] == trees[i].db.records[other]
            else db' == trees[i].db
  {
    hide Faithful, Process, Remembers, MintsNew;
    RunsStayFaithful(trees, events, i);
    FaithAt(trees[i], k);
    var Deliver(env, command, handler) := events[i];
    ConcernsItsKey(trees[i].db, command, trees[i].asks[k], trees[i].db.records[k]);
    UnstartedBranchIsNeverTaken(trees, events, i);
    Endings.DeliveryKeepsAsks(trees, events, i, k);
    RefusedChangesNothing(trees[i].db, env, command, handler);
    assert Possible(trees[i], events[i]);
    if Process(trees[i].db, env, command, handler).1.Handled? {
      HandledRecord(trees[i].db, env, command, handler);
    }
  }

  /** The waking message's metadata, and of the execution's own whatever it does not replace but the keys of one hop. */
  ghost predicate IsMerged(merged: Meta, own: Meta, waking: Meta) {
    var perHop := {"trace_parent_span_id", "framework_parent_span_id", "langfuse_parent_observation_id"};
    forall key :: if key in waking then key in merged && merged[key] == waking[key]
                  else if key in own && key !in perHop then key in merged && merged[key] == own[key]
                  else key !in merged
  }

  lemma MergeIs(own: Meta, waking: Meta)
    ensures IsMerged(MergeResumeMetadata(own, waking), own, waking)
  {
  }

  /** The handler reads the message as it came, with the session's history in its payload and, when it resumes, with its
      own dispatch metadata, without the hop keys, under the message's. */
  lemma HandlersRead(db: Db, env: Env, command: Command, r: Record, handler: Handler)
    requires Existing(db, command) == Some(r)
    ensures var report := Process(db, env, command, handler).1;
            report.Handled? && report.entered.Some? ==>
              var read := report.entered.value;
              && read.content == command.content
              && read.extraPayload == command.extraPayload["history" := env.history]
              && (command.Ask? ==> read.Ask? && read.header == command.header &&
                                   read.waitForReply == command.waitForReply)
              && (command.Resume? ==>
                    && read.Resume? && read.status == command.status && read.replyData == command.replyData
                    && read.header.(metadata := command.header.metadata) == command.header
                    && IsMerged(read.header.metadata, r.metadata, command.header.metadata))
  {
    MergeIs(r.metadata, command.header.metadata);
    hide IsMerged, RunHandler, CancelPath, Gate, IsTerminal, JoinReply, MergeResumeMetadata, ReplyHeader;
    var full := WithHistory(command, env.history);
    var begun := BegunDb(db, env, command, r);
    ProcessCases(db, env, command, r, handler);
    EnteredUnlessStopped(begun, env, full, Some(r), handler);
    if !r.cancelRequested && JoinReply(begun, full).1.None? {
      NotStoppedRuns(begun, env, full, r, handler);
      EntersInbound(JoinReply(begun, full).0, env, full, Some(r), handler);
    }
  }

  /** The request at `n` is the last that waits, and for whom. */
  ghost predicate LastAwaited(ops: seq<Op>, n: nat) {
    n < |ops| && Awaits(ops[n]) && forall j :: n < j < |ops| ==> !Awaits(ops[j])
  }

  /** The status a run ends in: what its last waiting request waits for, if it returned without an end; else the status
      it returned; FAILED if it threw and CANCELLED if it was cancelled, whatever it had asked for. */
  lemma RunEndsIn(db: Db, env: Env, command: Command, r: Record, handler: Handler)
    ensures var status := RunHandler(db, env, command, Some(r), handler).status;
            match handler.end
            case Throws(_) => status == "FAILED"
            case Cancels(_) => status == "CANCELLED"
            case Returns(result) =>
              if result.status in {"COMPLETED", "FAILED", "CANCELLED"} || forall op :: op in handler.ops ==> !Awaits(op)
              then status == result.status
              else forall n: nat :: LastAwaited(handler.ops, n) ==>
                     status == if handler.ops[n].AskUser? then "WAITING_USER" else "WAITING_AGENT"
  {
    hide RunOps, RestoreInbound, RunHandler, Awaits;
    var inbound := RestoreInbound(command, Some(r));
    var c0 := ContextFor(env, inbound);
    RunStatus(db, env, command, r, handler);
    LastRequestDecides(db, c0, handler.ops, env.now);
    if handler.end.Returns? {
      SuspendsExactly(db, env, inbound, handler.ops, handler.end.result);
    }
  }
}
