/** What a handler's requests leave behind (`src/context.ts`, `src/dispatch/`): the messages that go out, the records
    and waits they come with, and whether they suspend the execution. */
module Requests {
  import opened Protocol
  import opened WaitIndex
  import opened WaitGate
  import opened Store
  import opened Builders
  import opened Dispatch
  import opened Worker
  import opened CallTree

  // ----- one call -----

  /** The message of a call: what was asked for, under the ids and in the name of the execution that asked. A
      transferred call names nobody to answer to. */
  ghost predicate IsCall(command: Command, c: Context, op: Op, selected: string)
    requires op.CallAgent?
  {
    && command.Ask? && command.content == op.content && command.waitForReply == op.waitForReply
    && command.extraPayload == op.extraPayload - {"wait_for_reply"}
    && command.header.messageId == op.messageId && command.header.sessionId == c.sessionId
    && command.header.traceId == c.traceId && command.header.metadata == op.metadata
    && command.header.sourceAgentType == (if op.waitForReply then c.agentType else "")
    && command.header.targetAgentType == (if selected != "" then selected else op.targetAgentType)
    && command.header.parentMessageId == (if op.parentMessageId != "" then op.parentMessageId else c.messageId)
    && command.header.taskGroupId == (if c.original.Some? then c.original.value.taskGroupId else "")
    && command.header.userCode == (if c.original.Some? then c.original.value.userCode else "")
    && command.header.userName == (if c.original.Some? then c.original.value.userName else "")
  }

  lemma BuiltIsCall(c: Context, op: Op)
    requires op.CallAgent?
    ensures IsCall(BuildAsk(InputOf(c, op)), c, op, "")
    ensures !op.availability.Reject? ==> IsCall(SentAsk(InputOf(c, op), op.availability), c, op,
                                                op.availability.selected)
  {
  }

  /** Exactly one message was added to the streams. */
  ghost predicate OneMore(before: seq<Posted>, after: seq<Posted>, stream: string) {
    |after| == |before| + 1 && before <= after && after[|before|].stream == stream
  }

  /** A call that can be delivered goes out once, on the router's stream or else on that of the type it asked for; one
      that is queued or rejected does not go out. */
  lemma CallIsSent(db: Db, c: Context, op: Op, now: int)
    requires op.CallAgent?
    ensures var (db', c') := RunOp(db, c, op, now);
            match op.availability
            case DeliverNow(selected, stream) =>
              && OneMore(db.ctrl, db'.ctrl, if stream != "" then stream else op.targetAgentType)
              && IsCall(db'.ctrl[|db.ctrl|].command, c, op, selected)
            case QueuePending(_, _) => db'.ctrl == db.ctrl
            case Reject => db'.ctrl == db.ctrl
  {
    hide Registered, IsCall, SentAsk, BuildAsk, RecordFor;
    BuiltIsCall(c, op);
  }

  /** The record of a new execution: nobody runs it yet. */
  ghost predicate IsNew(r: Record, messageId: string, sessionId: string, executionId: string, status: string,
                        now: int) {
    && r.messageId == messageId && r.sessionId == sessionId && r.executionId == executionId
    && r.status == status && r.createdAt == now && r.workerId == "" && !r.cancelRequested && r.cancelReason == ""
  }

  /** A call is recorded as queued under its own id, or as failed if it was rejected, and no other record changes. */
  lemma CallIsRecorded(db: Db, c: Context, op: Op, now: int)
    requires op.CallAgent?
    ensures var db' := RunOp(db, c, op, now).0;
            var k := (c.sessionId, op.messageId);
            var selected := if op.availability.Reject? then "" else op.availability.selected;
            && db'.records.Keys == db.records.Keys + {k}
            && (forall other :: other in db.records && other != k ==> db'.records[other] == db.records[other])
            && IsNew(db'.records[k], op.messageId, c.sessionId, op.executionId,
                     if op.availability.Reject? then "FAILED" else "QUEUED", now)
            && exists command :: IsCall(command, c, op, selected) && NamesItsDispatch(db'.records[k], command.header)
  {
    hide Registered, IsCall, SentAsk, BuildAsk, InputOf, RecordFor, IsNew, NamesItsDispatch;
    BuiltIsCall(c, op);
    var input := InputOf(c, op);
    var sent := if op.availability.Reject? then BuildAsk(input) else SentAsk(input, op.availability);
    CallIds(c, op, sent, if op.availability.Reject? then "" else op.availability.selected);
    RecordIs(sent.header, if op.availability.Reject? then FAILED else QUEUED, op.executionId, now);
  }

  lemma CallIds(c: Context, op: Op, command: Command, selected: string)
    requires op.CallAgent? && IsCall(command, c, op, selected)
    ensures command.header.sessionId == c.sessionId && command.header.messageId == op.messageId
  {
  }

  lemma RecordIs(h: Header, status: string, executionId: string, now: int)
    ensures var r := RecordFor(h, h.sourceAgentType, status, executionId, now);
            && r.sessionId == h.sessionId && r.messageId == h.messageId
            && IsNew(r, h.messageId, h.sessionId, executionId, status, now) && NamesItsDispatch(r, h)
  {
  }

  ghost predicate NamesItsDispatch(r: Record, h: Header) {
    && r.parentMessageId == h.parentMessageId && r.traceId == h.traceId && r.taskGroupId == h.taskGroupId
    && r.sourceAgentType == h.sourceAgentType && r.targetAgentType == h.targetAgentType && r.metadata == h.metadata
  }

  /** One wait was registered, due when its timeout has passed, and the marker of an earlier round was forgotten. */
  ghost predicate OneMoreWait(before: Waits, after: Waits, m: Member, timeoutMs: int, now: int) {
    var key := EncodeMember(m);
    && after.index.Keys == before.index.Keys + {key} && after.index - {key} == before.index - {key}
    && after.index[key] == (if timeoutMs > 0 then now + timeoutMs else now)
    && after.markers == before.markers - {key}
  }

  lemma RegistrationIs(w: Waits, m: Member, timeoutMs: int, now: int)
    ensures OneMoreWait(w, Registered(w, m, timeoutMs, now), m, timeoutMs, now)
  {
    hide EncodeMember;
  }

  /** A call suspends its execution and registers its wait exactly if it waits for its reply and was not rejected; one
      that does not wait passes the permission to answer on. */
  lemma CallIsAwaited(db: Db, c: Context, op: Op, now: int)
    requires op.CallAgent?
    ensures var (db', c') := RunOp(db, c, op, now);
            var parent := if op.parentMessageId != "" then op.parentMessageId else c.messageId;
            var group := if c.original.Some? then c.original.value.taskGroupId else "";
            if op.availability.Reject? then c' == c && db'.waits == db.waits
            else if op.waitForReply then
              && c' == c.(suspendedState := "WAITING_AGENT")
              && OneMoreWait(db.waits, db'.waits, Member(c.sessionId, parent, op.messageId, group), op.replyTimeoutMs,
                             now)
            else c' == c.(transferred := true) && db'.waits == db.waits
    ensures var db' := RunOp(db, c, op, now).0; db' == db.(records := db'.records, waits := db'.waits, ctrl := db'.ctrl)
  {
    hide Registered, OneMoreWait, BuildAsk, Retarget, RecordFor;
    RegistrationIs(db.waits, WaitOf(InputOf(c, op)), op.replyTimeoutMs, now);
  }

  /** Asking the user registers a wait without a sub-task and suspends. */
  lemma UserIsAwaited(db: Db, c: Context, op: Op, now: int)
    requires op.AskUser?
    ensures var (db', c') := RunOp(db, c, op, now);
            && c' == c.(suspendedState := "WAITING_USER") && db' == db.(waits := db'.waits)
            && OneMoreWait(db.waits, db'.waits, Member(c.sessionId, c.messageId, "", ""), op.replyTimeoutMs, now)
  {
    hide Registered, OneMoreWait;
    RegistrationIs(db.waits, Member(c.sessionId, c.messageId, "", ""), op.replyTimeoutMs, now);
  }

  // ----- a fan-out -----

  /** The message of one member: who answers to whom, in which group, is the fan-out's; the rest is the member's own. */
  ghost predicate IsMemberAsk(command: Command, c: Context, op: Op, t: GroupTask)
    requires op.DispatchGroup?
  {
    && command.Ask? && command.content == t.content && command.waitForReply == op.waitForReply
    && command.extraPayload == t.payload - {"wait_for_reply"}
    && command.header.messageId == t.messageId && command.header.sessionId == c.sessionId
    && command.header.traceId == c.traceId && command.header.metadata == t.metadata
    && command.header.sourceAgentType == (if op.waitForReply then c.agentType else "")
    && command.header.targetAgentType == t.targetAgentType && command.header.taskGroupId == op.groupId
    && command.header.parentMessageId == (if op.parentMessageId != "" then op.parentMessageId else c.messageId)
    && command.header.userCode == "" && command.header.userName == ""
  }

  /** What stands in for a member nobody could run: a failure, addressed to the caller as that member's reply. */
  ghost predicate IsMemberFailure(command: Command, c: Context, op: Op, t: GroupTask)
    requires op.DispatchGroup?
  {
    && command.Resume? && command.status == "FAILED" && command.content == JText("") && command.extraPayload == map[]
    && command.replyData == JObject(map["error" := JText(t.error),
                                        "error_code" := JText(if t.errorCode != "" then t.errorCode
                                                              else "AGENT_TYPE_UNAVAILABLE"),
                                        "child_message_id" := JText(t.messageId)])
    && command.header.messageId == (if op.parentMessageId != "" then op.parentMessageId else c.messageId)
    && command.header.parentMessageId == t.messageId && command.header.sessionId == c.sessionId
    && command.header.traceId == c.traceId && command.header.taskGroupId == op.groupId
    && command.header.sourceAgentType == t.targetAgentType && command.header.targetAgentType == c.agentType
    && command.header.userCode == (if c.original.Some? then c.original.value.userCode else "")
    && command.header.userName == (if c.original.Some? then c.original.value.userName else "")
    && command.header.metadata == t.metadata + map["synthesized_by" := JText("dispatch"),
                                                   "liveness_error_code" := JText(t.errorCode),
                                                   "child_message_id" := JText(t.messageId)]
  }

  /** The member's message goes out: nobody waits for it, or there is somebody to run it. */
  predicate GoesOut(op: Op, t: GroupTask)
    requires op.DispatchGroup?
  {
    !op.waitForReply || t.online
  }

  /** The members that go out, or those that do not, in the order of the fan-out. */
  function Members(op: Op, tasks: seq<GroupTask>, out: bool): (members: seq<GroupTask>)
    requires op.DispatchGroup?
    ensures forall t :: t in members <==> t in tasks && GoesOut(op, t) == out
  {
    if tasks == [] then []
    else
      var last := tasks[|tasks| - 1];
      Members(op, tasks[..|tasks| - 1], out) + if GoesOut(op, last) == out then [last] else []
  }

  lemma {:induction false} MembersSplit(op: Op, tasks: seq<GroupTask>)
    requires op.DispatchGroup?
    ensures |Members(op, tasks, true)| + |Members(op, tasks, false)| == |tasks|
  {
    if tasks != [] {
      MembersSplit(op, tasks[..|tasks| - 1]);
    }
  }

  /** The messages of the members that go out, in the order of the members, and no others. */
  ghost predicate MembersSent(before: seq<Posted>, after: seq<Posted>, c: Context, op: Op, tasks: seq<GroupTask>)
    requires op.DispatchGroup?
  {
    var out := Members(op, tasks, true);
    && |after| == |before| + |out| && before <= after
    && forall i :: 0 <= i < |out| ==>
         after[|before| + i].stream == out[i].targetAgentType && IsMemberAsk(after[|before| + i].command, c, op, out[i])
  }

  lemma MemberIsSent(db: Db, c: Context, op: Op, t: GroupTask, now: int)
    requires op.DispatchGroup?
    ensures var db' := DispatchMember(db, FanOutOf(c, op, now), t);
            if GoesOut(op, t)
            then OneMore(db.ctrl, db'.ctrl, t.targetAgentType) && IsMemberAsk(db'.ctrl[|db.ctrl|].command, c, op, t)
            else db'.ctrl == db.ctrl
  {
    hide Registered;
  }

  lemma {:induction false} EveryMemberIsSent(db: Db, c: Context, op: Op, tasks: seq<GroupTask>, now: int)
    requires op.DispatchGroup?
    ensures MembersSent(db.ctrl, DispatchMembers(db, FanOutOf(c, op, now), tasks).ctrl, c, op, tasks)
  {
    hide DispatchMember, FanOutOf, IsMemberAsk, GoesOut;
    if tasks != [] {
      var n := |tasks| - 1;
      EveryMemberIsSent(db, c, op, tasks[..n], now);
      MemberIsSent(DispatchMembers(db, FanOutOf(c, op, now), tasks[..n]), c, op, tasks[n], now);
    }
  }

  /** A member is recorded as queued under its own id, or as failed if it does not go out. */
  lemma MemberIsRecorded(db: Db, c: Context, op: Op, t: GroupTask, now: int)
    requires op.DispatchGroup?
    ensures var db' := DispatchMember(db, FanOutOf(c, op, now), t);
            var k := (c.sessionId, t.messageId);
            && db'.records.Keys == db.records.Keys + {k}
            && (forall other :: other in db.records && other != k ==> db'.records[other] == db.records[other])
            && IsNew(db'.records[k], t.messageId, c.sessionId, t.executionId, if GoesOut(op, t) then "QUEUED"
                     else "FAILED",
                     now)
            && exists command :: IsMemberAsk(command, c, op, t) && NamesItsDispatch(db'.records[k], command.header)
  {
    hide Registered, RecordFor, IsNew, NamesItsDispatch, IsMemberAsk;
    var ask := MemberAsk(FanOutOf(c, op, now), t);
    AskOfMember(c, op, t, now);
    RecordIs(ask.header, if GoesOut(op, t) then QUEUED else FAILED, t.executionId, now);
  }

  lemma AskOfMember(c: Context, op: Op, t: GroupTask, now: int)
    requires op.DispatchGroup?
    ensures IsMemberAsk(MemberAsk(FanOutOf(c, op, now), t), c, op, t)
  {
  }

  /** And its wait is registered, if the fan-out waits at all. */
  lemma MemberIsAwaited(db: Db, c: Context, op: Op, t: GroupTask, now: int)
    requires op.DispatchGroup?
    ensures var db' := DispatchMember(db, FanOutOf(c, op, now), t);
            var parent := if op.parentMessageId != "" then op.parentMessageId else c.messageId;
            && (if op.waitForReply
                then OneMoreWait(db.waits, db'.waits, Member(c.sessionId, parent, t.messageId, op.groupId),
                                 op.replyTimeoutMs, now)
                else db'.waits == db.waits)
            && db' == db.(records := db'.records, waits := db'.waits, ctrl := db'.ctrl)
  {
    hide Registered, OneMoreWait, RecordFor;
    RegistrationIs(db.waits, MemberWait(FanOutOf(c, op, now), t), op.replyTimeoutMs, now);
  }

  /** The stand-ins of the members that do not go out, in their order; without an agent type of the caller's there is
      nobody to address them to. */
  ghost predicate FailuresQueued(before: seq<Command>, after: seq<Command>, c: Context, op: Op, tasks: seq<GroupTask>)
    requires op.DispatchGroup?
  {
    var failed := if c.agentType == "" then [] else Members(op, tasks, false);
    && |after| == |before| + |failed| && before <= after
    && forall i :: |before| <= i < |after| ==> IsMemberFailure(after[i], c, op, failed[i - |before|])
  }

  lemma StandInIsFailure(c: Context, op: Op, t: GroupTask, now: int)
    requires op.DispatchGroup?
    ensures var queued := QueuedStandIns(FanOutOf(c, op, now), t);
            if GoesOut(op, t) || c.agentType == "" then queued == []
            else |queued| == 1 && IsMemberFailure(queued[0], c, op, t)
  {
  }

  lemma QueuesOneMore(before: seq<Command>, queue: seq<Command>, one: seq<Command>, c: Context, op: Op,
                      tasks: seq<GroupTask>)
    requires op.DispatchGroup? && tasks != [] && FailuresQueued(before, queue, c, op, tasks[..|tasks| - 1])
    requires var last := tasks[|tasks| - 1];
             if GoesOut(op, last) || c.agentType == "" then one == []
             else |one| == 1 && IsMemberFailure(one[0], c, op, last)
    ensures FailuresQueued(before, queue + one, c, op, tasks)
  {
    hide IsMemberFailure, GoesOut;
    var last := tasks[|tasks| - 1];
    var earlier, failed := Members(op, tasks[..|tasks| - 1], false), Members(op, tasks, false);
    if one == [] {
      assert queue + one == queue;
      assert earlier + [] == earlier;
      assert c.agentType != "" ==> failed == earlier;
    } else {
      assert failed == earlier + [last];
      forall i | |before| <= i < |queue + one|
        ensures IsMemberFailure((queue + one)[i], c, op, failed[i - |before|])
      {
        assert i < |queue| ==> (queue + one)[i] == queue[i];
      }
    }
  }

  lemma {:induction false} EveryFailureIsQueued(before: seq<Command>, c: Context, op: Op, tasks: seq<GroupTask>,
                                                now: int)
    requires op.DispatchGroup?
    ensures FailuresQueued(before, before + AllStandIns(FanOutOf(c, op, now), tasks), c, op, tasks)
  {
    hide QueuedStandIns, FanOutOf, IsMemberFailure, GoesOut;
    if tasks == [] {
      assert before + [] == before;
    } else {
      hide FailuresQueued;
      var n := |tasks| - 1;
      EveryFailureIsQueued(before, c, op, tasks[..n], now);
      StandInIsFailure(c, op, tasks[n], now);
      var f := FanOutOf(c, op, now);
      var queue, one := before + AllStandIns(f, tasks[..n]), QueuedStandIns(f, tasks[n]);
      assert before + AllStandIns(f, tasks) == queue + one;
      QueuesOneMore(before, queue, one, c, op, tasks);
    }
  }

  /** A fan-out: its tracker counts to the number of its members, each of them is sent or stood in for, and the
      execution suspends if it waits. An empty one does nothing. */
  lemma FanOutIs(db: Db, c: Context, op: Op, now: int)
    requires op.DispatchGroup? && op.tasks != []
    ensures var (db', c') := RunOp(db, c, op, now);
            && MembersSent(db.ctrl, db'.ctrl, c, op, op.tasks)
            && c'.suspendedState == (if op.waitForReply then "WAITING_AGENT" else c.suspendedState)
            && c'.transferred == (!op.waitForReply || c.transferred)
            && (if op.waitForReply then FailuresQueued(c.pending, c'.pending, c, op, op.tasks)
                else c'.pending == c.pending)
            && db'.groups == (if op.waitForReply then db.groups[op.groupId := Group(|op.tasks|, 0, false)]
                              else db.groups)
            && RunOp(db, c, op.(tasks := []), now) == (db, c)
  {
    hide DispatchMembers, AllStandIns, MembersSent, FailuresQueued;
    var f := FanOutOf(c, op, now);
    var tracked := OpenGroup(db, f, |op.tasks|);
    EveryMemberIsSent(tracked, c, op, op.tasks, now);
    EveryFailureIsQueued(c.pending, c, op, op.tasks, now);
    MembersOpenNoGroup(tracked, f, op.tasks);
  }

  lemma {:induction false} MembersOpenNoGroup(db: Db, f: FanOut, tasks: seq<GroupTask>)
    ensures DispatchMembers(db, f, tasks).groups == db.groups
  {
    hide Registered;
    if tasks != [] {
      MembersOpenNoGroup(db, f, tasks[..|tasks| - 1]);
    }
  }

  // ----- what suspends a run -----

  /** The request leaves its execution waiting for somebody. */
  predicate Awaits(op: Op) {
    match op
    case CallAgent(_, _, _, wait, _, _, _, _, _, a) => wait && !a.Reject?
    case AskUser(_) => true
    case DispatchGroup(tasks, wait, _, _, _) => wait && tasks != []
  }

  lemma RequestSuspends(db: Db, c: Context, op: Op, now: int)
    ensures RunOp(db, c, op, now).1.suspendedState ==
            if Awaits(op) then (if op.AskUser? then "WAITING_USER" else "WAITING_AGENT") else c.suspendedState
  {
    hide Publish, DispatchMembers, AllStandIns, RegisterIn;
  }

  /** The last request that waits decides what a run waits for; if none does, the run does not suspend. */
  lemma {:induction false} LastRequestDecides(db: Db, c: Context, ops: seq<Op>, now: int)
    ensures var state := RunOps(db, c, ops, now).1.suspendedState;
            && ((forall i :: 0 <= i < |ops| ==> !Awaits(ops[i])) ==> state == c.suspendedState)
            && forall i :: 0 <= i < |ops| && Awaits(ops[i]) && (forall j :: i < j < |ops| ==> !Awaits(ops[j])) ==>
                 state == if ops[i].AskUser? then "WAITING_USER" else "WAITING_AGENT"
  {
    hide RunOp, Awaits;
    if ops != [] {
      var n := |ops| - 1;
      LastRequestDecides(db, c, ops[..n], now);
      var (db1, c1) := RunOps(db, c, ops[..n], now);
      RequestSuspends(db1, c1, ops[n], now);
      assert forall i :: 0 <= i < n ==> ops[..n][i] == ops[i];
    }
  }

  lemma {:induction false} SomeRequestSuspends(db: Db, c: Context, ops: seq<Op>, now: int)
    requires c.suspendedState == ""
    ensures RunOps(db, c, ops, now).1.suspendedState != "" <==> exists op :: op in ops && Awaits(op)
  {
    hide RunOp, Awaits;
    if ops != [] {
      var n := |ops| - 1;
      SomeRequestSuspends(db, c, ops[..n], now);
      var (db1, c1) := RunOps(db, c, ops[..n], now);
      RequestSuspends(db1, c1, ops[n], now);
      assert ops == ops[..n] + [ops[n]];
    }
  }

  /** A returning handler leaves its execution suspended exactly if it asked for something that waits and did not report
      an end all the same. */
  lemma SuspendsExactly(db: Db, env: Env, inbound: Command, ops: seq<Op>, result: TaskResult)
    ensures var c := RunOps(db, ContextFor(env, inbound), ops, env.now).1;
            StaysSuspended(c, result) <==>
            (exists op :: op in ops && Awaits(op)) && result.status !in {"COMPLETED", "FAILED", "CANCELLED"}
  {
    hide RunOps, Awaits;
    SomeRequestSuspends(db, ContextFor(env, inbound), ops, env.now);
  }
}
