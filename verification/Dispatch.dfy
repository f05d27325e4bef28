/** Builders of messages and records: a dispatch (`src/dispatch/`), the callee's own return
    (`src/worker.ts`) and the stand-ins (`src/liveness/wait_reply.ts`). */
module Builders {
  import opened Protocol
  import opened Store

  /** What `callAgent` hands to the publish pipeline. */
  datatype CallInput = CallInput(
    sessionId: string,
    traceId: string,
    sourceAgentType: string,
    defaultParentMessageId: string,
    targetAgentType: string,
    content: Json,
    extraPayload: Meta,
    waitForReply: bool,
    userCode: string,
    userName: string,
    taskGroupId: string,
    metadata: Meta,
    messageId: string,
    parentMessageId: string,
    replyTimeoutMs: int)

  function ParentOf(input: CallInput): string {
    if input.parentMessageId != "" then input.parentMessageId else input.defaultParentMessageId
  }

  /** A transferred call (no reply awaited) names no source, so nobody is owed its reply. */
  function BuildAsk(input: CallInput): Command {
    Ask(Header(input.messageId, input.sessionId, input.traceId,
               if input.waitForReply then input.sourceAgentType else "",
               input.targetAgentType, ParentOf(input), input.taskGroupId, input.userCode, input.userName,
                   input.metadata),
        input.content, input.waitForReply, input.extraPayload - {"wait_for_reply"})
  }

  /** `buildExecutionRecordForAskAgentCommand` followed by `initializeExecution`. */
  function RecordFor(h: Header, sourceAgentType: string, status: string, executionId: string, now: int): Record {
    Record(executionId, h.messageId, h.parentMessageId, h.sessionId, h.traceId, sourceAgentType, h.taskGroupId,
           h.targetAgentType, "", status, h.metadata, now, false, "")
  }

  /** The fallback to another agent type changes the addressee and nothing else. */
  function Retarget(command: Command, targetAgentType: string): Command
    requires command.Ask?
  {
    Ask(command.header.(targetAgentType := targetAgentType), command.content, command.waitForReply,
        command.extraPayload)
  }

  function OrElse(text: string, fallback: string): string {
    if text != "" then text else fallback
  }

  // ----- replies -----

  /** A missing content reads as an empty one. */
  function ContentOf(content: Json): Json {
    if content == JNull then JText("") else content
  }

  /** `enqueueAgentReturn`'s message: the ids travel backwards, the dispatch metadata is overlaid by the result's. */
  function AgentReturn(h: Header, status: string, content: Json, replyData: Json, metadata: Meta, extraPayload: Meta,
                       workerId: string, mintedId: string): Command
  {
    Resume(Header(OrElse(h.parentMessageId, mintedId), h.sessionId, h.traceId, OrElse(h.targetAgentType, workerId),
                  h.sourceAgentType, h.messageId, h.taskGroupId, h.userCode, h.userName, h.metadata + metadata),
           ContentOf(content), status, replyData, extraPayload)
  }

  /** What a reply leaves behind in a results hash, for a group's join and for recovery alike. */
  function ResultOf(reply: Command): StoredResult
    requires reply.Resume?
  {
    StoredResult(reply.status, reply.replyData, reply.content, reply.header.sourceAgentType, reply.header.metadata,
                 reply.extraPayload)
  }

  /** `persistSingleCallResult`: only a call outside any group, and only under a non-empty id. */
  function PersistSingleCall(db: Db, h: Header, reply: Command): Db
    requires reply.Resume?
  {
    if h.taskGroupId != "" || h.messageId == "" then db
    else WithResult(db, SingleCallGroup(h.messageId), h.messageId, ResultOf(reply))
  }

  const SYNTHESIZED_BY_SWEEPER := "wait_sweeper"
  const SYNTHESIZED_BY_DISPATCH := "dispatch"

  function FailureReplyData(error: string, errorCode: string, childMessageId: string): Json {
    JObject(map["error" := JText(error), "error_code" := JText(errorCode), "child_message_id" := JText(childMessageId)])
  }

  /** The reply a callee would have sent, built by somebody else. */
  function StandInReply(sessionId: string, callerMessageId: string, callerAgentType: string, childMessageId: string,
                        childAgentType: string, taskGroupId: string, traceId: string, status: string, content: Json,
                        replyData: Json, extraPayload: Meta, metadata: Meta, errorCode: string, synthesizedBy: string,
                        userCode: string, userName: string): Command
  {
    Resume(Header(callerMessageId, sessionId, traceId, childAgentType, callerAgentType, childMessageId, taskGroupId,
                  userCode, userName,
                  metadata["synthesized_by" := JText(synthesizedBy)]["liveness_error_code" := JText(errorCode)]
                          ["child_message_id" := JText(childMessageId)]),
           content, status, replyData, extraPayload)
  }
}

/** The dispatching half of `AgentContext` (`src/context.ts`) and the publish pipeline behind `callAgent`
    (`src/dispatch/dispatch_ask_agent.ts`). */
module Dispatch {
  import opened Protocol
  import opened WaitIndex
  import opened WaitGate
  import opened Store
  import opened Builders

  /** The availability router's answer; `selected` is the fallback agent type, or empty. */
  datatype Availability =
    | DeliverNow(selected: string, stream: string)
    | QueuePending(selected: string, stream: string)
    | Reject

  datatype GroupTask = GroupTask(
    targetAgentType: string,
    content: Json,
    payload: Meta,
    metadata: Meta,
    messageId: string,
    executionId: string,
    online: bool,
    error: string,
    errorCode: string)

  /** What a handler asked its context to do, with the ids minted and the answers received on the way. */
  datatype Op =
    | CallAgent(targetAgentType: string, content: Json, extraPayload: Meta, waitForReply: bool, metadata: Meta,
                messageId: string, parentMessageId: string, replyTimeoutMs: int, executionId: string,
                    availability: Availability)
    | AskUser(replyTimeoutMs: int)
    | DispatchGroup(tasks: seq<GroupTask>, waitForReply: bool, groupId: string, parentMessageId: string,
                    replyTimeoutMs: int)

  /** The context's identity and the fields it mutates. `original` is the current header unless this run is a resume. */
  datatype Context = Context(
    sessionId: string,
    traceId: string,
    agentType: string,
    messageId: string,
    original: Option<Header>,
    suspendedState: string,
    transferred: bool,
    pending: seq<Command>)

  function InputOf(c: Context, op: Op): CallInput
    requires op.CallAgent?
  {
    CallInput(c.sessionId, c.traceId, c.agentType, c.messageId, op.targetAgentType, op.content, op.extraPayload,
              op.waitForReply,
              if c.original.Some? then c.original.value.userCode else "",
              if c.original.Some? then c.original.value.userName else "",
              if c.original.Some? then c.original.value.taskGroupId else "",
              op.metadata, op.messageId, op.parentMessageId, op.replyTimeoutMs)
  }

  function WaitOf(input: CallInput): Member {
    Member(input.sessionId, ParentOf(input), input.messageId, input.taskGroupId)
  }

  function PutRecord(db: Db, r: Record): Db {
    db.(records := db.records[(r.sessionId, r.messageId) := r])
  }

  function Post(db: Db, stream: string, command: Command): Db {
    db.(ctrl := db.ctrl + [Posted(stream, command)])
  }

  function RegisterIn(db: Db, m: Member, timeoutMs: int, now: int): Db {
    db.(waits := Registered(db.waits, m, timeoutMs, now))
  }

  /** The command that goes out, retargeted when the router fell back to another agent type. */
  function SentAsk(input: CallInput, a: Availability): Command
    requires !a.Reject?
  {
    if a.selected != "" then Retarget(BuildAsk(input), a.selected) else BuildAsk(input)
  }

  /** The pipeline: register the wait, then write the record, then publish. */
  function Publish(db: Db, input: CallInput, a: Availability, executionId: string, now: int): Db {
    if a.Reject? then PutRecord(db, RecordFor(BuildAsk(input).header, BuildAsk(input).header.sourceAgentType, FAILED,
                                              executionId, now))
    else
      var sent := SentAsk(input, a);
      var db1 := if input.waitForReply then RegisterIn(db, WaitOf(input), input.replyTimeoutMs, now) else db;
      var db2 := PutRecord(db1, RecordFor(sent.header, sent.header.sourceAgentType, QUEUED, executionId, now));
      if a.QueuePending? then db2 else Post(db2, OrElse(a.stream, input.targetAgentType), sent)
  }

  // ----- Task Groups -----

  /** What every member of one fan-out shares. */
  datatype FanOut = FanOut(c: Context, groupId: string, waitForReply: bool, parentMessageId: string,
                           replyTimeoutMs: int, now: int)

  function GroupParent(f: FanOut): string {
    OrElse(f.parentMessageId, f.c.messageId)
  }

  function MemberAsk(f: FanOut, t: GroupTask): Command {
    Ask(Header(t.messageId, f.c.sessionId, f.c.traceId, if f.waitForReply then f.c.agentType else "", t.targetAgentType,
               GroupParent(f), f.groupId, "", "", t.metadata),
        t.content, f.waitForReply, t.payload - {"wait_for_reply"})
  }

  function MemberWait(f: FanOut, t: GroupTask): Member {
    Member(f.c.sessionId, GroupParent(f), t.messageId, f.groupId)
  }

  /** The failure a member's unavailable target would have reported. */
  function MemberStandIn(f: FanOut, t: GroupTask): Command {
    StandInReply(f.c.sessionId, GroupParent(f), f.c.agentType, t.messageId, t.targetAgentType, f.groupId, f.c.traceId,
                 FAILED,
                 JText(""), FailureReplyData(t.error, OrElse(t.errorCode, "AGENT_TYPE_UNAVAILABLE"), t.messageId),
                     map[],
                 t.metadata, t.errorCode, SYNTHESIZED_BY_DISPATCH,
                 if f.c.original.Some? then f.c.original.value.userCode else "",
                 if f.c.original.Some? then f.c.original.value.userName else "")
  }

  predicate Undispatched(f: FanOut, t: GroupTask) {
    f.waitForReply && !t.online
  }

  function DispatchMember(db: Db, f: FanOut, t: GroupTask): Db {
    var h := MemberAsk(f, t).header;
    var wait := MemberWait(f, t);
    if Undispatched(f, t) then
      RegisterIn(PutRecord(db, RecordFor(h, f.c.agentType, FAILED, t.executionId, f.now)), wait, f.replyTimeoutMs,
                 f.now)
    else
      var db1 := PutRecord(db, RecordFor(h, h.sourceAgentType, QUEUED, t.executionId, f.now));
      var db2 := if f.waitForReply then RegisterIn(db1, wait, f.replyTimeoutMs, f.now) else db1;
      Post(db2, t.targetAgentType, MemberAsk(f, t))
  }

  /** A member without an online target queues its stand-in, unless there is no agent type to address it to. */
  function QueuedStandIns(f: FanOut, t: GroupTask): seq<Command> {
    if Undispatched(f, t) && f.c.agentType != "" then [MemberStandIn(f, t)] else []
  }

  function DispatchMembers(db: Db, f: FanOut, tasks: seq<GroupTask>): Db {
    if tasks == [] then db else DispatchMember(DispatchMembers(db, f, tasks[..|tasks| - 1]), f, tasks[|tasks| - 1])
  }

  function AllStandIns(f: FanOut, tasks: seq<GroupTask>): seq<Command> {
    if tasks == [] then [] else AllStandIns(f, tasks[..|tasks| - 1]) + QueuedStandIns(f, tasks[|tasks| - 1])
  }

  function OpenGroup(db: Db, f: FanOut, total: int): Db {
    if f.waitForReply then db.(groups := db.groups[f.groupId := Group(total, 0, false)]) else db
  }

  // ----- one operation of a handler -----

  function FanOutOf(c: Context, op: Op, now: int): FanOut
    requires op.DispatchGroup?
  {
    FanOut(c, op.groupId, op.waitForReply, op.parentMessageId, op.replyTimeoutMs, now)
  }

  function RunOp(db: Db, c: Context, op: Op, now: int): (Db, Context) {
    match op
    case CallAgent(_, _, _, wait, _, _, _, _, executionId, availability) =>
      (Publish(db, InputOf(c, op), availability, executionId, now),
       if availability.Reject? then c
       else if wait then c.(suspendedState := WAITING_AGENT)
       else c.(transferred := true))
    case AskUser(timeoutMs) =>
      (RegisterIn(db, Member(c.sessionId, c.messageId, "", ""), timeoutMs, now), c.(suspendedState := WAITING_USER))
    case DispatchGroup(tasks, wait, _, _, _) =>
      if tasks == [] then (db, c)
      else
        var f := FanOutOf(c, op, now);
        (DispatchMembers(OpenGroup(db, f, |tasks|), f, tasks),
         if wait then c.(suspendedState := WAITING_AGENT, pending := c.pending + AllStandIns(f, tasks))
         else c.(transferred := true))
  }

  function RunOps(db: Db, c: Context, ops: seq<Op>, now: int): (Db, Context) {
    if ops == [] then (db, c)
    else
      var (db1, c1) := RunOps(db, c, ops[..|ops| - 1], now);
      RunOp(db1, c1, ops[|ops| - 1], now)
  }

  /** An operation leaves the identity of its context alone. */
  lemma RunOpContext(db: Db, c: Context, op: Op, now: int)
    ensures var c' := RunOp(db, c, op, now).1;
            c'.(suspendedState := c.suspendedState, transferred := c.transferred, pending := c.pending) == c
  {
  }

  // ----- the classes -----

  /** `registerWait`: the entry first, then the marker of an earlier round. */
  method RegisterWait(redis: Redis, m: Member, timeoutMs: int, now: int)
    modifies redis
    ensures redis.View() == RegisterIn(old(redis.View()), m, timeoutMs, now)
  {
    var deadline := now + Max(0, timeoutMs);
    var member := EncodeMember(m);
    redis.ZAdd(member, deadline);
    redis.markers := redis.markers - {member};
  }

  method InitializeExecution(redis: Redis, r: Record)
    modifies redis
    ensures redis.View() == PutRecord(old(redis.View()), r)
  {
    redis.records := redis.records[(r.sessionId, r.messageId) := r];
  }

  class AgentContext {
    const redis: Redis
    const sessionId: string
    const traceId: string
    const agentType: string
    const messageId: string
    const original: Option<Header>
    var isSuspended: bool
    var suspendedState: string
    var permissionTransferred: bool
    var pendingGroupReplies: seq<Command>

    ghost function Snapshot(): Context
      reads this
    {
      Context(sessionId, traceId, agentType, messageId, original, suspendedState, permissionTransferred,
              pendingGroupReplies)
    }

    /** The flag and the reason are set together. */
    ghost predicate Valid()
      reads this
    {
      isSuspended <==> suspendedState != ""
    }

    constructor (redis: Redis, header: Header, traceId: string, isResume: bool)
      ensures Valid() && this.redis == redis
      ensures Snapshot() == Context(header.sessionId, traceId, header.targetAgentType, header.messageId,
                                    if isResume then None else Some(header), "", false, [])
    {
      this.redis := redis;
      this.traceId := traceId;
      sessionId, agentType, messageId := header.sessionId, header.targetAgentType, header.messageId;
      original := if isResume then None else Some(header);
      isSuspended, suspendedState, permissionTransferred, pendingGroupReplies := false, "", false, [];
    }

    method Call(op: Op, now: int)
      requires op.CallAgent? && Valid()
      modifies this, redis
      ensures Valid() && (redis.View(), Snapshot()) == RunOp(old(redis.View()), old(Snapshot()), op, now)
    {
      hide EncodeMember, Registered;
      var input := InputOf(Context(sessionId, traceId, agentType, messageId, original, suspendedState,
                                   permissionTransferred, pendingGroupReplies), op);
      if op.availability.Reject? {
        var h := BuildAsk(input).header;
        InitializeExecution(redis, RecordFor(h, h.sourceAgentType, FAILED, op.executionId, now));
        return;
      }
      var command := BuildAsk(input);
      if op.availability.selected != "" {
        command := Retarget(command, op.availability.selected);
      }
      if op.waitForReply {
        RegisterWait(redis, WaitOf(input), op.replyTimeoutMs, now);
      }
      InitializeExecution(redis, RecordFor(command.header, command.header.sourceAgentType, QUEUED, op.executionId,
                                           now));
      if !op.availability.QueuePending? {
        redis.XAdd(OrElse(op.availability.stream, input.targetAgentType), command);
      }
      if op.waitForReply {
        isSuspended, suspendedState := true, WAITING_AGENT;
      } else {
        permissionTransferred := true;
      }
    }

    method Ask(op: Op, now: int)
      requires op.AskUser? && Valid()
      modifies this, redis
      ensures Valid() && (redis.View(), Snapshot()) == RunOp(old(redis.View()), old(Snapshot()), op, now)
    {
      RegisterWait(redis, Member(sessionId, messageId, "", ""), op.replyTimeoutMs, now);
      isSuspended, suspendedState := true, WAITING_USER;
    }

    /** One turn of the fan-out loop. */
    method DispatchTo(f: FanOut, t: GroupTask)
      requires f.c.agentType == agentType
      modifies this`pendingGroupReplies, redis
      ensures redis.View() == DispatchMember(old(redis.View()), f, t)
      ensures pendingGroupReplies == old(pendingGroupReplies) + QueuedStandIns(f, t)
    {
      hide EncodeMember;
      var h := MemberAsk(f, t).header;
      if f.waitForReply && !t.online {
        InitializeExecution(redis, RecordFor(h, agentType, FAILED, t.executionId, f.now));
        RegisterWait(redis, MemberWait(f, t), f.replyTimeoutMs, f.now);
        if agentType != "" {
          pendingGroupReplies := pendingGroupReplies + [MemberStandIn(f, t)];
        }
      } else {
        InitializeExecution(redis, RecordFor(h, h.sourceAgentType, QUEUED, t.executionId, f.now));
        if f.waitForReply {
          RegisterWait(redis, MemberWait(f, t), f.replyTimeoutMs, f.now);
        }
        redis.XAdd(t.targetAgentType, MemberAsk(f, t));
      }
    }

    method DispatchAll(f: FanOut, tasks: seq<GroupTask>)
      requires f.c.agentType == agentType
      modifies this`pendingGroupReplies, redis
      ensures redis.View() == DispatchMembers(old(redis.View()), f, tasks)
      ensures pendingGroupReplies == old(pendingGroupReplies) + AllStandIns(f, tasks)
    {
      hide DispatchMember, QueuedStandIns;
      for i := 0 to |tasks|
        invariant redis.View() == DispatchMembers(old(redis.View()), f, tasks[..i])
        invariant pendingGroupReplies == old(pendingGroupReplies) + AllStandIns(f, tasks[..i])
      {
        assert tasks[..i + 1][..i] == tasks[..i] && tasks[..i + 1][i] == tasks[i];
        DispatchTo(f, tasks[i]);
      }
      assert tasks[..|tasks|] == tasks;
    }

    method FanOutGroup(op: Op, now: int)
      requires op.DispatchGroup? && Valid()
      modifies this, redis
      ensures Valid() && (redis.View(), Snapshot()) == RunOp(old(redis.View()), old(Snapshot()), op, now)
    {
      hide DispatchMembers, AllStandIns;
      if op.tasks == [] {
        return;
      }
      var f := FanOut(Context(sessionId, traceId, agentType, messageId, original, suspendedState, permissionTransferred,
                              pendingGroupReplies),
                      op.groupId, op.waitForReply, op.parentMessageId, op.replyTimeoutMs, now);
      if op.waitForReply {
        redis.groups := redis.groups[op.groupId := Group(|op.tasks|, 0, false)];
        isSuspended, suspendedState := true, WAITING_AGENT;
      } else {
        permissionTransferred := true;
      }
      assert f == FanOutOf(old(Snapshot()), op, now);
      assert redis.View() == OpenGroup(old(redis.View()), f, |op.tasks|);
      DispatchAll(f, op.tasks);
      NoStandInsUnlessWaiting(f, op.tasks);
      ghost var (db, c) := RunOp(old(redis.View()), old(Snapshot()), op, now);
      assert redis.View() == db;
      assert Snapshot() == c;
    }

    /** Hands the queue over and clears it, so that no second flush can repeat a reply. */
    method TakePendingGroupReplies() returns (replies: seq<Command>)
      modifies this`pendingGroupReplies
      ensures replies == old(pendingGroupReplies) && pendingGroupReplies == []
    {
      replies := pendingGroupReplies;
      pendingGroupReplies := [];
    }
  }

  lemma {:induction false} NoStandInsUnlessWaiting(f: FanOut, tasks: seq<GroupTask>)
    ensures !f.waitForReply ==> AllStandIns(f, tasks) == []
  {
    if tasks != [] {
      NoStandInsUnlessWaiting(f, tasks[..|tasks| - 1]);
    }
  }
}
