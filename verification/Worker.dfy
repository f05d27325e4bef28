/** Handling one message (`src/worker.ts`, `src/resume_metadata.ts`): the Task Group join, the handler's run and
    the reply it may owe. */
module Worker {
  import opened Protocol
  import opened WaitIndex
  import opened WaitGate
  import opened Store
  import opened Builders
  import opened Dispatch

  /** What a handler handed back. */
  datatype TaskResult = TaskResult(status: string, content: Json, replyData: Json, metadata: Meta, extraPayload: Meta)

  datatype End = Returns(result: TaskResult) | Throws(error: string) | Cancels(reason: string)

  /** One run of business code: what it asked of its context, in order, and how it ended. */
  datatype Handler = Handler(ops: seq<Op>, end: End)

  /** The clock, the ids a run may mint, the injected history. */
  datatype Env = Env(workerId: string, now: int, mintedId: string, mintedTrace: string, history: Json)

  /** `entered` is the command the handler read, if it was entered; `reply` the one sent to the caller, if any. */
  datatype Outcome = Outcome(db: Db, status: string, entered: Option<Command>, reply: Option<Command>)

  // ----- metadata in and out -----

  const HOP_KEYS: set<string> := {"trace_parent_span_id", "framework_parent_span_id", "langfuse_parent_observation_id"}

  function WithoutHopKeys(m: Meta): Meta {
    map k | k in m && k !in HOP_KEYS :: m[k]
  }

  function MergeResumeMetadata(stored: Meta, incoming: Meta): Meta {
    WithoutHopKeys(stored) + incoming
  }

  method MergeMetadata(stored: Meta, incoming: Meta) returns (merged: Meta)
    ensures merged == MergeResumeMetadata(stored, incoming)
  {
    merged := map[];
    var todo := stored.Keys;
    while todo != {}
      invariant todo <= stored.Keys
      invariant merged == map k | k in stored && k !in todo && k !in HOP_KEYS :: stored[k]
    {
      var key :| key in todo;
      if key !in HOP_KEYS {
        merged := merged[key := stored[key]];
      }
      todo := todo - {key};
    }
    merged := merged + incoming;
  }

  function StoredMetadata(existing: Option<Record>): Meta {
    if existing.Some? then existing.value.metadata else map[]
  }

  /** The command a resumed handler reads: its own dispatch metadata under the waking message's. */
  function RestoreInbound(command: Command, existing: Option<Record>): Command {
    match command
    case Ask(_, _, _, _) => command
    case Resume(h, content, status, replyData, extra) =>
      Resume(h.(metadata := MergeResumeMetadata(StoredMetadata(existing), h.metadata)), content, status, replyData,
             extra)
  }

  /** The header whose sender is owed a reply, or none. A resume's own header describes the hop that woke this
      execution, so the caller comes from the record. */
  function ReplyHeader(command: Command, existing: Option<Record>): Option<Header> {
    var h := command.header;
    if command.Ask? then (if h.sourceAgentType != "" then Some(h) else None)
    else if existing.None? || existing.value.sourceAgentType == "" || existing.value.sourceAgentType == CLIENT then None
    else
      var r := existing.value;
      Some(Header(h.messageId, h.sessionId, h.traceId, r.sourceAgentType, h.targetAgentType, r.parentMessageId,
                  r.taskGroupId,
                  h.userCode, h.userName, r.metadata))
  }

  // ----- the Task Group join -----

  /** Stores and counts one member's reply; a status means the handler is not entered. */
  function JoinReply(db: Db, command: Command): (Db, Option<string>) {
    if command.Ask? || command.header.taskGroupId == "" then (db, None)
    else
      var g := command.header.taskGroupId;
      if g !in db.groups then (db, Some(FAILED))
      else if db.groups[g].aborted then (db, Some(GROUP_ABORTED))
      else
        var group := db.groups[g];
        var counted := group.completed + 1;
        var db1 := WithResult(db, g, command.header.parentMessageId, ResultOf(command));
        (db1.(groups := db1.groups[g := group.(completed := counted)]),
         if counted < group.total then Some(WAITING_FOR_GROUP) else None)
  }

  /** The group's tracker is gone or aborted. */
  predicate DeadGroup(db: Db, g: string) {
    g !in db.groups || db.groups[g].aborted
  }

  /** How a join stops a reply: at a dead group for good, below the total until the next one. */
  lemma JoinStops(db: Db, command: Command)
    ensures var (db', stop) := JoinReply(db, command);
            if command.Ask? || command.header.taskGroupId == "" then db' == db && stop.None?
            else if DeadGroup(db, command.header.taskGroupId)
            then db' == db && stop == Some(if command.header.taskGroupId !in db.groups then FAILED else GROUP_ABORTED)
            else stop.None? || stop == Some(WAITING_FOR_GROUP)
  {
  }

  // ----- replies -----

  function SendReturn(db: Db, env: Env, h: Header, reply: Command): Db
    requires reply.Resume?
  {
    Post(PersistSingleCall(db, h, reply), reply.header.targetAgentType, reply)
  }

  function Flush(db: Db, replies: seq<Command>): Db {
    if replies == [] then db
    else
      var last := replies[|replies| - 1];
      Post(Flush(db, replies[..|replies| - 1]), last.header.targetAgentType, last)
  }

  function Replied(db: Db, env: Env, h: Header, status: string, entered: Option<Command>, result: TaskResult): Outcome {
    var reply := AgentReturn(h, result.status, result.content, result.replyData, result.metadata, result.extraPayload,
                             env.workerId, env.mintedId);
    Outcome(SendReturn(db, env, h, reply), status, entered, Some(reply))
  }

  function FailureResult(status: string, key: string, text: string): TaskResult {
    TaskResult(status, JText(""), JObject(map[key := JText(text)]), map[], map[])
  }

  /** A cancelled execution tells its caller, unless the caller is being cancelled too. */
  function CancelPath(db: Db, env: Env, command: Command, owed: Option<Header>, entered: Option<Command>,
                      reason: string): Outcome {
    if owed.None? then Outcome(db, CANCELLED, entered, None)
    else
      var caller := Lookup(db, owed.value.parentMessageId, command.header.sessionId);
      if owed.value.parentMessageId != "" && caller.Some? && caller.value.cancelRequested
      then Outcome(db, CANCELLED, entered, None)
      else Replied(db, env, owed.value, CANCELLED, entered, FailureResult(CANCELLED, "reason", reason))
  }

  // ----- the handler's run -----

  function ContextFor(env: Env, inbound: Command): Context {
    var h := inbound.header;
    Context(h.sessionId, OrElse(h.traceId, env.mintedTrace), h.targetAgentType, h.messageId,
            if inbound.Ask? then Some(h) else None, "", false, [])
  }

  /** Whether the run left its execution waiting: it suspended and did not reach a terminal state after all. */
  predicate StaysSuspended(c: Context, result: TaskResult) {
    c.suspendedState != "" && !IsTerminal(result.status)
  }

  function FinalStatus(c: Context, result: TaskResult): string {
    if StaysSuspended(c, result) then c.suspendedState else result.status
  }

  function RunHandler(db: Db, env: Env, command: Command, existing: Option<Record>, handler: Handler): Outcome {
    var owed := ReplyHeader(command, existing);
    var inbound := RestoreInbound(command, existing);
    var (db1, c) := RunOps(db, ContextFor(env, inbound), handler.ops, env.now);
    match handler.end
    case Returns(result) =>
      var db2 := Flush(db1, c.pending);
      var final := result.(status := FinalStatus(c, result));
      if owed.Some? && !StaysSuspended(c, result)
      then Replied(db2, env, owed.value, final.status, Some(inbound), final)
      else Outcome(db2, final.status, Some(inbound), None)
    case Throws(error) =>
      if owed.Some? then Replied(db1, env, owed.value, FAILED, Some(inbound), FailureResult(FAILED, "error", error))
      else Outcome(db1, FAILED, Some(inbound), None)
    case Cancels(reason) => CancelPath(db1, env, command, owed, Some(inbound), reason)
  }

  function HandleMessage(db: Db, env: Env, command: Command, existing: Option<Record>, handler: Handler): Outcome {
    if existing.Some? && existing.value.cancelRequested
    then CancelPath(db, env, command, ReplyHeader(command, existing), None,
                    OrElse(existing.value.cancelReason, "task cancelled before processing"))
    else
      var (db1, stop) := JoinReply(db, command);
      if stop.Some? then Outcome(db1, stop.value, None, None)
      else RunHandler(db1, env, command, existing, handler)
  }

  // ----- the class -----

  class GatewayWorker {
    const workerId: string
    const redis: Redis

    constructor (workerId: string, redis: Redis)
      ensures this.workerId == workerId && this.redis == redis
    {
      this.workerId, this.redis := workerId, redis;
    }

    /** `enqueueAgentReturn`: persist first, then send. */
    method EnqueueAgentReturn(env: Env, h: Header, result: TaskResult) returns (reply: Command)
      requires env.workerId == workerId
      modifies redis
      ensures forall entered :: Replied(old(redis.View()), env, h, result.status, entered, result) ==
                                Outcome(redis.View(), result.status, entered, Some(reply))
    {
      reply := AgentReturn(h, result.status, result.content, result.replyData, result.metadata, result.extraPayload,
                           workerId, env.mintedId);
      if h.taskGroupId == "" && h.messageId != "" {
        redis.HSetResult(SingleCallGroup(h.messageId), h.messageId, ResultOf(reply));
      }
      redis.XAdd(reply.header.targetAgentType, reply);
    }

    method JoinGroup(command: Command) returns (stop: Option<string>)
      modifies redis
      ensures (redis.View(), stop) == JoinReply(old(redis.View()), command)
    {
      if command.Ask? || command.header.taskGroupId == "" {
        return None;
      }
      var g := command.header.taskGroupId;
      if g !in redis.groups {
        return Some(FAILED);
      }
      if redis.groups[g].aborted {
        return Some(GROUP_ABORTED);
      }
      redis.HSetResult(g, command.header.parentMessageId, ResultOf(command));
      var counted := redis.groups[g].completed + 1;
      redis.groups := redis.groups[g := redis.groups[g].(completed := counted)];
      if counted < redis.groups[g].total {
        return Some(WAITING_FOR_GROUP);
      }
      return None;
    }

    /** Drives a context through what the handler asked of it. */
    method Drive(context: AgentContext, ops: seq<Op>, now: int)
      requires context.redis == redis && context.Valid()
      modifies context, redis
      ensures context.Valid()
      ensures (redis.View(), context.Snapshot()) == RunOps(old(redis.View()), old(context.Snapshot()), ops, now)
    {
      hide RunOp;
      for i := 0 to |ops|
        invariant context.Valid()
        invariant (redis.View(), context.Snapshot()) == RunOps(old(redis.View()), old(context.Snapshot()), ops[..i],
                                                               now)
      {
        assert ops[..i + 1][..i] == ops[..i] && ops[..i + 1][i] == ops[i];
        match ops[i] {
          case CallAgent(_, _, _, _, _, _, _, _, _, _) => context.Call(ops[i], now);
          case AskUser(_) => context.Ask(ops[i], now);
          case DispatchGroup(_, _, _, _, _) => context.FanOutGroup(ops[i], now);
        }
      }
      assert ops[..|ops|] == ops;
    }

    /** `flushPendingGroupReplies`. */
    method FlushPending(context: AgentContext)
      requires context.redis == redis
      modifies context`pendingGroupReplies, redis
      ensures redis.View() == Flush(old(redis.View()), old(context.pendingGroupReplies))
      ensures context.pendingGroupReplies == []
    {
      var replies := context.TakePendingGroupReplies();
      for i := 0 to |replies|
        invariant redis.View() == Flush(old(redis.View()), replies[..i])
        invariant context.pendingGroupReplies == []
      {
        assert replies[..i + 1][..i] == replies[..i] && replies[..i + 1][i] == replies[i];
        redis.XAdd(replies[i].header.targetAgentType, replies[i]);
      }
      assert replies[..|replies|] == replies;
    }

    method Cancel(env: Env, command: Command, owed: Option<Header>, reason: string) returns (reply: Option<Command>)
      requires env.workerId == workerId
      modifies redis
      ensures forall entered ::
                CancelPath(old(redis.View()), env, command, owed, entered, reason) == Outcome(redis.View(), CANCELLED,
                    entered, reply)
    {
      if owed.None? {
        return None;
      }
      if owed.value.parentMessageId != "" {
        var caller := redis.GetExecutionByMessageId(owed.value.parentMessageId, command.header.sessionId);
        if caller.Some? && caller.value.cancelRequested {
          return None;
        }
      }
      var sent := EnqueueAgentReturn(env, owed.value, FailureResult(CANCELLED, "reason", reason));
      return Some(sent);
    }

    method Run(env: Env, command: Command, existing: Option<Record>, handler: Handler)
      returns (status: string, entered: Option<Command>, reply: Option<Command>)
      requires env.workerId == workerId
      modifies redis
      ensures RunHandler(old(redis.View()), env, command, existing, handler) == Outcome(redis.View(), status, entered,
              reply)
    {
      hide RunOps, Flush, RestoreInbound, ReplyHeader, Replied, CancelPath, IsTerminal;
      var owed := ReplyHeader(command, existing);
      var inbound := RestoreInbound(command, existing);
      entered := Some(inbound);
      reply := None;
      var context := new AgentContext(redis, inbound.header, OrElse(inbound.header.traceId, env.mintedTrace),
                                      !inbound.Ask?);
      assert context.Snapshot() == ContextFor(env, inbound);
      Drive(context, handler.ops, env.now);
      match handler.end {
        case Returns(result) =>
          FlushPending(context);
          var suspended := context.isSuspended && !IsTerminal(result.status);
          var final := if suspended then result.(status := context.suspendedState) else result;
          status := final.status;
          if owed.Some? && !suspended {
            var sent := EnqueueAgentReturn(env, owed.value, final);
            reply := Some(sent);
          }
        case Throws(error) =>
          status := FAILED;
          if owed.Some? {
            var sent := EnqueueAgentReturn(env, owed.value, FailureResult(FAILED, "error", error));
            reply := Some(sent);
          }
        case Cancels(reason) =>
          status := CANCELLED;
          reply := Cancel(env, command, owed, reason);
      }
    }

    method Handle(env: Env, command: Command, existing: Option<Record>, handler: Handler)
      returns (status: string, entered: Option<Command>, reply: Option<Command>)
      requires env.workerId == workerId
      modifies redis
      ensures HandleMessage(old(redis.View()), env, command, existing, handler) == Outcome(redis.View(), status,
              entered, reply)
    {
      hide RunHandler, CancelPath, ReplyHeader, JoinReply;
      if existing.Some? && existing.value.cancelRequested {
        var owed := ReplyHeader(command, existing);
        reply := Cancel(env, command, owed, OrElse(existing.value.cancelReason, "task cancelled before processing"));
        return CANCELLED, None, reply;
      }
      var stop := JoinGroup(command);
      if stop.Some? {
        return stop.value, None, None;
      }
      status, entered, reply := Run(env, command, existing, handler);
    }
  }
}
