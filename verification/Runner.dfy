/** One message through a worker (`src/runner.ts`): the gate, the execution record, the handler. */
module Runner {
  import opened Protocol
  import opened WaitIndex
  import opened WaitGate
  import opened Store
  import opened Builders
  import opened Dispatch
  import opened Worker

  datatype Report =
    | Denied(member: string)
    | Replayed
    | CancelledUnstarted
    | Handled(status: string, entered: Option<Command>, reply: Option<Command>)

  /** The session history rides in the payload the handler sees. */
  function WithHistory(command: Command, history: Json): Command {
    match command
    case Ask(h, content, wait, extra) => Ask(h, content, wait, extra["history" := history])
    case Resume(h, content, status, replyData, extra) => Resume(h, content, status, replyData,
                                                                extra["history" := history])
  }

  /** The record while its execution runs. Only a dispatch writes metadata: a waking message would overwrite the
      original. */
  function RunningRecord(r: Record, env: Env, command: Command): Record {
    r.(status := RUNNING, workerId := env.workerId, metadata := if command.Ask? then command.header.metadata
       else r.metadata)
  }

  /** The record of an execution nobody recorded before; it names no caller. */
  function NewRecord(env: Env, command: Command): Record {
    var h := command.header;
    Record(OrElse(h.traceId, env.mintedId), h.messageId, h.parentMessageId, h.sessionId, "", "", "", h.targetAgentType,
           env.workerId, RUNNING, h.metadata, env.now, false, "")
  }

  function KeyOf(command: Command): (string, string) {
    (command.header.sessionId, command.header.messageId)
  }

  /** `markExecutionFinished`, found by the execution the message belongs to. */
  function Finish(db: Db, key: (string, string), status: string): Db {
    if key.0 != "" && key in db.records then db.(records := db.records[key := db.records[key].(status := status)])
        else db
  }

  function Begin(db: Db, env: Env, command: Command, existing: Option<Record>): Db {
    db.(records := db.records[KeyOf(command) := if existing.Some? then RunningRecord(existing.value, env, command)
                              else NewRecord(env, command)])
  }

  function Gated(db: Db, command: Command): (Db, Decision) {
    if command.Ask? then (db, Unregistered)
    else
      var (w, d) := Gate(db.waits, command.header);
      (db.(waits := w), d)
  }

  function Admitted(db: Db, env: Env, raw: Command, handler: Handler): (Db, Report) {
    var command := WithHistory(raw, env.history);
    var key := KeyOf(command);
    var existing := Lookup(db, key.1, key.0);
    if existing.Some? && IsTerminal(existing.value.status) && command.Ask? then (db, Replayed)
    else if existing.Some? && existing.value.cancelRequested &&
        (existing.value.status == "" || existing.value.status == QUEUED)
    then (Finish(db, key, CANCELLED), CancelledUnstarted)
    else
      var o := HandleMessage(Begin(db, env, command, existing), env, command, existing, handler);
      (Finish(o.db, key, o.status), Handled(o.status, o.entered, o.reply))
  }

  /** `processAndAck` for an Ask or a Resume. */
  function Process(db: Db, env: Env, command: Command, handler: Handler): (Db, Report) {
    var (gated, d) := Gated(db, command);
    if !Allows(d) then (gated, Denied(d.member)) else Admitted(gated, env, command, handler)
  }

  /** The branch that finalizes a cancelled execution without telling anybody is guarded by a cancelled record that
      still says queued, or nothing. The module Endings shows that no cancellation leaves such a record. */
  lemma UnstartedCancellationExactly(db: Db, env: Env, command: Command, handler: Handler, r: Record)
    requires Lookup(db, command.header.messageId, command.header.sessionId) == Some(r)
    requires Allows(Gated(db, command).1)
    ensures var (db', report) := Process(db, env, command, handler);
            && (report == CancelledUnstarted <==> r.cancelRequested && (r.status == "" || r.status == QUEUED))
            && (report == CancelledUnstarted ==>
                  && db'.ctrl == db.ctrl && db'.results == db.results
                  && db'.records == db.records[KeyOf(command) := r.(status := CANCELLED)])
  {
    StatusesDiffer();
    hide Gate, HandleMessage, IsTerminal;
  }

  /** Claims the wait a reply resolves. */
  method ConsumeWaitEntry(redis: Redis, h: Header) returns (d: Decision)
    modifies redis
    ensures Gate(old(redis.View()).waits, h) == (redis.View().waits, d)
    ensures redis.View() == old(redis.View()).(waits := redis.View().waits)
  {
    hide EncodeMember;
    var candidates := CandidateMembers(h);
    for k := 0 to |candidates|
      invariant redis.View() == old(redis.View())
      invariant GateOn(old(redis.View()).waits, candidates) == GateOn(old(redis.View()).waits, candidates[k..])
    {
      var member := candidates[k];
      assert candidates[k..][1..] == candidates[k + 1..];
      var removed := redis.ZRem(member);
      if removed > 0 {
        redis.markers := redis.markers + {member};
        return Claimed(member);
      }
      assert redis.index == old(redis.index);
      if member in redis.markers {
        return AlreadyConsumed(member);
      }
    }
    assert candidates[|candidates|..] == [];
    return Unregistered;
  }

  class WorkerRunner {
    const worker: GatewayWorker

    constructor (worker: GatewayWorker)
      ensures this.worker == worker
    {
      this.worker := worker;
    }

    method MarkFinished(key: (string, string), status: string)
      modifies worker.redis
      ensures worker.redis.View() == Finish(old(worker.redis.View()), key, status)
    {
      var redis := worker.redis;
      if key.0 != "" && key in redis.records {
        redis.records := redis.records[key := redis.records[key].(status := status)];
      }
    }

    method ProcessAndAck(env: Env, message: Command, handler: Handler) returns (report: Report)
      requires env.workerId == worker.workerId
      modifies worker.redis
      ensures Process(old(worker.redis.View()), env, message, handler) == (worker.redis.View(), report)
    {
      hide Gate, HandleMessage;
      var redis := worker.redis;
      if message.Resume? {
        var d := ConsumeWaitEntry(redis, message.header);
        if !Allows(d) {
          return Denied(d.member);
        }
      }
      var command := WithHistory(message, env.history);
      var key := KeyOf(command);
      var existing := redis.GetExecutionByMessageId(key.1, key.0);
      if existing.Some? && IsTerminal(existing.value.status) && command.Ask? {
        return Replayed;
      }
      if existing.Some? && existing.value.cancelRequested &&
          (existing.value.status == "" || existing.value.status == QUEUED) {
        MarkFinished(key, CANCELLED);
        return CancelledUnstarted;
      }
      redis.records := redis.records[key := if existing.Some? then RunningRecord(existing.value, env, command)
                                     else NewRecord(env, command)];
      var status, entered, reply := worker.Handle(env, command, existing, handler);
      MarkFinished(key, status);
      return Handled(status, entered, reply);
    }
  }
}
