/** Who is answered, with what, over every tree of calls and every number of suspensions
    (`src/worker.ts`, `src/runner.ts`, `src/dispatch/`). */
module CallTree {
  import opened Protocol
  import opened WaitIndex
  import opened WaitGate
  import opened Store
  import opened Builders
  import opened Dispatch
  import opened Worker
  import opened Runner
  import Cancellation

  type Key = (string, string)

  /** The dispatch headers sent so far, kept beside the store to say what each execution was asked, and
      by whom; `started` holds the executions whose own dispatch a worker has begun to run. */
  datatype Tree = Tree(db: Db, asks: map<Key, Header>, started: set<Key>)

  function AskKey(h: Header): Key {
    (h.sessionId, h.messageId)
  }

  /** The wait a dispatch with this header stands for. */
  function WaitFor(h: Header): Member {
    Member(h.sessionId, h.parentMessageId, h.messageId, h.taskGroupId)
  }

  // ----- what a handler's operations dispatch -----

  function Asked(c: Context, op: Op, now: int): seq<Header> {
    match op
    case CallAgent(_, _, _, _, _, _, _, _, _, a) => if a.Reject? then [] else [SentAsk(InputOf(c, op), a).header]
    case AskUser(_) => []
    case DispatchGroup(tasks, _, _, _, _) => AskedMembers(FanOutOf(c, op, now), tasks)
  }

  function AskedMembers(f: FanOut, tasks: seq<GroupTask>): seq<Header> {
    if tasks == [] then []
    else
      var last := tasks[|tasks| - 1];
      AskedMembers(f, tasks[..|tasks| - 1]) + if Undispatched(f, last) then [] else [MemberAsk(f, last).header]
  }

  function Put(asks: map<Key, Header>, headers: seq<Header>): map<Key, Header> {
    if headers == [] then asks
    else
      var last := headers[|headers| - 1];
      Put(asks, headers[..|headers| - 1])[AskKey(last) := last]
  }

  function AskedBy(asks: map<Key, Header>, c: Context, ops: seq<Op>, now: int): map<Key, Header> {
    if ops == [] then asks else Put(AskedBy(asks, c, ops[..|ops| - 1], now), Asked(c, ops[|ops| - 1], now))
  }

  /** Minted ids are new: no record exists under them yet. */
  ghost predicate FreshTasks(db: Db, f: FanOut, tasks: seq<GroupTask>) {
    && (forall t :: t in tasks ==> (f.c.sessionId, t.messageId) !in db.records)
    && (forall i, j :: 0 <= i < j < |tasks| ==> tasks[i].messageId != tasks[j].messageId)
  }

  ghost predicate FreshOp(db: Db, c: Context, op: Op, now: int) {
    match op
    case CallAgent(_, _, _, _, _, id, _, _, _, _) => (c.sessionId, id) !in db.records
    case AskUser(_) => true
    case DispatchGroup(tasks, _, _, _, _) => FreshTasks(db, FanOutOf(c, op, now), tasks)
  }

  ghost predicate FreshOps(db: Db, c: Context, ops: seq<Op>, now: int) {
    ops == [] ||
    (FreshOps(db, c, ops[..|ops| - 1], now) &&
     FreshOp(RunOps(db, c, ops[..|ops| - 1], now).0, RunOps(db, c, ops[..|ops| - 1], now).1, ops[|ops| - 1], now))
  }

  // ----- the invariant -----

  /** What a record must still say about the dispatch that created it. A client's own dispatch records no metadata
      until a worker first runs that dispatch. */
  ghost predicate Remembers(r: Record, h: Header, started: bool) {
    && (if h.sourceAgentType == "" then r.sourceAgentType == "" || r.sourceAgentType == CLIENT
        else
          r.sourceAgentType == h.sourceAgentType && r.parentMessageId == h.parentMessageId &&
          r.taskGroupId == h.taskGroupId)
    && (r.metadata == h.metadata || (r.sourceAgentType == CLIENT && !started))
  }

  ghost predicate Faithful(t: Tree) {
    && t.started <= t.asks.Keys
    && forall k :: k in t.asks ==>
         && AskKey(t.asks[k]) == k && k.0 != "" && t.asks[k].sourceAgentType != CLIENT
         && k in t.db.records && Remembers(t.db.records[k], t.asks[k], k in t.started)
  }

  lemma RecordKeepsFaith(t: Tree, k: Key, r: Record)
    requires Faithful(t) && (k in t.asks ==> Remembers(r, t.asks[k], k in t.started))
    ensures Faithful(t.(db := t.db.(records := t.db.records[k := r])))
  {
  }

  lemma AskKeepsFaith(t: Tree, h: Header)
    requires Faithful(t) && h.sessionId != "" && h.sourceAgentType != CLIENT
    requires AskKey(h) in t.db.records && Remembers(t.db.records[AskKey(h)], h, AskKey(h) in t.started)
    ensures Faithful(t.(asks := t.asks[AskKey(h) := h]))
  {
  }

  lemma SameRecordsSameFaith(t: Tree, db: Db)
    requires Faithful(t) && db.records == t.db.records
    ensures Faithful(t.(db := db))
  {
  }

  /** A dispatch writes a record that remembers its header, under a new key. */
  lemma DispatchKeepsFaith(t: Tree, db: Db, h: Header, r: Record)
    requires Faithful(t) && AskKey(h) !in t.db.records && h.sessionId != "" && h.sourceAgentType != CLIENT &&
             Remembers(r, h, AskKey(h) in t.started)
    requires db.records == t.db.records[AskKey(h) := r]
    ensures Faithful(t.(db := db, asks := t.asks[AskKey(h) := h]))
  {
    RecordKeepsFaith(t, AskKey(h), r);
    SameRecordsSameFaith(t.(db := t.db.(records := t.db.records[AskKey(h) := r])), db);
    AskKeepsFaith(t.(db := db), h);
  }

  /** A record under a new key that no dispatch stands behind. */
  lemma SpareRecordKeepsFaith(t: Tree, db: Db, k: Key, r: Record)
    requires Faithful(t) && k !in t.db.records && db.records == t.db.records[k := r]
    ensures Faithful(t.(db := db))
  {
    RecordKeepsFaith(t, k, r);
    SameRecordsSameFaith(t.(db := t.db.(records := t.db.records[k := r])), db);
  }

  lemma MemberKeepsFaith(t: Tree, f: FanOut, task: GroupTask)
    requires Faithful(t) && (f.c.sessionId, task.messageId) !in t.db.records && f.c.sessionId != "" &&
             f.c.agentType != CLIENT
    ensures var h := MemberAsk(f, task).header;
            Faithful(t.(db := DispatchMember(t.db, f, task), asks := if Undispatched(f, task) then t.asks
                        else t.asks[AskKey(h) := h]))
    ensures DispatchMember(t.db, f, task).records.Keys == t.db.records.Keys + {(f.c.sessionId, task.messageId)}
    ensures DispatchMember(t.db, f, task).groups == t.db.groups
  {
    hide Faithful, EncodeMember;
    var h := MemberAsk(f, task).header;
    var db := DispatchMember(t.db, f, task);
    if Undispatched(f, task) {
      SpareRecordKeepsFaith(t, db, AskKey(h), RecordFor(h, f.c.agentType, FAILED, task.executionId, f.now));
    } else {
      DispatchKeepsFaith(t, db, h, RecordFor(h, h.sourceAgentType, QUEUED, task.executionId, f.now));
    }
  }

  lemma {:induction false} MembersKeepFaith(t: Tree, f: FanOut, tasks: seq<GroupTask>)
    requires Faithful(t) && FreshTasks(t.db, f, tasks) && f.c.sessionId != "" && f.c.agentType != CLIENT
    ensures Faithful(t.(db := DispatchMembers(t.db, f, tasks), asks := Put(t.asks, AskedMembers(f, tasks))))
    ensures forall k :: k in DispatchMembers(t.db, f, tasks).records.Keys ==>
              k in t.db.records.Keys || exists i :: 0 <= i < |tasks| && k == (f.c.sessionId, tasks[i].messageId)
  {
    hide Faithful, DispatchMember, MemberAsk;
    if tasks != [] {
      var n := |tasks| - 1;
      var task := tasks[n];
      assert FreshTasks(t.db, f, tasks[..n]) by {
        assert forall x :: x in tasks[..n] ==> x in tasks;
      }
      MembersKeepFaith(t, f, tasks[..n]);
      var before := DispatchMembers(t.db, f, tasks[..n]);
      var headers := AskedMembers(f, tasks[..n]);
      assert task in tasks;
      MemberKeepsFaith(t.(db := before, asks := Put(t.asks, headers)), f, task);
      if Undispatched(f, task) {
        assert headers + [] == headers;
      } else {
        var all := headers + [MemberAsk(f, task).header];
        assert all[..|all| - 1] == headers;
      }
    }
  }

  lemma OpKeepsFaith(t: Tree, c: Context, op: Op, now: int)
    requires Faithful(t) && FreshOp(t.db, c, op, now) && c.sessionId != "" && c.agentType != CLIENT
    ensures Faithful(t.(db := RunOp(t.db, c, op, now).0, asks := Put(t.asks, Asked(c, op, now))))
  {
    hide Faithful, EncodeMember, DispatchMembers;
    match op
    case CallAgent(_, _, _, _, _, _, _, _, executionId, a) =>
      var db' := RunOp(t.db, c, op, now).0;
      if a.Reject? {
        var h := BuildAsk(InputOf(c, op)).header;
        SpareRecordKeepsFaith(t, db', AskKey(h), RecordFor(h, h.sourceAgentType, FAILED, executionId, now));
      } else {
        var h := SentAsk(InputOf(c, op), a).header;
        assert [h][..0] == [];
        assert Put(t.asks, [h]) == t.asks[AskKey(h) := h];
        DispatchKeepsFaith(t, db', h, RecordFor(h, h.sourceAgentType, QUEUED, executionId, now));
      }
    case AskUser(_) => SameRecordsSameFaith(t, RunOp(t.db, c, op, now).0);
    case DispatchGroup(tasks, _, _, _, _) =>
      if tasks != [] {
        var f := FanOutOf(c, op, now);
        SameRecordsSameFaith(t, OpenGroup(t.db, f, |tasks|));
        MembersKeepFaith(t.(db := OpenGroup(t.db, f, |tasks|)), f, tasks);
      }
  }

  lemma {:induction false} OpsKeepFaith(t: Tree, c: Context, ops: seq<Op>, now: int)
    requires Faithful(t) && FreshOps(t.db, c, ops, now) && c.sessionId != "" && c.agentType != CLIENT
    ensures var (db', c') := RunOps(t.db, c, ops, now);
            && Faithful(t.(db := db', asks := AskedBy(t.asks, c, ops, now)))
            && c'.(suspendedState := c.suspendedState, transferred := c.transferred, pending := c.pending) == c
  {
    hide RunOp, Faithful, Put, Asked;
    if ops != [] {
      var n := |ops| - 1;
      OpsKeepFaith(t, c, ops[..n], now);
      var (db1, c1) := RunOps(t.db, c, ops[..n], now);
      OpKeepsFaith(t.(db := db1, asks := AskedBy(t.asks, c, ops[..n], now)), c1, ops[n], now);
      AskedIgnoresProgress(c, c1, ops[n], now);
      RunOpContext(db1, c1, ops[n], now);
    }
  }

  lemma {:induction false} AskedMembersIgnoreProgress(f: FanOut, g: FanOut, tasks: seq<GroupTask>)
    requires g == f.(c := g.c)
    requires g.c.(suspendedState := f.c.suspendedState, transferred := f.c.transferred, pending := f.c.pending) == f.c
    ensures AskedMembers(f, tasks) == AskedMembers(g, tasks)
  {
    if tasks != [] {
      AskedMembersIgnoreProgress(f, g, tasks[..|tasks| - 1]);
    }
  }

  lemma AskedIgnoresProgress(c: Context, d: Context, op: Op, now: int)
    requires d.(suspendedState := c.suspendedState, transferred := c.transferred, pending := c.pending) == c
    ensures Asked(c, op, now) == Asked(d, op, now)
  {
    if op.DispatchGroup? {
      AskedMembersIgnoreProgress(FanOutOf(c, op, now), FanOutOf(d, op, now), op.tasks);
    }
  }

  // ----- one run -----

  /** Whether the run of a handler that ended this way sends a reply, given that one is owed. */
  ghost predicate Answers(db: Db, c: Context, h: Header, end: End) {
    match end
    case Returns(result) => !StaysSuspended(c, result)
    case Throws(_) => true
    case Cancels(_) => !CallerCancelled(db, h)
  }

  predicate CallerCancelled(db: Db, h: Header) {
    var caller := Lookup(db, h.parentMessageId, h.sessionId);
    h.parentMessageId != "" && caller.Some? && caller.value.cancelRequested
  }

  /** The only part of a reply's metadata that is not the dispatch's: what the handler's result carries. */
  function ResultMetadata(end: End): Meta {
    if end.Returns? then end.result.metadata else map[]
  }

  /** A reply that answers the dispatch `h`: addressed to its sender, under its ids and group. */
  ghost predicate RepliesTo(reply: Command, h: Header, env: Env) {
    && reply.Resume?
    && reply.header.targetAgentType == h.sourceAgentType
    && reply.header.sessionId == h.sessionId
    && reply.header.messageId == OrElse(h.parentMessageId, env.mintedId)
    && reply.header.parentMessageId == h.messageId
    && reply.header.taskGroupId == h.taskGroupId
  }

  /** The message concerns the dispatch `h`: a delivery of it, or any resume of its execution. */
  predicate Concerns(command: Command, h: Header) {
    if command.Ask? then command.header == h else AskKey(command.header) == AskKey(h)
  }

  /** The header a reply is built from names the original dispatcher, whatever woke the execution. */
  lemma OwedToTheDispatcher(command: Command, r: Record, h: Header, started: bool)
    requires Concerns(command, h) && Remembers(r, h, started) && h.sourceAgentType != CLIENT
    ensures var owed := ReplyHeader(command, Some(r));
            && (owed.Some? <==> h.sourceAgentType != "")
            && (owed.Some? ==>
                  && owed.value.sourceAgentType == h.sourceAgentType && owed.value.parentMessageId == h.parentMessageId
                  && owed.value.taskGroupId == h.taskGroupId && owed.value.messageId == h.messageId
                  && owed.value.sessionId == h.sessionId && owed.value.metadata == h.metadata)
  {
  }

  // ----- what a reply says -----

  /** What the caller reads: the result the handler returned, the error it threw, or the reason it was cancelled for. */
  ghost predicate Tells(reply: Command, end: End) {
    && reply.Resume?
    && match end
       case Returns(result) =>
         && reply.status == result.status && reply.replyData == result.replyData
         && reply.extraPayload == result.extraPayload
         && reply.content == if result.content == JNull then JText("") else result.content
       case Throws(error) =>
         && reply.status == "FAILED" && reply.replyData == JObject(map["error" := JText(error)])
         && reply.content == JText("") && reply.extraPayload == map[]
       case Cancels(reason) =>
         && reply.status == "CANCELLED" && reply.replyData == JObject(map["reason" := JText(reason)])
         && reply.content == JText("") && reply.extraPayload == map[]
  }

  /** The agent that handled `command`, by its type or else by its worker, in the same trace and for the same user. */
  predicate SentBy(reply: Command, command: Command, env: Env) {
    && reply.header.sourceAgentType == (if command.header.targetAgentType != "" then command.header.targetAgentType
                                        else env.workerId)
    && reply.header.traceId == command.header.traceId
    && reply.header.userCode == command.header.userCode && reply.header.userName == command.header.userName
  }

  /** The outcome's reply, if any, tells how it ended, and the status recorded is the one it tells. */
  ghost predicate SaysHowItEnded(o: Outcome, command: Command, env: Env, end: End) {
    o.reply.Some? ==> Tells(o.reply.value, end) && SentBy(o.reply.value, command, env) &&
                      o.status == o.reply.value.status
  }

  lemma SilenceSaysNothing(o: Outcome, command: Command, env: Env, end: End)
    requires o.reply.None?
    ensures SaysHowItEnded(o, command, env, end)
  {
  }

  lemma OwedInTheSameTrace(command: Command, existing: Option<Record>)
    ensures var owed := ReplyHeader(command, existing);
            owed.Some? ==>
              && owed.value.traceId == command.header.traceId
              && owed.value.targetAgentType == command.header.targetAgentType
              && owed.value.userCode == command.header.userCode && owed.value.userName == command.header.userName
  {
  }

  lemma RepliedSays(db: Db, env: Env, command: Command, h: Header, entered: Option<Command>, result: TaskResult)
    requires h.traceId == command.header.traceId && h.targetAgentType == command.header.targetAgentType
    requires h.userCode == command.header.userCode && h.userName == command.header.userName
    ensures SaysHowItEnded(Replied(db, env, h, result.status, entered, result), command, env, Returns(result))
  {
  }

  lemma CancelSays(db: Db, env: Env, command: Command, existing: Option<Record>, entered: Option<Command>,
                   reason: string)
    ensures SaysHowItEnded(CancelPath(db, env, command, ReplyHeader(command, existing), entered, reason), command, env,
                           Cancels(reason))
  {
    hide ReplyHeader, Replied;
    OwedInTheSameTrace(command, existing);
    var owed := ReplyHeader(command, existing);
    if owed.Some? {
      RepliedSays(db, env, command, owed.value, entered, FailureResult(CANCELLED, "reason", reason));
    }
  }

  lemma RunSays(db: Db, env: Env, command: Command, existing: Option<Record>, handler: Handler)
    ensures SaysHowItEnded(RunHandler(db, env, command, existing, handler), command, env, handler.end)
  {
    hide RunOps, Flush, RestoreInbound, ReplyHeader, Replied, CancelPath;
    OwedInTheSameTrace(command, existing);
    var owed := ReplyHeader(command, existing);
    var entered := Some(RestoreInbound(command, existing));
    var (db1, c) := RunOps(db, ContextFor(env, RestoreInbound(command, existing)), handler.ops, env.now);
    match handler.end
    case Returns(result) =>
      if owed.Some? && !StaysSuspended(c, result) {
        RepliedSays(Flush(db1, c.pending), env, command, owed.value, entered, result);
      }
    case Throws(error) =>
      if owed.Some? {
        RepliedSays(db1, env, command, owed.value, entered, FailureResult(FAILED, "error", error));
      }
    case Cancels(reason) => CancelSays(db1, env, command, existing, entered, reason);
  }

  /** Everything is said in this order: what the handler's own requests sent, the queued stand-ins if it returned, and
      last its reply. */
  ghost predicate Appends(before: seq<Posted>, after: seq<Posted>, sent: seq<Command>) {
    && |after| == |before| + |sent| && before <= after
    && forall i :: 0 <= i < |sent| ==> after[|before| + i] == Posted(sent[i].header.targetAgentType, sent[i])
  }

  lemma {:induction false} FlushAppends(db: Db, replies: seq<Command>)
    ensures Appends(db.ctrl, Flush(db, replies).ctrl, replies)
    ensures Flush(db, replies) == db.(ctrl := Flush(db, replies).ctrl)
  {
    if replies != [] {
      FlushAppends(db, replies[..|replies| - 1]);
    }
  }

  /** What one answered run adds to the store. */
  lemma SendFrame(db: Db, env: Env, h: Header, status: string, entered: Option<Command>, result: TaskResult)
    ensures var o := Replied(db, env, h, status, entered, result);
            && o.reply.Some? && o.entered == entered && o.reply.value.Resume?
            && o.reply.value.header.targetAgentType == h.sourceAgentType
            && o.reply.value.header.sessionId == h.sessionId
            && o.reply.value.header.messageId == OrElse(h.parentMessageId, env.mintedId)
            && o.reply.value.header.parentMessageId == h.messageId
            && o.reply.value.header.taskGroupId == h.taskGroupId
            && o.reply.value.header.metadata == h.metadata + result.metadata
            && o.db == db.(ctrl := db.ctrl + [Posted(h.sourceAgentType, o.reply.value)], results := o.db.results)
  {
  }

  /** The store a run leaves before any return is sent. */
  function Left(db1: Db, c: Context, end: End): Db {
    if end.Returns? then Flush(db1, c.pending) else db1
  }

  /** The handler's run answers exactly when it ends, to exactly its dispatcher, with the dispatch metadata overlaid
      by its own result's and nothing of the waking message. */
  lemma HandlerAnswers(db: Db, env: Env, command: Command, r: Record, h: Header, started: bool, handler: Handler)
    requires Concerns(command, h) && Remembers(r, h, started) && h.sourceAgentType != CLIENT
    ensures var o := RunHandler(db, env, command, Some(r), handler);
            var (db1, c) := RunOps(db, ContextFor(env, RestoreInbound(command, Some(r))), handler.ops, env.now);
            var sent := Left(db1, c, handler.end);
            && (o.reply.Some? <==> h.sourceAgentType != "" && Answers(db1, c, h, handler.end))
            && (o.reply.Some? ==>
                  && RepliesTo(o.reply.value, h, env)
                  && o.reply.value.header.metadata == h.metadata + ResultMetadata(handler.end)
                  && o.db.ctrl == sent.ctrl + [Posted(h.sourceAgentType, o.reply.value)])
            && (o.reply.None? ==> o.db == sent)
            && o.entered == Some(RestoreInbound(command, Some(r)))
            && o.db == sent.(ctrl := o.db.ctrl, results := o.db.results)
            && SaysHowItEnded(o, command, env, handler.end)
  {
    hide RunOps, Flush, RestoreInbound, ReplyHeader, Replied, SaysHowItEnded;
    RunSays(db, env, command, Some(r), handler);
    OwedToTheDispatcher(command, r, h, started);
    var owed := ReplyHeader(command, Some(r));
    var entered := Some(RestoreInbound(command, Some(r)));
    var (db1, c) := RunOps(db, ContextFor(env, RestoreInbound(command, Some(r))), handler.ops, env.now);
    assert h.metadata + map[] == h.metadata;
    if owed.Some? {
      match handler.end
      case Returns(result) =>
        var final := result.(status := FinalStatus(c, result));
        SendFrame(Flush(db1, c.pending), env, owed.value, final.status, entered, final);
      case Throws(error) => SendFrame(db1, env, owed.value, FAILED, entered, FailureResult(FAILED, "error", error));
      case Cancels(reason) => SendFrame(db1, env, owed.value, CANCELLED, entered,
                                        FailureResult(CANCELLED, "reason", reason));
    }
  }

  // ----- runs of the whole system -----

  datatype Event =
    | ClientSend(header: Header, stream: string, command: Command, executionId: string, now: int)
    | Deliver(env: Env, command: Command, handler: Handler)
    | RequestCancel(key: Key, byWorker: bool, reason: string)
    | Elsewhere(db: Db)

  /** `RequestCancel` is the mark a cancellation leaves: a client's lets a terminal status stand and makes any other
      CANCELLING, a worker's carrying out the order always writes CANCELLING. `Elsewhere` stands for whatever leaves the
      execution records alone: sweeps, prunes, claims, expiry. */
  ghost predicate Possible(t: Tree, e: Event) {
    match e
    case ClientSend(h, _, _, _, _) => h.sourceAgentType == "" && h.taskGroupId == "" && h.sessionId != "" &&
        AskKey(h) !in t.db.records
    case Deliver(env, command, handler) =>
      && (exists k :: k in t.asks && Concerns(command, t.asks[k]))
      && command.header.targetAgentType != CLIENT
      && MintsNew(t.db, env, command, handler)
    case RequestCancel(_, _, _) => true
    case Elsewhere(db) => db.records == t.db.records
  }

  function Existing(db: Db, command: Command): Option<Record> {
    Lookup(db, command.header.messageId, command.header.sessionId)
  }

  /** The store a handler's run starts from. */
  function Entry(db: Db, env: Env, command: Command): Db {
    var gated := Gated(db, command).0;
    var full := WithHistory(command, env.history);
    JoinReply(Begin(gated, env, full, Existing(db, command)), full).0
  }

  /** The ids the handler mints, if it is entered, are new. */
  ghost predicate MintsNew(db: Db, env: Env, command: Command, handler: Handler) {
    var inbound := RestoreInbound(WithHistory(command, env.history), Existing(db, command));
    FreshOps(Entry(db, env, command), ContextFor(env, inbound), handler.ops, env.now)
  }

  ghost function After(t: Tree, e: Event): Tree {
    match e
    case ClientSend(h, stream, command, executionId, now) =>
      t.(db := Post(PutRecord(t.db, RecordFor(h, CLIENT, QUEUED, executionId, now).(metadata := map[])), stream,
                    command),
         asks := t.asks[AskKey(h) := h])
    case Deliver(env, command, handler) =>
      var (db, report) := Process(t.db, env, command, handler);
      Tree(db,
           if report.Handled? && report.entered.Some?
           then AskedBy(t.asks, ContextFor(env, report.entered.value), handler.ops, env.now) else t.asks,
           if report.Handled? && command.Ask? then t.started + {KeyOf(command)} else t.started)
    case RequestCancel(k, byWorker, reason) =>
      if k in t.db.records then t.(db := t.db.(records :=
                                               t.db.records[k := MarkedBy(t.db.records[k], byWorker, reason)]))
      else t
    case Elsewhere(db) => t.(db := db)
  }

  function MarkedBy(r: Record, byWorker: bool, reason: string): Record {
    if byWorker then Cancellation.MarkedCancelling(r, reason) else Cancellation.Mark(r, reason)
  }

  /** Cancelled, by its flag, while no worker has picked it up, by its status. */
  predicate Unstarted(r: Record) {
    r.cancelRequested && (r.status == "" || r.status == QUEUED)
  }

  ghost predicate NoneUnstarted(db: Db) {
    forall k :: k in db.records ==> !Unstarted(db.records[k])
  }

  ghost predicate Run(trees: seq<Tree>, events: seq<Event>) {
    && |trees| == |events| + 1
    && Faithful(trees[0]) && NoneUnstarted(trees[0].db)
    && forall i :: 0 <= i < |events| ==> Possible(trees[i], events[i]) && trees[i + 1] == After(trees[i], events[i])
  }

  lemma CancelOnlySends(db: Db, env: Env, command: Command, owed: Option<Header>, entered: Option<Command>,
                        reason: string)
    ensures var o := CancelPath(db, env, command, owed, entered, reason);
            && o.status == CANCELLED && o.entered == entered
            && o.db.records == db.records && o.db.waits == db.waits && o.db.online == db.online
  {
    hide AgentReturn;
  }

  /** Beyond what the handler's operations did, a run changes neither records nor waits. */
  lemma RunOnlySends(db: Db, env: Env, command: Command, existing: Option<Record>, handler: Handler)
    ensures var db1 := RunOps(db, ContextFor(env, RestoreInbound(command, existing)), handler.ops, env.now).0;
            var o := RunHandler(db, env, command, existing, handler);
            o.db.records == db1.records && o.db.waits == db1.waits && o.db.online == db1.online
  {
    hide RunOps, Flush, ReplyHeader, RestoreInbound, Replied, CancelPath, IsTerminal;
    var inbound := RestoreInbound(command, existing);
    var (db1, c) := RunOps(db, ContextFor(env, inbound), handler.ops, env.now);
    var owed := ReplyHeader(command, existing);
    FlushKeepsRecords(db1, c.pending);
    match handler.end
    case Returns(result) =>
      var final := result.(status := FinalStatus(c, result));
      if owed.Some? {
        SendFrame(Flush(db1, c.pending), env, owed.value, final.status, Some(inbound), final);
      }
    case Throws(error) =>
      if owed.Some? {
        SendFrame(db1, env, owed.value, FAILED, Some(inbound), FailureResult(FAILED, "error", error));
      }
    case Cancels(reason) => CancelOnlySends(db1, env, command, owed, Some(inbound), reason);
  }

  lemma HandledKeepsFaith(t: Tree, env: Env, command: Command, r: Record, k: Key, handler: Handler)
    requires Faithful(t) && k in t.asks && Concerns(command, t.asks[k]) && k.0 != ""
    requires Remembers(r, t.asks[k], k in t.started && command.Resume?)
    requires command.header.targetAgentType != CLIENT
    requires FreshOps(JoinReply(t.db, command).0, ContextFor(env, RestoreInbound(command, Some(r))), handler.ops,
                      env.now)
    ensures var o := HandleMessage(t.db, env, command, Some(r), handler);
            Faithful(t.(db := o.db, asks := if o.entered.Some?
                        then AskedBy(t.asks, ContextFor(env, o.entered.value), handler.ops, env.now) else t.asks))
  {
    hide RunOps, Flush, AskedBy, FreshOps, MergeResumeMetadata, RunHandler, Remembers, CancelPath, ReplyHeader;
    var o := HandleMessage(t.db, env, command, Some(r), handler);
    var joined := JoinReply(t.db, command).0;
    SameRecordsSameFaith(t, joined);
    if r.cancelRequested {
      CancelOnlySends(t.db, env, command, ReplyHeader(command, Some(r)), None,
                      OrElse(r.cancelReason, "task cancelled before processing"));
      SameRecordsSameFaith(t, o.db);
    } else if o.entered.Some? {
      HandlerAnswers(joined, env, command, r, t.asks[k], k in t.started && command.Resume?, handler);
      var c := ContextFor(env, RestoreInbound(command, Some(r)));
      OpsKeepFaith(t.(db := joined), c, handler.ops, env.now);
      var (db1, c1) := RunOps(joined, c, handler.ops, env.now);
      FlushKeepsRecords(db1, c1.pending);
      SameRecordsSameFaith(t.(db := db1, asks := AskedBy(t.asks, c, handler.ops, env.now)), o.db);
    } else {
      EnteredUnlessStopped(t.db, env, command, Some(r), handler);
      SameRecordsSameFaith(t, o.db);
    }
  }

  /** A run the handler did not enter was stopped before it: by cancellation or by the group's join. */
  lemma EnteredUnlessStopped(db: Db, env: Env, command: Command, existing: Option<Record>, handler: Handler)
    ensures var o := HandleMessage(db, env, command, existing, handler);
            var stop := JoinReply(db, command).1;
            o.entered.Some? <==> !(existing.Some? && existing.value.cancelRequested) && stop.None?
    ensures var o := HandleMessage(db, env, command, existing, handler);
            !(existing.Some? && existing.value.cancelRequested) && JoinReply(db, command).1.Some? ==>
              o == Outcome(JoinReply(db, command).0, JoinReply(db, command).1.value, None, None)
  {
    hide RunOps, Flush, AgentReturn;
  }

  /** Flushing stand-ins and sending a return touch no record. */
  lemma {:induction false} FlushKeepsRecords(db: Db, replies: seq<Command>)
    ensures Flush(db, replies) == db.(ctrl := Flush(db, replies).ctrl)
  {
    if replies != [] {
      FlushKeepsRecords(db, replies[..|replies| - 1]);
    }
  }

  lemma StatusKeepsFaith(t: Tree, k: Key, status: string)
    requires Faithful(t)
    ensures Faithful(t.(db := Finish(t.db, k, status)))
  {
    if k.0 != "" && k in t.db.records {
      RecordKeepsFaith(t, k, t.db.records[k].(status := status));
    }
  }

  /** Beginning to run an execution keeps what its record must remember, and records a dispatch's metadata. */
  lemma BeginKeepsFaith(t: Tree, env: Env, command: Command, k: Key)
    requires Faithful(t) && k in t.asks && Concerns(command, t.asks[k])
    ensures Existing(t.db, command) == Some(t.db.records[k]) && KeyOf(command) == k
    ensures var t' := Begun(t, env, command);
            Faithful(t') && Remembers(t.db.records[k], t.asks[k], k in t'.started && command.Resume?)
  {
    var r := RunningRecord(t.db.records[k], env, command);
    var t' := Begun(t, env, command);
    assert t'.db.records == t.db.records[k := r];
    assert Remembers(r, t.asks[k], k in t'.started);
  }

  /** The tree once the execution a message concerns has begun to run. */
  function Begun(t: Tree, env: Env, command: Command): Tree {
    Tree(Begin(t.db, env, command, Existing(t.db, command)), t.asks,
         if command.Ask? then t.started + {KeyOf(command)} else t.started)
  }

  lemma DeliverKeepsFaith(t: Tree, env: Env, command: Command, handler: Handler)
    requires Faithful(t) && Possible(t, Deliver(env, command, handler))
    ensures Faithful(After(t, Deliver(env, command, handler)))
  {
    hide RunOps, Flush, Gate, AskedBy, FreshOps, EncodeMember, MergeResumeMetadata, HandleMessage, RunHandler,
         Remembers;
    var k :| k in t.asks && Concerns(command, t.asks[k]);
    var full := WithHistory(command, env.history);
    var gated := t.(db := Gated(t.db, command).0);
    SameRecordsSameFaith(t, gated.db);
    BeginKeepsFaith(gated, env, full, k);
    var r := t.db.records[k];
    var begun := Begun(gated, env, full);
    var o := HandleMessage(begun.db, env, full, Some(r), handler);
    var (db, report) := Process(t.db, env, command, handler);
    if report.Handled? {
      HandledKeepsFaith(begun, env, full, r, k, handler);
      var asks := if o.entered.Some? then AskedBy(t.asks, ContextFor(env, o.entered.value), handler.ops, env.now)
          else t.asks;
      StatusKeepsFaith(begun.(db := o.db, asks := asks), KeyOf(full), o.status);
    } else {
      StatusKeepsFaith(gated, KeyOf(full), CANCELLED);
    }
  }

  lemma EventKeepsFaith(t: Tree, e: Event)
    requires Faithful(t) && Possible(t, e)
    ensures Faithful(After(t, e))
  {
    hide Faithful, Process;
    match e
    case ClientSend(h, stream, command, executionId, now) =>
      var r := RecordFor(h, CLIENT, QUEUED, executionId, now).(metadata := map[]);
      FaithAt(t, AskKey(h));
      DispatchKeepsFaith(t, Post(PutRecord(t.db, r), stream, command), h, r);
    case Deliver(env, command, handler) => DeliverKeepsFaith(t, env, command, handler);
    case RequestCancel(k, byWorker, reason) =>
      if k in t.db.records {
        var r' := MarkedBy(t.db.records[k], byWorker, reason);
        FaithAt(t, k);
        RecordKeepsFaith(t, k, r');
      }
    case Elsewhere(db) => SameRecordsSameFaith(t, db);
  }

  lemma FaithAt(t: Tree, k: Key)
    requires Faithful(t)
    ensures k in t.started ==> k in t.asks
    ensures k in t.asks ==>
              && k in t.db.records && k.0 != "" && AskKey(t.asks[k]) == k && t.asks[k].sourceAgentType != CLIENT
              && Remembers(t.db.records[k], t.asks[k], k in t.started)
  {
  }

  lemma {:induction false} RunsStayFaithful(trees: seq<Tree>, events: seq<Event>, i: nat)
    requires Run(trees, events) && i <= |events|
    ensures Faithful(trees[i])
  {
    hide Faithful, Possible, After;
    if i > 0 {
      RunsStayFaithful(trees, events, i - 1);
      EventKeepsFaith(trees[i - 1], events[i - 1]);
    }
  }

  /** When the run of an admitted message replies, given the dispatch it concerns: `db` is the store in which the
      execution has begun to run. */
  ghost predicate ReplyDue(db: Db, env: Env, command: Command, r: Record, h: Header, handler: Handler) {
    h.sourceAgentType != "" &&
    if r.cancelRequested then !CallerCancelled(db, h)
    else if JoinReply(db, command).1.Some? then false
    else
      var (db1, c) := RunOps(JoinReply(db, command).0, ContextFor(env, RestoreInbound(command, Some(r))), handler.ops,
                             env.now);
      Answers(db1, c, h, handler.end)
  }

  /** The store just before a reply is posted differs from the one after only by that reply (and by the copy of a
      single call's result). */
  ghost predicate PostedLast(db: Db, reply: Command) {
    db.ctrl != [] && db.ctrl[|db.ctrl| - 1] == Posted(reply.header.targetAgentType, reply)
  }

  /** At every step of every run: a message that is handled sends at most one reply; it sends one exactly when its
      dispatcher awaits it and the run ended rather than suspended (or the caller is itself being cancelled); and that
      reply carries the dispatcher's agent type, ids and group, and the dispatch metadata under the result's own; it
      tells the handler's result, its error or the reason of its cancellation, and the status it tells is the one
      recorded. */
  lemma EveryRunAnswersItsDispatcher(trees: seq<Tree>, events: seq<Event>, i: nat, k: Key)
    requires Run(trees, events) && i < |events| && events[i].Deliver?
    requires k in trees[i].asks && Concerns(events[i].command, trees[i].asks[k])
    ensures k in trees[i].db.records
    ensures var Deliver(env, command, handler) := events[i];
            var (h, r, report) := (trees[i].asks[k], trees[i].db.records[k],
                                   Process(trees[i].db, env, command, handler).1);
            report.Handled? ==>
              && (report.reply.Some? <==>
                  ReplyDue(BegunDb(trees[i].db, env, command, r), env, WithHistory(command, env.history), r, h,
                           handler))
              && (report.reply.Some? ==>
                    && RepliesTo(report.reply.value, h, env)
                    && PostedLast(trees[i + 1].db, report.reply.value)
                    && report.reply.value.header.metadata ==
                       h.metadata + (if report.entered.Some? then ResultMetadata(handler.end) else map[])
                    && Tells(report.reply.value, HowItEnded(report.entered, r, handler))
                    && SentBy(report.reply.value, command, env)
                    && report.status == report.reply.value.status)
  {
    hide Faithful, HandleMessage, RepliesTo, Remembers, ReplyDue, Process, BegunDb, Tells;
    RunsStayFaithful(trees, events, i);
    FaithAt(trees[i], k);
    var Deliver(env, command, handler) := events[i];
    var r := trees[i].db.records[k];
    ProcessHandles(trees[i].db, env, command, r, handler);
    HandlingAnswers(BegunDb(trees[i].db, env, command, r), env, WithHistory(command, env.history), r, trees[i].asks[k],
                    k in trees[i].started, handler);
  }

  /** The handler's own end, or that of an execution cancelled before its handler was reached. */
  function HowItEnded(entered: Option<Command>, r: Record, handler: Handler): End {
    if entered.Some? then handler.end
    else Cancels(if r.cancelReason != "" then r.cancelReason else "task cancelled before processing")
  }

  /** The same for one handled message. */
  lemma HandlingAnswers(db: Db, env: Env, command: Command, r: Record, h: Header, started: bool, handler: Handler)
    requires Concerns(command, h) && Remembers(r, h, started) && h.sourceAgentType != CLIENT
    ensures var o := HandleMessage(db, env, command, Some(r), handler);
            && (o.reply.Some? <==> ReplyDue(db, env, command, r, h, handler))
            && (o.reply.Some? ==>
                  && RepliesTo(o.reply.value, h, env)
                  && PostedLast(o.db, o.reply.value)
                  && o.reply.value.header.metadata == h.metadata + (if o.entered.Some? then ResultMetadata(handler.end)
                                                                    else map[]))
            && SaysHowItEnded(o, command, env, HowItEnded(o.entered, r, handler))
  {
    hide RunOps, Flush, RestoreInbound, RunHandler, CancelPath, ReplyHeader, Remembers, SaysHowItEnded;
    var o := HandleMessage(db, env, command, Some(r), handler);
    EnteredUnlessStopped(db, env, command, Some(r), handler);
    if r.cancelRequested {
      CancelSays(db, env, command, Some(r), None, OrElse(r.cancelReason, "task cancelled before processing"));
      CancelAnswers(db, env, command, r, h, started, None, OrElse(r.cancelReason, "task cancelled before processing"));
      assert h.metadata + map[] == h.metadata;
    } else if o.entered.Some? {
      HandlerAnswers(JoinReply(db, command).0, env, command, r, h, started, handler);
    } else {
      SilenceSaysNothing(o, command, env, HowItEnded(o.entered, r, handler));
    }
  }

  lemma ProcessHandles(db: Db, env: Env, command: Command, r: Record, handler: Handler)
    requires Existing(db, command) == Some(r)
    ensures var (db', report) := Process(db, env, command, handler);
            var full := WithHistory(command, env.history);
            var o := HandleMessage(BegunDb(db, env, command, r), env, full, Some(r), handler);
            report.Handled? ==> report == Handled(o.status, o.entered, o.reply) && db'.ctrl == o.db.ctrl
  {
    hide Gate, HandleMessage;
  }

  function BegunDb(db: Db, env: Env, command: Command, r: Record): Db {
    Begin(Gated(db, command).0, env, WithHistory(command, env.history), Some(r))
  }

  /** The pre-processing bail-out of a cancelled execution. */
  lemma CancelAnswers(db: Db, env: Env, command: Command, r: Record, h: Header, started: bool, entered: Option<Command>,
                      reason: string)
    requires Concerns(command, h) && Remembers(r, h, started) && h.sourceAgentType != CLIENT
    ensures var o := CancelPath(db, env, command, ReplyHeader(command, Some(r)), entered, reason);
            && o.entered == entered
            && (o.reply.Some? <==> h.sourceAgentType != "" && !CallerCancelled(db, h))
            && (o.reply.Some? ==>
                  && RepliesTo(o.reply.value, h, env) && o.reply.value.header.metadata == h.metadata
                  && PostedLast(o.db, o.reply.value))
  {
    hide ReplyHeader, Replied;
    OwedToTheDispatcher(command, r, h, started);
    var owed := ReplyHeader(command, Some(r));
    if owed.Some? {
      SendFrame(db, env, owed.value, CANCELLED, entered, FailureResult(CANCELLED, "reason", reason));
      assert h.metadata + map[] == h.metadata;
    }
  }

  // ----- consequences -----

  /** Nobody is answered by an execution a client dispatched or one the call was transferred to. */
  lemma RootsAndTransfersStaySilent(trees: seq<Tree>, events: seq<Event>, i: nat, k: Key)
    requires Run(trees, events) && i < |events| && events[i].Deliver?
    requires k in trees[i].asks && Concerns(events[i].command, trees[i].asks[k]) &&
             trees[i].asks[k].sourceAgentType == ""
    ensures var Deliver(env, command, handler) := events[i];
            var report := Process(trees[i].db, env, command, handler).1;
            report.Handled? ==> report.reply.None?
  {
    hide Process, RunHandler;
    EveryRunAnswersItsDispatcher(trees, events, i, k);
  }

  /** The reply to a waiting dispatch clears exactly the entry that dispatch registered, whoever the callee's run was
      woken by and however often it suspended. */
  lemma ReplyClearsTheRegisteredWait(reply: Command, h: Header, env: Env)
    requires RepliesTo(reply, h, env) && h.parentMessageId != ""
    ensures ResumedMember(reply.header) == WaitFor(h)
    ensures MemberFromResume(reply.header) == EncodeMember(WaitFor(h))
  {
  }

  /** A dispatch that waits registers the wait its own header stands for, before and after a fallback retarget. */
  lemma DispatchRegistersItsWait(db: Db, input: CallInput, a: Availability, executionId: string, now: int)
    requires input.waitForReply && !a.Reject?
    ensures var wait := WaitFor(SentAsk(input, a).header);
            && wait == WaitOf(input) == WaitFor(BuildAsk(input).header)
            && EncodeMember(wait) in Publish(db, input, a, executionId, now).waits.index
            && EncodeMember(wait) !in Publish(db, input, a, executionId, now).waits.markers
  {
    hide EncodeMember;
  }

  /** Likewise for a group member, whether its Ask goes out or a stand-in is queued for it. */
  lemma MemberRegistersItsWait(db: Db, f: FanOut, t: GroupTask)
    requires f.waitForReply
    ensures MemberWait(f, t) == WaitFor(MemberAsk(f, t).header) == ResumedMember(MemberStandIn(f, t).header)
    ensures EncodeMember(MemberWait(f, t)) in DispatchMember(db, f, t).waits.index
    ensures MemberFromResume(MemberStandIn(f, t).header) == EncodeMember(MemberWait(f, t))
  {
    hide EncodeMember;
  }

  /** A resumed handler reads its own dispatch metadata, without the hop keys, under this wake-up's alone: no earlier
      wake-up leaves a trace in it. */
  lemma HandlersReadTheirOwnDispatch(trees: seq<Tree>, events: seq<Event>, i: nat, k: Key)
    requires Run(trees, events) && i < |events| && events[i].Deliver? && events[i].command.Resume?
    requires k in trees[i].asks && Concerns(events[i].command, trees[i].asks[k])
    requires trees[i].asks[k].sourceAgentType != "" || k in trees[i].started
    ensures var Deliver(env, command, handler) := events[i];
            var report := Process(trees[i].db, env, command, handler).1;
            report.Handled? && report.entered.Some? ==>
              report.entered.value.header == command.header.(metadata := WithoutHopKeys(trees[i].asks[k].metadata) +
                                                             command.header.metadata)
  {
    hide Faithful, RunHandler, CancelPath, Gate;
    RunsStayFaithful(trees, events, i);
    FaithAt(trees[i], k);
    var Deliver(env, command, handler) := events[i];
    var full := WithHistory(command, env.history);
    var r := trees[i].db.records[k];
    var begun := Begin(Gated(trees[i].db, command).0, env, full, Some(r));
    EnteredUnlessStopped(begun, env, full, Some(r), handler);
    if !r.cancelRequested {
      EntersInbound(JoinReply(begun, full).0, env, full, Some(r), handler);
    }
  }

  lemma EntersInbound(db: Db, env: Env, command: Command, existing: Option<Record>, handler: Handler)
    ensures RunHandler(db, env, command, existing, handler).entered == Some(RestoreInbound(command, existing))
  {
    hide RunOps, Flush, RestoreInbound, ReplyHeader, AgentReturn;
  }
}
