/** From the dispatch to the stream it goes out on (`src/context.ts`, `src/dispatch/dispatch_ask_agent.ts`): over every
    run, whatever was dispatched was also sent, unless the router kept it. */
module Postings {
  import opened Protocol
  import opened WaitIndex
  import opened WaitGate
  import opened Store
  import opened Builders
  import opened Dispatch
  import opened Worker
  import opened Runner
  import opened CallTree
  import opened Endings
  import opened Requests
  import Registrations

  /** A dispatch with this header went out at position `at` or later. */
  ghost predicate WentOut(ctrl: seq<Posted>, at: nat, h: Header) {
    exists l :: at <= l < |ctrl| && ctrl[l].command.Ask? && ctrl[l].command.header == h
  }

  /** The router keeps the call until its target comes online. */
  ghost predicate Kept(ops: seq<Op>, messageId: string) {
    exists op :: op in ops && op.CallAgent? && op.availability.QueuePending? && op.messageId == messageId
  }

  /** Every dispatch in `asks` is old, kept by the router, or went out. */
  ghost predicate ArePosted(before: map<Key, Header>, asks: map<Key, Header>, at: nat, ctrl: seq<Posted>,
                            ops: seq<Op>) {
    forall k :: k in asks ==> (k in before && before[k] == asks[k]) || Kept(ops, k.1) || WentOut(ctrl, at, asks[k])
  }

  lemma PostingsStand(before: map<Key, Header>, asks: map<Key, Header>, at: nat, ctrl: seq<Posted>, more: seq<Posted>,
                      ops: seq<Op>, later: seq<Op>)
    requires ArePosted(before, asks, at, ctrl, ops) && ctrl <= more && forall op :: op in ops ==> op in later
    ensures ArePosted(before, asks, at, more, later)
  {
    forall k | k in asks && WentOut(ctrl, at, asks[k]) ensures WentOut(more, at, asks[k]) {
      var l :| at <= l < |ctrl| && ctrl[l].command.Ask? && ctrl[l].command.header == asks[k];
      assert more[l] == ctrl[l];
    }
  }

  lemma OneIsPosted(before: map<Key, Header>, asks: map<Key, Header>, at: nat, ctrl: seq<Posted>, ops: seq<Op>,
                    h: Header)
    requires ArePosted(before, asks, at, ctrl, ops) && (Kept(ops, h.messageId) || WentOut(ctrl, at, h))
    ensures ArePosted(before, asks[AskKey(h) := h], at, ctrl, ops)
  {
    hide Kept, WentOut;
  }

  lemma LastWentOut(before: seq<Posted>, after: seq<Posted>, at: nat, stream: string)
    requires OneMore(before, after, stream) && at <= |before| && after[|before|].command.Ask?
    ensures WentOut(after, at, after[|before|].command.header)
  {
  }

  lemma {:induction false} MembersArePosted(before: map<Key, Header>, asks: map<Key, Header>, at: nat, db: Db,
                                            c: Context,
                                            op: Op, tasks: seq<GroupTask>, now: int, ops: seq<Op>)
    requires op.DispatchGroup? && at <= |db.ctrl| && ArePosted(before, asks, at, db.ctrl, ops)
    ensures var db', f := DispatchMembers(db, FanOutOf(c, op, now), tasks), FanOutOf(c, op, now);
            db.ctrl <= db'.ctrl && ArePosted(before, Put(asks, AskedMembers(f, tasks)), at, db'.ctrl, ops)
  {
    hide DispatchMember, MemberAsk, ArePosted, FanOutOf;
    var f := FanOutOf(c, op, now);
    if tasks == [] {
      Registrations.PutNothing(asks);
    } else {
      var n := |tasks| - 1;
      MembersArePosted(before, asks, at, db, c, op, tasks[..n], now, ops);
      var headers := AskedMembers(f, tasks[..n]);
      var mid := DispatchMembers(db, f, tasks[..n]);
      MemberIsPosted(before, Put(asks, headers), at, mid, c, op, tasks[n], now, ops);
      if Undispatched(f, tasks[n]) {
        assert headers + [] == headers;
      } else {
        var all := headers + [MemberAsk(f, tasks[n]).header];
        assert all[..|all| - 1] == headers;
      }
    }
  }

  lemma MemberIsPosted(before: map<Key, Header>, asks: map<Key, Header>, at: nat, db: Db, c: Context, op: Op,
                       t: GroupTask, now: int, ops: seq<Op>)
    requires op.DispatchGroup? && at <= |db.ctrl| && ArePosted(before, asks, at, db.ctrl, ops)
    ensures var db', f := DispatchMember(db, FanOutOf(c, op, now), t), FanOutOf(c, op, now);
            && db.ctrl <= db'.ctrl
            && ArePosted(before, if Undispatched(f, t) then asks
                         else asks[AskKey(MemberAsk(f, t).header) := MemberAsk(f, t).header], at, db'.ctrl, ops)
  {
    hide ArePosted, Registered, RecordFor, WentOut, Kept;
    var f := FanOutOf(c, op, now);
    var db' := DispatchMember(db, f, t);
    MemberIsSent(db, c, op, t, now);
    PostingsStand(before, asks, at, db.ctrl, db'.ctrl, ops, ops);
    if !Undispatched(f, t) {
      LastWentOut(db.ctrl, db'.ctrl, at, t.targetAgentType);
      OneIsPosted(before, asks, at, db'.ctrl, ops, MemberAsk(f, t).header);
    }
  }

  lemma CallIsPosted(before: map<Key, Header>, asks: map<Key, Header>, at: nat, db: Db, c: Context, op: Op, now: int,
                     ops: seq<Op>)
    requires op.CallAgent? && op in ops && at <= |db.ctrl| && ArePosted(before, asks, at, db.ctrl, ops)
    ensures var db' := RunOp(db, c, op, now).0;
            db.ctrl <= db'.ctrl && ArePosted(before, Put(asks, Asked(c, op, now)), at, db'.ctrl, ops)
  {
    hide ArePosted, Registered, RecordFor, WentOut, BuildAsk, IsCall;
    var db' := RunOp(db, c, op, now).0;
    CallIsSent(db, c, op, now);
    PostingsStand(before, asks, at, db.ctrl, db'.ctrl, ops, ops);
    if op.availability.Reject? {
      Registrations.PutNothing(asks);
    } else {
      var h := SentAsk(InputOf(c, op), op.availability).header;
      Registrations.PutOne(asks, h);
      BuiltIsCall(c, op);
      CallIds(c, op, SentAsk(InputOf(c, op), op.availability), op.availability.selected);
      if op.availability.DeliverNow? {
        SameCall(c, op, SentAsk(InputOf(c, op), op.availability), db'.ctrl[|db.ctrl|].command,
                 op.availability.selected);
        LastWentOut(db.ctrl, db'.ctrl, at, db'.ctrl[|db.ctrl|].stream);
      }
      OneIsPosted(before, asks, at, db'.ctrl, ops, h);
    }
  }

  /** The request determines its message. */
  lemma SameCall(c: Context, op: Op, a: Command, b: Command, selected: string)
    requires op.CallAgent? && IsCall(a, c, op, selected) && IsCall(b, c, op, selected)
    ensures a == b && a.Ask?
  {
  }

  lemma RequestIsPosted(before: map<Key, Header>, asks: map<Key, Header>, at: nat, db: Db, c: Context, op: Op, now: int,
                        ops: seq<Op>)
    requires op in ops && at <= |db.ctrl| && ArePosted(before, asks, at, db.ctrl, ops)
    ensures var db' := RunOp(db, c, op, now).0;
            db.ctrl <= db'.ctrl && ArePosted(before, Put(asks, Asked(c, op, now)), at, db'.ctrl, ops)
  {
    hide ArePosted, Registered, Publish, Put, AskedMembers, DispatchMembers, AllStandIns;
    match op
    case CallAgent(_, _, _, _, _, _, _, _, _, _) => CallIsPosted(before, asks, at, db, c, op, now, ops);
    case AskUser(_) => Registrations.PutNothing(asks);
    case DispatchGroup(tasks, _, _, _, _) =>
      var f := FanOutOf(c, op, now);
      if tasks == [] {
        Registrations.PutNothing(asks);
        Registrations.NobodyAsked(f);
      } else {
        MembersArePosted(before, asks, at, OpenGroup(db, f, |tasks|), c, op, tasks, now, ops);
      }
  }

  lemma {:induction false} RequestsArePosted(asks: map<Key, Header>, db: Db, c: Context, ops: seq<Op>, now: int)
    ensures var db' := RunOps(db, c, ops, now).0;
            db.ctrl <= db'.ctrl && ArePosted(asks, AskedBy(asks, c, ops, now), |db.ctrl|, db'.ctrl, ops)
    ensures var c' := RunOps(db, c, ops, now).1;
            c'.(suspendedState := c.suspendedState, transferred := c.transferred, pending := c.pending) == c
  {
    hide RunOp, Put, Asked, WentOut, Kept;
    if ops != [] {
      hide ArePosted;
      var n := |ops| - 1;
      RequestsArePosted(asks, db, c, ops[..n], now);
      var (db1, c1) := RunOps(db, c, ops[..n], now);
      AskedIgnoresProgress(c, c1, ops[n], now);
      RunOpContext(db1, c1, ops[n], now);
      assert ops == ops[..n] + [ops[n]];
      PostingsStand(asks, AskedBy(asks, c, ops[..n], now), |db.ctrl|, db1.ctrl, db1.ctrl, ops[..n], ops);
      RequestIsPosted(asks, AskedBy(asks, c, ops[..n], now), |db.ctrl|, db1, c1, ops[n], now, ops);
    }
  }

  /** Beyond its requests a run only adds to the streams. */
  lemma RunOnlyAdds(db: Db, env: Env, command: Command, existing: Option<Record>, handler: Handler)
    ensures RunOps(db, ContextFor(env, RestoreInbound(command, existing)), handler.ops, env.now).0.ctrl <=
            RunHandler(db, env, command, existing, handler).db.ctrl
  {
    hide RunOps, Flush, ReplyHeader, RestoreInbound, Replied, CancelPath, StaysSuspended;
    var inbound := RestoreInbound(command, existing);
    var (db1, c) := RunOps(db, ContextFor(env, inbound), handler.ops, env.now);
    var owed := ReplyHeader(command, existing);
    match handler.end
    case Returns(result) =>
      FlushAppends(db1, c.pending);
      if owed.Some? && !StaysSuspended(c, result) {
        var final := result.(status := FinalStatus(c, result));
        SendFrame(Flush(db1, c.pending), env, owed.value, final.status, Some(inbound), final);
      }
    case Throws(error) =>
      if owed.Some? {
        SendFrame(db1, env, owed.value, FAILED, Some(inbound), FailureResult(FAILED, "error", error));
      }
    case Cancels(reason) => CancelOnlyAdds(db1, env, command, owed, Some(inbound), reason);
  }

  lemma CancelOnlyAdds(db: Db, env: Env, command: Command, owed: Option<Header>, entered: Option<Command>,
                       reason: string)
    ensures db.ctrl <= CancelPath(db, env, command, owed, entered, reason).db.ctrl
  {
    hide Replied;
    if owed.Some? {
      SendFrame(db, env, owed.value, CANCELLED, entered, FailureResult(CANCELLED, "reason", reason));
    }
  }

  /** The step by which a dispatch comes into being also sends it, unless the router keeps it. */
  lemma DeliveryPosts(t: Tree, env: Env, command: Command, handler: Handler)
    requires Faithful(t) && Possible(t, Deliver(env, command, handler))
    ensures var t' := After(t, Deliver(env, command, handler));
            ArePosted(t.asks, t'.asks, |t.db.ctrl|, t'.db.ctrl, handler.ops)
  {
    hide RunOps, Flush, Gate, AskedBy, MintsNew, MergeResumeMetadata, HandleMessage, RunHandler, Remembers, WentOut,
         Kept;
    var k :| k in t.asks && Concerns(command, t.asks[k]);
    var full := WithHistory(command, env.history);
    FaithAt(t, k);
    var r := t.db.records[k];
    ConcernsItsKey(t.db, command, t.asks[k], r);
    var begun := BegunDb(t.db, env, command, r);
    EnteredUnlessStopped(begun, env, full, Some(r), handler);
    ProcessCases(t.db, env, command, r, handler);
    var report := Process(t.db, env, command, handler).1;
    if report.Handled? && report.entered.Some? {
      var joined := JoinReply(begun, full).0;
      var c := ContextFor(env, RestoreInbound(full, Some(r)));
      NotStoppedRuns(begun, env, full, r, handler);
      EntersInbound(joined, env, full, Some(r), handler);
      RequestsArePosted(t.asks, joined, c, handler.ops, env.now);
      RunOnlyAdds(joined, env, full, Some(r), handler);
      assert joined.ctrl == t.db.ctrl;
      var db1 := RunOps(joined, c, handler.ops, env.now).0;
      var db' := Process(t.db, env, command, handler).0;
      PostingsStand(t.asks, AskedBy(t.asks, c, handler.ops, env.now), |t.db.ctrl|, db1.ctrl, db'.ctrl, handler.ops,
                    handler.ops);
    }
  }

  /** In every run that starts with nothing dispatched, each dispatch came into being at some step, and at that step it
      was posted: by the client, or by the delivery whose handler asked for it, unless the router kept that call. */
  lemma {:induction false} DispatchesArePosted(trees: seq<Tree>, events: seq<Event>, i: nat, k: Key) returns (j: nat)
    requires Run(trees, events) && trees[0].asks == map[] && i <= |events| && k in trees[i].asks
    ensures 0 < j <= i && k !in trees[j - 1].asks && k in trees[j].asks && trees[j].asks[k] == trees[i].asks[k]
    ensures match events[j - 1]
            case ClientSend(_, stream, command, _, _) =>
              trees[j].db.ctrl == trees[j - 1].db.ctrl + [Posted(stream, command)]
            case Deliver(_, _, handler) =>
              Kept(handler.ops, k.1) || WentOut(trees[j].db.ctrl, |trees[j - 1].db.ctrl|, trees[i].asks[k])
            case _ => false
    decreases i
  {
    hide Faithful, Possible, Process, Kept, WentOut, AskedBy;
    RunsStayFaithful(trees, events, i - 1);
    if k in trees[i - 1].asks {
      Registrations.DispatchesStand(trees[i - 1], events[i - 1], k);
      j := DispatchesArePosted(trees, events, i - 1, k);
    } else {
      j := i;
      if events[i - 1].Deliver? {
        DeliveryPosts(trees[i - 1], events[i - 1].env, events[i - 1].command, events[i - 1].handler);
      }
    }
  }

  // ----- the order of a run's messages -----

  lemma RepliedAppends(db: Db, env: Env, h: Header, status: string, entered: Option<Command>, result: TaskResult)
    ensures var o := Replied(db, env, h, status, entered, result);
            o.reply.Some? && Appends(db.ctrl, o.db.ctrl, [o.reply.value])
  {
  }

  lemma AppendsBoth(a: seq<Posted>, b: seq<Posted>, c: seq<Posted>, first: seq<Command>, second: seq<Command>)
    requires Appends(a, b, first) && Appends(b, c, second)
    ensures Appends(a, c, first + second)
  {
    forall i | 0 <= i < |first + second|
      ensures c[|a| + i] == Posted((first + second)[i].header.targetAgentType, (first + second)[i])
    {
      assert i < |first| ==> c[|a| + i] == b[|a| + i];
      assert i >= |first| ==> c[|a| + i] == c[|b| + (i - |first|)];
    }
  }

  function Replies(o: Outcome): seq<Command> {
    if o.reply.Some? then [o.reply.value] else []
  }

  /** What a run sends, in order: its requests' messages; if it returned, the queued stand-ins, each to whom it is
      addressed; and last its reply. */
  lemma RunSendsInOrder(db: Db, env: Env, command: Command, existing: Option<Record>, handler: Handler)
    ensures var (db1, c) := RunOps(db, ContextFor(env, RestoreInbound(command, existing)), handler.ops, env.now);
            var o := RunHandler(db, env, command, existing, handler);
            Appends(db1.ctrl, o.db.ctrl, (if handler.end.Returns? then c.pending else []) + Replies(o))
  {
    hide RunOps, Flush, ReplyHeader, RestoreInbound, Replied, StaysSuspended, Appends;
    var inbound := RestoreInbound(command, existing);
    var (db1, c) := RunOps(db, ContextFor(env, inbound), handler.ops, env.now);
    var owed := ReplyHeader(command, existing);
    var o := RunHandler(db, env, command, existing, handler);
    AppendsNothing(db1.ctrl);
    match handler.end
    case Returns(result) =>
      var flushed := Flush(db1, c.pending);
      FlushAppends(db1, c.pending);
      AppendsNothing(flushed.ctrl);
      if owed.Some? && !StaysSuspended(c, result) {
        var final := result.(status := FinalStatus(c, result));
        RepliedAppends(flushed, env, owed.value, final.status, Some(inbound), final);
      }
      AppendsBoth(db1.ctrl, flushed.ctrl, o.db.ctrl, c.pending, Replies(o));
    case Throws(error) =>
      if owed.Some? {
        RepliedAppends(db1, env, owed.value, FAILED, Some(inbound), FailureResult(FAILED, "error", error));
      }
      assert [] + Replies(o) == Replies(o);
    case Cancels(reason) =>
      if owed.Some? {
        RepliedAppends(db1, env, owed.value, CANCELLED, Some(inbound), FailureResult(CANCELLED, "reason", reason));
      }
      assert [] + Replies(o) == Replies(o);
  }

  lemma AppendsNothing(ctrl: seq<Posted>)
    ensures Appends(ctrl, ctrl, [])
  {
  }

  /** The failure of member `t` is in the queue. */
  ghost predicate FailureIn(queue: seq<Command>, c: Context, op: Op, t: GroupTask)
    requires op.DispatchGroup?
  {
    exists l :: 0 <= l < |queue| && IsMemberFailure(queue[l], c, op, t)
  }

  lemma RequestQueuesFailure(db: Db, c: Context, op: Op, t: GroupTask, now: int)
    requires op.DispatchGroup? && t in op.tasks && !GoesOut(op, t) && c.agentType != ""
    ensures FailureIn(RunOp(db, c, op, now).1.pending, c, op, t)
  {
    hide RunOp, IsMemberFailure;
    FanOutIs(db, c, op, now);
    var failed := Members(op, op.tasks, false);
    var i :| 0 <= i < |failed| && failed[i] == t;
    var queue := RunOp(db, c, op, now).1.pending;
    assert IsMemberFailure(queue[|c.pending| + i], c, op, failed[i]);
  }

  lemma RequestKeepsQueue(db: Db, c: Context, op: Op, now: int)
    ensures c.pending <= RunOp(db, c, op, now).1.pending
  {
    hide Publish, DispatchMembers, AllStandIns, RegisterIn;
  }

  lemma SameIdentity(c: Context, d: Context, command: Command, op: Op, t: GroupTask)
    requires op.DispatchGroup? && IsMemberFailure(command, d, op, t)
    requires d.(suspendedState := c.suspendedState, transferred := c.transferred, pending := c.pending) == c
    ensures IsMemberFailure(command, c, op, t)
  {
  }

  lemma {:induction false} UnsentMembersQueue(db: Db, c: Context, ops: seq<Op>, now: int, n: nat, t: GroupTask)
    requires n < |ops| && ops[n].DispatchGroup? && t in ops[n].tasks && !GoesOut(ops[n], t) && c.agentType != ""
    ensures FailureIn(RunOps(db, c, ops, now).1.pending, c, ops[n], t)
    decreases |ops|
  {
    hide RunOp, GoesOut, IsMemberFailure;
    var last := |ops| - 1;
    var (db1, c1) := RunOps(db, c, ops[..last], now);
    ContextStays(db, c, ops[..last], now);
    if n < last {
      assert ops[..last][n] == ops[n];
      UnsentMembersQueue(db, c, ops[..last], now, n, t);
      RequestKeepsQueue(db1, c1, ops[last], now);
      var l :| 0 <= l < |c1.pending| && IsMemberFailure(c1.pending[l], c, ops[n], t);
      assert RunOp(db1, c1, ops[last], now).1.pending[l] == c1.pending[l];
    } else {
      RequestQueuesFailure(db1, c1, ops[n], t, now);
      var queue := RunOp(db1, c1, ops[n], now).1.pending;
      var l :| 0 <= l < |queue| && IsMemberFailure(queue[l], c1, ops[n], t);
      SameIdentity(c, c1, queue[l], ops[n], t);
    }
  }

  lemma {:induction false} ContextStays(db: Db, c: Context, ops: seq<Op>, now: int)
    ensures var c' := RunOps(db, c, ops, now).1;
            c'.(suspendedState := c.suspendedState, transferred := c.transferred, pending := c.pending) == c
  {
    hide RunOp;
    if ops != [] {
      var n := |ops| - 1;
      ContextStays(db, c, ops[..n], now);
      var (db1, c1) := RunOps(db, c, ops[..n], now);
      RunOpContext(db1, c1, ops[n], now);
    }
  }

  /** The failure of member `t` was added to that stream. */
  ghost predicate FailureSent(before: seq<Posted>, after: seq<Posted>, stream: string, c: Context, op: Op, t: GroupTask)
    requires op.DispatchGroup?
  {
    exists l :: |before| <= l < |after| && after[l].stream == stream && IsMemberFailure(after[l].command, c, op, t)
  }

  /** Whoever waits for a member nobody could run hears of its failure: once the handler that fanned out has returned,
      its stand-in is on the caller's own stream. */
  lemma UnsentMembersAreAnswered(db: Db, env: Env, command: Command, existing: Option<Record>, handler: Handler, n: nat,
                                 t: GroupTask)
    requires n < |handler.ops| && handler.ops[n].DispatchGroup? && t in handler.ops[n].tasks
    requires handler.ops[n].waitForReply && !t.online && command.header.targetAgentType != "" && handler.end.Returns?
    ensures var c := ContextFor(env, RestoreInbound(command, existing));
            var (before, after) := (RunOps(db, c, handler.ops, env.now).0.ctrl,
                                    RunHandler(db, env, command, existing, handler).db.ctrl);
            FailureSent(before, after, command.header.targetAgentType, c, handler.ops[n], t)
  {
    hide RunOps, RunHandler, MergeResumeMetadata;
    var c := ContextFor(env, RestoreInbound(command, existing));
    UnsentMembersQueue(db, c, handler.ops, env.now, n, t);
    RunSendsInOrder(db, env, command, existing, handler);
    var (db1, c1) := RunOps(db, c, handler.ops, env.now);
    var l :| 0 <= l < |c1.pending| && IsMemberFailure(c1.pending[l], c, handler.ops[n], t);
    var o := RunHandler(db, env, command, existing, handler);
    assert (c1.pending + Replies(o))[l] == c1.pending[l];
    var at := |db1.ctrl| + l;
    assert o.db.ctrl[at] == Posted(c1.pending[l].header.targetAgentType, c1.pending[l]);
    assert c1.pending[l].header.targetAgentType == c.agentType == command.header.targetAgentType;
    hide IsMemberFailure;
    assert FailureSent(db1.ctrl, o.db.ctrl, command.header.targetAgentType, c, handler.ops[n], t);
  }
}
