/** From the dispatch to its reply (`src/dispatch/dispatch_ask_agent.ts`, `src/worker.ts`,
    `src/liveness/wait_index.ts`): over every run, the entry a reply clears is the one its dispatch put into the index.
    */
module Registrations {
  import opened Protocol
  import opened WaitIndex
  import opened WaitGate
  import opened Store
  import opened Builders
  import opened Dispatch
  import opened Worker
  import opened Runner
  import opened CallTree
  import opened Endings

  /** Every dispatch in `asks` is old, awaits nothing, or has its wait registered in the index. */
  ghost predicate WaitsAreRegistered(before: map<Key, Header>, asks: map<Key, Header>, db: Db) {
    forall k :: k in asks ==>
      || (k in before && before[k] == asks[k]) || asks[k].sourceAgentType == ""
      || EncodeMember(WaitFor(asks[k])) in db.waits.index
  }

  lemma MemberIsRegistered(before: map<Key, Header>, asks: map<Key, Header>, db: Db, f: FanOut, t: GroupTask)
    requires WaitsAreRegistered(before, asks, db)
    ensures var h := MemberAsk(f, t).header;
            WaitsAreRegistered(before, if Undispatched(f, t) then asks
                               else asks[AskKey(h) := h], DispatchMember(db, f, t))
  {
    hide EncodeMember;
    MembersWaitIs(f, t);
  }

  lemma MembersWaitIs(f: FanOut, t: GroupTask)
    ensures MemberWait(f, t) == WaitFor(MemberAsk(f, t).header)
  {
  }

  lemma {:induction false} MembersAreRegistered(before: map<Key, Header>, asks: map<Key, Header>, db: Db, f: FanOut,
                                                tasks: seq<GroupTask>)
    requires WaitsAreRegistered(before, asks, db)
    ensures WaitsAreRegistered(before, Put(asks, AskedMembers(f, tasks)), DispatchMembers(db, f, tasks))
  {
    hide DispatchMember, MemberAsk, WaitsAreRegistered;
    if tasks != [] {
      var n := |tasks| - 1;
      MembersAreRegistered(before, asks, db, f, tasks[..n]);
      var headers := AskedMembers(f, tasks[..n]);
      MemberIsRegistered(before, Put(asks, headers), DispatchMembers(db, f, tasks[..n]), f, tasks[n]);
      if Undispatched(f, tasks[n]) {
        assert headers + [] == headers;
      } else {
        var all := headers + [MemberAsk(f, tasks[n]).header];
        assert all[..|all| - 1] == headers;
      }
    }
  }

  lemma OpRegisters(before: map<Key, Header>, asks: map<Key, Header>, db: Db, c: Context, op: Op, now: int)
    requires WaitsAreRegistered(before, asks, db)
    ensures WaitsAreRegistered(before, Put(asks, Asked(c, op, now)), RunOp(db, c, op, now).0)
  {
    match op
    case CallAgent(_, _, _, _, _, _, _, _, executionId, a) =>
      hide Publish, InputOf, WaitsAreRegistered, EncodeMember;
      if a.Reject? {
        PutNothing(asks);
        RejectRegistersNothing(before, asks, db, InputOf(c, op), a, executionId, now);
      } else {
        PutOne(asks, SentAsk(InputOf(c, op), a).header);
        CallRegisters(before, asks, db, InputOf(c, op), a, executionId, now);
      }
    case AskUser(_) =>
      hide EncodeMember;
    case DispatchGroup(tasks, _, _, _, _) =>
      hide EncodeMember, DispatchMembers, AskedMembers, Put, AllStandIns;
      PutNothing(asks);
      NobodyAsked(FanOutOf(c, op, now));
      if tasks != [] {
        var f := FanOutOf(c, op, now);
        MembersAreRegistered(before, asks, OpenGroup(db, f, |tasks|), f, tasks);
      }
  }

  lemma CallRegisters(before: map<Key, Header>, asks: map<Key, Header>, db: Db, input: CallInput, a: Availability,
                      executionId: string, now: int)
    requires WaitsAreRegistered(before, asks, db) && !a.Reject?
    ensures var h := SentAsk(input, a).header;
            WaitsAreRegistered(before, asks[AskKey(h) := h], Publish(db, input, a, executionId, now))
  {
    hide EncodeMember;
    if input.waitForReply {
      DispatchRegistersItsWait(db, input, a, executionId, now);
    }
  }

  lemma RejectRegistersNothing(before: map<Key, Header>, asks: map<Key, Header>, db: Db, input: CallInput,
                               a: Availability, executionId: string, now: int)
    requires WaitsAreRegistered(before, asks, db) && a.Reject?
    ensures WaitsAreRegistered(before, asks, Publish(db, input, a, executionId, now))
  {
    hide EncodeMember;
  }

  lemma PutOne(asks: map<Key, Header>, h: Header)
    ensures Put(asks, [h]) == asks[AskKey(h) := h]
  {
    assert [h][..0] == [];
  }

  lemma PutNothing(asks: map<Key, Header>)
    ensures Put(asks, []) == asks
  {
  }

  lemma NobodyAsked(f: FanOut)
    ensures AskedMembers(f, []) == []
  {
  }

  lemma {:induction false} OpsRegister(asks: map<Key, Header>, db: Db, c: Context, ops: seq<Op>, now: int)
    ensures WaitsAreRegistered(asks, AskedBy(asks, c, ops, now), RunOps(db, c, ops, now).0)
    ensures var c' := RunOps(db, c, ops, now).1;
            c'.(suspendedState := c.suspendedState, transferred := c.transferred, pending := c.pending) == c
  {
    hide RunOp, Put, Asked;
    if ops != [] {
      var n := |ops| - 1;
      OpsRegister(asks, db, c, ops[..n], now);
      var (db1, c1) := RunOps(db, c, ops[..n], now);
      AskedIgnoresProgress(c, c1, ops[n], now);
      RunOpContext(db1, c1, ops[n], now);
      OpRegisters(asks, AskedBy(asks, c, ops[..n], now), db1, c1, ops[n], now);
    }
  }

  /** The step by which a dispatch comes into being also registers its wait, if a reply to it is awaited. */
  lemma DeliveryRegisters(t: Tree, env: Env, command: Command, handler: Handler)
    requires Faithful(t) && Possible(t, Deliver(env, command, handler))
    ensures var t' := After(t, Deliver(env, command, handler));
            WaitsAreRegistered(t.asks, t'.asks, t'.db)
  {
    hide RunOps, Flush, Gate, AskedBy, MintsNew, EncodeMember, MergeResumeMetadata, HandleMessage, RunHandler,
         Remembers;
    var k :| k in t.asks && Concerns(command, t.asks[k]);
    var full := WithHistory(command, env.history);
    var gated := t.(db := Gated(t.db, command).0);
    SameRecordsSameFaith(t, gated.db);
    BeginKeepsFaith(gated, env, full, k);
    var r := t.db.records[k];
    var begun := Begun(gated, env, full).db;
    EnteredUnlessStopped(begun, env, full, Some(r), handler);
    ProcessCases(t.db, env, command, r, handler);
    var report := Process(t.db, env, command, handler).1;
    if report.Handled? && report.entered.Some? {
      var joined := JoinReply(begun, full).0;
      var c := ContextFor(env, RestoreInbound(full, Some(r)));
      NotStoppedRuns(begun, env, full, r, handler);
      EntersInbound(joined, env, full, Some(r), handler);
      RunOnlySends(joined, env, full, Some(r), handler);
      OpsRegister(t.asks, joined, c, handler.ops, env.now);
      FinishKeepsWaits(HandleMessage(begun, env, full, Some(r), handler).db, KeyOf(full), report.status);
    }
  }

  lemma FinishKeepsWaits(db: Db, key: Key, status: string)
    ensures Finish(db, key, status).waits == db.waits
  {
  }

  /** No event replaces a dispatch by another. */
  lemma DispatchesStand(t: Tree, e: Event, k: Key)
    requires Faithful(t) && Possible(t, e) && k in t.asks
    ensures k in After(t, e).asks && After(t, e).asks[k] == t.asks[k]
  {
    hide Process, AskedBy, RunOps;
    match e
    case ClientSend(_, _, _, _, _) =>
    case Deliver(env, command, handler) =>
      var report := Process(t.db, env, command, handler).1;
      if report.Handled? && report.entered.Some? {
        DeliveryStands(t, env, command, handler, k);
      }
    case RequestCancel(_, _, _) =>
    case Elsewhere(_) =>
  }

  lemma DeliveryStands(t: Tree, env: Env, command: Command, handler: Handler, k: Key)
    requires Faithful(t) && Possible(t, Deliver(env, command, handler)) && k in t.asks
    requires var report := Process(t.db, env, command, handler).1; report.Handled? && report.entered.Some?
    ensures var c := ContextFor(env, Process(t.db, env, command, handler).1.entered.value);
            var asks := AskedBy(t.asks, c, handler.ops, env.now);
            k in asks && asks[k] == t.asks[k]
  {
    hide RunOps, Flush, Gate, AskedBy, EncodeMember, MergeResumeMetadata, HandleMessage, RunHandler, Remembers,
         FreshOps;
    var j :| j in t.asks && Concerns(command, t.asks[j]);
    var full := WithHistory(command, env.history);
    var gated := t.(db := Gated(t.db, command).0);
    SameRecordsSameFaith(t, gated.db);
    BeginKeepsFaith(gated, env, full, j);
    var r := t.db.records[j];
    var begun := Begun(gated, env, full).db;
    EnteredUnlessStopped(begun, env, full, Some(r), handler);
    ProcessCases(t.db, env, command, r, handler);
    var joined := JoinReply(begun, full).0;
    NotStoppedRuns(begun, env, full, r, handler);
    EntersInbound(joined, env, full, Some(r), handler);
    OldKeysStand(t.asks, joined, ContextFor(env, RestoreInbound(full, Some(r))), handler.ops, env.now, k);
  }

  /** Fresh ids leave the dispatches of recorded executions alone. */
  lemma {:induction false} OldKeysStand(asks: map<Key, Header>, db: Db, c: Context, ops: seq<Op>, now: int, k: Key)
    requires FreshOps(db, c, ops, now) && k in db.records && k in asks
    ensures k in RunOps(db, c, ops, now).0.records
    ensures var asks' := AskedBy(asks, c, ops, now); k in asks' && asks'[k] == asks[k]
    ensures var c' := RunOps(db, c, ops, now).1;
            c'.(suspendedState := c.suspendedState, transferred := c.transferred, pending := c.pending) == c
  {
    hide RunOp, Put, Asked, FreshOp;
    if ops != [] {
      var n := |ops| - 1;
      OldKeysStand(asks, db, c, ops[..n], now, k);
      var (db1, c1) := RunOps(db, c, ops[..n], now);
      AskedIgnoresProgress(c, c1, ops[n], now);
      RunOpContext(db1, c1, ops[n], now);
      OldKeyStands(AskedBy(asks, c, ops[..n], now), db1, c1, ops[n], now, k);
    }
  }

  lemma OldKeyStands(asks: map<Key, Header>, db: Db, c: Context, op: Op, now: int, k: Key)
    requires FreshOp(db, c, op, now) && k in db.records && k in asks
    ensures k in RunOp(db, c, op, now).0.records
    ensures var asks' := Put(asks, Asked(c, op, now)); k in asks' && asks'[k] == asks[k]
  {
    hide EncodeMember, Registered;
    match op
    case CallAgent(_, _, _, _, _, _, _, _, _, a) =>
      if !a.Reject? {
        var h := SentAsk(InputOf(c, op), a).header;
        assert [h][..0] == [];
        assert Put(asks, [h]) == asks[AskKey(h) := h];
      }
    case AskUser(_) =>
    case DispatchGroup(tasks, _, _, _, _) =>
      var f := FanOutOf(c, op, now);
      OldKeyStandsMembers(asks, OpenGroup(db, f, |tasks|), f, tasks, k);
  }

  lemma MemberRecords(db: Db, f: FanOut, t: GroupTask)
    ensures DispatchMember(db, f, t).records.Keys == db.records.Keys + {(f.c.sessionId, t.messageId)}
    ensures AskKey(MemberAsk(f, t).header) == (f.c.sessionId, t.messageId)
  {
    hide EncodeMember, Registered;
  }

  lemma {:induction false} OldKeyStandsMembers(asks: map<Key, Header>, db: Db, f: FanOut, tasks: seq<GroupTask>, k: Key)
    requires k in db.records && k in asks && forall t :: t in tasks ==> (f.c.sessionId, t.messageId) != k
    ensures k in DispatchMembers(db, f, tasks).records
    ensures var asks' := Put(asks, AskedMembers(f, tasks)); k in asks' && asks'[k] == asks[k]
  {
    hide DispatchMember, MemberAsk;
    if tasks != [] {
      var n := |tasks| - 1;
      assert tasks[n] in tasks && forall t :: t in tasks[..n] ==> t in tasks;
      OldKeyStandsMembers(asks, db, f, tasks[..n], k);
      MemberRecords(DispatchMembers(db, f, tasks[..n]), f, tasks[n]);
      var headers := AskedMembers(f, tasks[..n]);
      if Undispatched(f, tasks[n]) {
        assert headers + [] == headers;
      } else {
        var all := headers + [MemberAsk(f, tasks[n]).header];
        assert all[..|all| - 1] == headers;
      }
    }
  }

  /** In every run that starts with nothing dispatched, each dispatch that awaits a reply came into being at some step,
      and that step left its wait in the index. */
  lemma {:induction false} WaitingDispatchesRegistered(trees: seq<Tree>, events: seq<Event>, i: nat, k: Key)
      returns (j: nat)
    requires Run(trees, events) && trees[0].asks == map[] && i <= |events|
    requires k in trees[i].asks && trees[i].asks[k].sourceAgentType != ""
    ensures 0 < j <= i && k !in trees[j - 1].asks && k in trees[j].asks && trees[j].asks[k] == trees[i].asks[k]
    ensures events[j - 1].Deliver? && EncodeMember(WaitFor(trees[i].asks[k])) in trees[j].db.waits.index
    decreases i
  {
    hide Faithful, Possible, After, EncodeMember;
    RunsStayFaithful(trees, events, i - 1);
    if k in trees[i - 1].asks {
      DispatchesStand(trees[i - 1], events[i - 1], k);
      j := WaitingDispatchesRegistered(trees, events, i - 1, k);
    } else {
      j := i;
      OnlyDeliveriesAsk(trees[i - 1], events[i - 1], k);
      DeliveryRegisters(trees[i - 1], events[i - 1].env, events[i - 1].command, events[i - 1].handler);
    }
  }

  lemma OnlyDeliveriesAsk(t: Tree, e: Event, k: Key)
    requires Possible(t, e) && k !in t.asks && k in After(t, e).asks && After(t, e).asks[k].sourceAgentType != ""
    ensures e.Deliver?
  {
    hide Process;
  }

  /** From end to end: in every run each reply sent to a waiting dispatch rebuilds exactly the entry that was put into
      the index when that dispatch came into being, however often its execution suspended in between. */
  lemma RepliesRebuildTheirRegisteredEntry(trees: seq<Tree>, events: seq<Event>, i: nat, k: Key) returns (j: nat)
    requires Run(trees, events) && trees[0].asks == map[] && i < |events| && events[i].Deliver?
    requires k in trees[i].asks && Concerns(events[i].command, trees[i].asks[k])
    requires trees[i].asks[k].sourceAgentType != "" && trees[i].asks[k].parentMessageId != ""
    ensures 0 < j <= i && k !in trees[j - 1].asks && k in trees[j].asks && events[j - 1].Deliver?
    ensures var report := Process(trees[i].db, events[i].env, events[i].command, events[i].handler).1;
            report.Handled? && report.reply.Some? ==>
              MemberFromResume(report.reply.value.header) == EncodeMember(WaitFor(trees[j].asks[k])) &&
              EncodeMember(WaitFor(trees[j].asks[k])) in trees[j].db.waits.index
  {
    RunLength(trees, events);
    hide Faithful, Possible, After, Process, EncodeMember, ReplyDue, PostedLast, BegunDb, Concerns, RepliesTo, Run;
    EveryRunAnswersItsDispatcher(trees, events, i, k);
    j := WaitingDispatchesRegistered(trees, events, i, k);
    var report := Process(trees[i].db, events[i].env, events[i].command, events[i].handler).1;
    if report.Handled? && report.reply.Some? {
      ReplyClearsTheRegisteredWait(report.reply.value, trees[i].asks[k], events[i].env);
    }
  }
}
