/** A chain of suspended executions, each waiting for the next (`src/liveness/wait_sweeper.ts`): sweeps speak only for
    its deepest wait, and round by round the chain resolves from the bottom to its root. */
module Chain {
  import opened Protocol
  import opened WaitIndex
  import opened WaitGate
  import opened Store
  import opened Builders
  import opened Dispatch
  import opened Worker
  import opened Runner
  import opened Sweeper
  import opened CallTree
  import opened Endings
  import Backlog

  /** The wait of level `i` for level `i + 1`. */
  function WaitAt(s: string, ids: seq<string>, i: nat): Member
    requires i + 1 < |ids|
  {
    Member(s, ids[i], ids[i + 1], "")
  }

  function EntryAt(s: string, ids: seq<string>, i: nat): string
    requires i + 1 < |ids|
  {
    EncodeMember(WaitAt(s, ids, i))
  }

  /** Level `i` is suspended, can be addressed, and its wait is registered. */
  ghost predicate Waiting(db: Db, s: string, ids: seq<string>, i: nat)
    requires i + 1 < |ids|
  {
    && (s, ids[i]) in db.records
    && IsSuspended(BaseStatus(db.records[(s, ids[i])].status)) && db.records[(s, ids[i])].targetAgentType != ""
    && EntryAt(s, ids, i) in db.waits.index && 0 <= db.waits.index[EntryAt(s, ids, i)]
  }

  ghost predicate ProperIds(s: string, ids: seq<string>) {
    s != "" && "" !in ids && forall i, j :: 0 <= i < j < |ids| ==> ids[i] != ids[j]
  }

  /** The first `k` levels wait, each for the next. */
  ghost predicate Chained(db: Db, s: string, ids: seq<string>, k: nat) {
    ProperIds(s, ids) && k < |ids| && forall i :: 0 <= i < k ==> Waiting(db, s, ids, i)
  }

  /** Nothing will ever answer for this execution: it was never recorded, has finished, was never picked up, or its
      worker is dead. */
  ghost predicate Gone(db: Db, s: string, id: string) {
    var r := Lookup(db, id, s);
    r.None? || IsTerminal(BaseStatus(r.value.status)) ||
    (!IsSuspended(BaseStatus(r.value.status)) && (r.value.workerId == "" || r.value.workerId !in db.online))
  }

  lemma EntriesDiffer(s: string, ids: seq<string>, i: nat, j: nat)
    requires ProperIds(s, ids) && i + 1 < |ids| && j + 1 < |ids| && i != j
    ensures EntryAt(s, ids, i) != EntryAt(s, ids, j)
  {
    if EntryAt(s, ids, i) == EntryAt(s, ids, j) {
      EncodingIsInjective(WaitAt(s, ids, i), WaitAt(s, ids, j));
    }
  }

  // ----- the sweep -----

  lemma UpperWaitIsPostponed(db: Db, cfg: Config, now: int, score: int, s: string, ids: seq<string>, k: nat, i: nat)
    requires Chained(db, s, ids, k) && i + 1 < k
    ensures Decide(db, cfg, now, EntryAt(s, ids, i), score) == Postpone(ChildWaiting, false)
  {
    hide BaseStatus, EncodeMember, IsSuspended, IsTerminal, Decide;
    RoundTrip(WaitAt(s, ids, i));
    assert Waiting(db, s, ids, i) && Waiting(db, s, ids, i + 1);
    SuspendedCalleeIsNeverFailed(db, cfg, now, Due(EntryAt(s, ids, i), score, WaitAt(s, ids, i)));
  }

  lemma DeepestWaitIsAnswered(db: Db, cfg: Config, now: int, score: int, s: string, ids: seq<string>, k: nat)
    requires Chained(db, s, ids, k) && k > 0 && Gone(db, s, ids[k])
    ensures var v := Decide(db, cfg, now, EntryAt(s, ids, k - 1), score);
            v.Send? && v.reply.Resume? && MemberFromResume(v.reply.header) == EntryAt(s, ids, k - 1)
  {
    hide BaseStatus, EncodeMember, DecodeMember, IsSuspended, IsTerminal, Decide, RenewalCeiling;
    var m := WaitAt(s, ids, k - 1);
    RoundTrip(m);
    assert Waiting(db, s, ids, k - 1);
    RepliesExactlyWhen(db, cfg, now, EntryAt(s, ids, k - 1), score);
    StandInNamesTheEntry(db, cfg, now, EntryAt(s, ids, k - 1), score);
  }

  /** A message that would clear the wait of level `i`. */
  predicate Wakes(p: Posted, s: string, ids: seq<string>, i: nat)
    requires i + 1 < |ids|
  {
    p.command.Resume? && MemberFromResume(p.command.header) == EntryAt(s, ids, i)
  }

  /** Sweeping one entry, of the chain or not, keeps every level waiting; the only level a message can be sent to is the
      deepest, and it is when its own entry is swept. */
  lemma SweepOfOneEntry(db: Db, cfg: Config, now: int, member: string, score: int, s: string, ids: seq<string>, k: nat)
    requires Chained(db, s, ids, k) && k > 0 && Gone(db, s, ids[k]) && now >= 0
    ensures var db' := ResolveEntry(db, cfg, now, member, score);
            && Chained(db', s, ids, k) && Gone(db', s, ids[k])
            && db'.records == db.records
            && (db'.ctrl == db.ctrl ||
                exists p :: db'.ctrl == db.ctrl + [p] && forall i :: 0 <= i < k - 1 ==> !Wakes(p, s, ids, i))
            && (member == EntryAt(s, ids, k - 1) ==> exists p :: db'.ctrl == db.ctrl + [p] && Wakes(p, s, ids, k - 1))
  {
    hide Decide, EncodeMember, DecodeMember, BaseStatus, IsSuspended, IsTerminal, Cancelling, Extended;
    var db' := ResolveEntry(db, cfg, now, member, score);
    var v := Decide(db, cfg, now, member, score);
    SweepFrame(db, cfg, now, member, score);
    EffectIs(db, cfg, now, member, score);
    hide ResolveEntry;
    forall i | 0 <= i < k ensures Waiting(db', s, ids, i) {
      assert Waiting(db, s, ids, i);
      if EntryAt(s, ids, i) == member {
        if i < k - 1 {
          UpperWaitIsPostponed(db, cfg, now, score, s, ids, k, i);
        } else {
          DeepestWaitIsAnswered(db, cfg, now, score, s, ids, k);
        }
      } else {
        assert (db'.waits.index - {member})[EntryAt(s, ids, i)] == (db.waits.index - {member})[EntryAt(s, ids, i)];
      }
    }
    if v.Send? {
      forall i | 0 <= i < k - 1 ensures !Wakes(Posted(v.reply.header.targetAgentType, v.reply), s, ids, i) {
        StandInsAreNotForUpperLevels(db, cfg, now, member, score, s, ids, k, i);
      }
      assert db'.ctrl == db.ctrl + [Posted(v.reply.header.targetAgentType, v.reply)];
    }
    if member == EntryAt(s, ids, k - 1) {
      DeepestWaitIsAnswered(db, cfg, now, score, s, ids, k);
      assert Wakes(Posted(v.reply.header.targetAgentType, v.reply), s, ids, k - 1);
    }
  }

  /** No sweep of any entry, however spelt, sends a message to a level whose callee is itself waiting. */
  lemma StandInsAreNotForUpperLevels(db: Db, cfg: Config, now: int, member: string, score: int, s: string,
                                     ids: seq<string>, k: nat, i: nat)
    requires Chained(db, s, ids, k) && i + 1 < k
    requires Decide(db, cfg, now, member, score).Send?
    ensures MemberFromResume(Decide(db, cfg, now, member, score).reply.header) != EntryAt(s, ids, i)
  {
    hide Decide, EncodeMember, DecodeMember, BaseStatus, IsSuspended, IsTerminal, RenewalCeiling;
    StandInNamesTheEntry(db, cfg, now, member, score);
    var m := DecodeMember(member).member;
    if EncodeMember(m) == EntryAt(s, ids, i) {
      EncodingIsInjective(m, WaitAt(s, ids, i));
      RepliesExactlyWhen(db, cfg, now, member, score);
      assert Waiting(db, s, ids, i) && Waiting(db, s, ids, i + 1);
      SuspendedIsNotTerminal(BaseStatus(db.records[(s, ids[i + 1])].status));
    }
  }

  /** A whole batch: every level still waits, nothing was said to any level but the deepest, and the deepest has been
      spoken for if its entry was in the batch. */
  lemma {:induction false} SweepsSpeakForTheDeepestWait(db: Db, cfg: Config, clock: nat -> int, batch: seq<string>,
                                                        scores: map<string, int>,
                                                        s: string, ids: seq<string>, k: nat)
    requires forall m :: m in batch ==> m in scores
    requires Chained(db, s, ids, k) && k > 0 && Gone(db, s, ids[k]) && forall i :: clock(i) >= 0
    ensures var db' := ResolveAll(db, cfg, clock, batch, scores);
            && Chained(db', s, ids, k) && Gone(db', s, ids[k]) && db'.records == db.records
            && db.ctrl <= db'.ctrl
            && (forall j, i :: |db.ctrl| <= j < |db'.ctrl| && 0 <= i < k - 1 ==> !Wakes(db'.ctrl[j], s, ids, i))
            && (EntryAt(s, ids, k - 1) in batch ==> exists j :: |db.ctrl| <= j < |db'.ctrl| &&
                                                                Wakes(db'.ctrl[j], s, ids, k - 1))
  {
    hide ResolveEntry, Chained, Gone, Wakes, EncodeMember;
    if batch != [] {
      var n := |batch| - 1;
      SweepsSpeakForTheDeepestWait(db, cfg, clock, batch[..n], scores, s, ids, k);
      var before := ResolveAll(db, cfg, clock, batch[..n], scores);
      ChainedFacts(before, s, ids, k);
      SweepOfOneEntry(before, cfg, clock(n), batch[n], scores[batch[n]], s, ids, k);
      var after := ResolveEntry(before, cfg, clock(n), batch[n], scores[batch[n]]);
      assert batch == batch[..n] + [batch[n]];
      assert forall j :: 0 <= j < |before.ctrl| ==> after.ctrl[j] == before.ctrl[j];
      if EntryAt(s, ids, k - 1) in batch {
        if batch[n] == EntryAt(s, ids, k - 1) {
          assert Wakes(after.ctrl[|before.ctrl|], s, ids, k - 1);
        } else {
          var j :| |db.ctrl| <= j < |before.ctrl| && Wakes(before.ctrl[j], s, ids, k - 1);
          assert Wakes(after.ctrl[j], s, ids, k - 1);
        }
      }
    }
  }

  lemma ChainedFacts(db: Db, s: string, ids: seq<string>, k: nat)
    requires Chained(db, s, ids, k)
    ensures k < |ids|
  {
  }

  // ----- the woken level runs and finishes -----

  /** Records are only added, no worker comes or goes, and the chain's first `n` entries keep their deadlines. */
  ghost predicate Spared(db: Db, db': Db, s: string, ids: seq<string>, n: nat)
    requires n < |ids|
  {
    && db'.online == db.online
    && (forall key :: key in db.records ==> key in db'.records && db'.records[key] == db.records[key])
    && (forall i :: 0 <= i < n && EntryAt(s, ids, i) in db.waits.index ==>
          EntryAt(s, ids, i) in db'.waits.index && db'.waits.index[EntryAt(s, ids, i)] ==
              db.waits.index[EntryAt(s, ids, i)])
  }

  /** The first `n + 1` levels have records. */
  ghost predicate Recorded(db: Db, s: string, ids: seq<string>, n: nat) {
    ProperIds(s, ids) && n < |ids| && forall i :: 0 <= i <= n ==> (s, ids[i]) in db.records
  }

  lemma SparedTrans(a: Db, b: Db, c: Db, s: string, ids: seq<string>, n: nat)
    requires n < |ids| && Spared(a, b, s, ids, n) && Spared(b, c, s, ids, n)
    ensures Spared(a, c, s, ids, n)
  {
    hide EntryAt;
  }

  lemma SparedKeepsRecorded(a: Db, b: Db, s: string, ids: seq<string>, n: nat)
    requires n < |ids| && Spared(a, b, s, ids, n) && Recorded(a, s, ids, n)
    ensures Recorded(b, s, ids, n)
  {
    hide EntryAt;
  }

  /** Registering a wait for a sub-task that has no record yet, or for the user, spares the chain. */
  lemma NewWaitSpares(db: Db, m: Member, timeoutMs: int, now: int, s: string, ids: seq<string>, n: nat)
    requires Recorded(db, s, ids, n) && (m.childMessageId == "" || (m.sessionId, m.childMessageId) !in db.records)
    ensures Spared(db, RegisterIn(db, m, timeoutMs, now), s, ids, n)
  {
    hide EncodeMember;
    forall i | 0 <= i < n ensures EntryAt(s, ids, i) != EncodeMember(m) {
      assert ids[i + 1] in ids;
      if EntryAt(s, ids, i) == EncodeMember(m) {
        EncodingIsInjective(WaitAt(s, ids, i), m);
      }
    }
  }

  lemma NewRecordSpares(db: Db, db': Db, r: Record, s: string, ids: seq<string>, n: nat)
    requires n < |ids| && (r.sessionId, r.messageId) !in db.records
    requires db'.records == db.records[(r.sessionId, r.messageId) := r]
    requires db'.waits == db.waits && db'.online == db.online
    ensures Spared(db, db', s, ids, n)
  {
    hide EntryAt;
  }

  lemma PublishSpares(db: Db, input: CallInput, a: Availability, executionId: string, now: int, s: string,
                      ids: seq<string>, n: nat)
    requires Recorded(db, s, ids, n) && (input.sessionId, input.messageId) !in db.records
    ensures Spared(db, Publish(db, input, a, executionId, now), s, ids, n)
  {
    hide EncodeMember, Registered, Spared, Recorded;
    RecordedFacts(db, s, ids, n);
    var db' := Publish(db, input, a, executionId, now);
    if a.Reject? {
      NewRecordSpares(db, db', RecordFor(BuildAsk(input).header, BuildAsk(input).header.sourceAgentType, FAILED,
                                         executionId, now), s, ids, n);
    } else {
      var sent := SentAsk(input, a);
      var r := RecordFor(sent.header, sent.header.sourceAgentType, QUEUED, executionId, now);
      var db1 := if input.waitForReply then RegisterIn(db, WaitOf(input), input.replyTimeoutMs, now) else db;
      NewRecordSpares(db1, db', r, s, ids, n);
      if input.waitForReply {
        NewWaitSpares(db, WaitOf(input), input.replyTimeoutMs, now, s, ids, n);
        SparedTrans(db, db1, db', s, ids, n);
      }
    }
  }

  lemma RecordedFacts(db: Db, s: string, ids: seq<string>, n: nat)
    requires Recorded(db, s, ids, n)
    ensures n < |ids|
  {
  }

  lemma MemberSpares(db: Db, f: FanOut, t: GroupTask, s: string, ids: seq<string>, n: nat)
    requires Recorded(db, s, ids, n) && (f.c.sessionId, t.messageId) !in db.records
    ensures Spared(db, DispatchMember(db, f, t), s, ids, n)
    ensures DispatchMember(db, f, t).records.Keys == db.records.Keys + {(f.c.sessionId, t.messageId)}
  {
    hide EncodeMember, Registered, Spared, Recorded;
    RecordedFacts(db, s, ids, n);
    var h := MemberAsk(f, t).header;
    var db' := DispatchMember(db, f, t);
    var r := RecordFor(h, if Undispatched(f, t) then f.c.agentType else h.sourceAgentType,
                       if Undispatched(f, t) then FAILED else QUEUED, t.executionId, f.now);
    if f.waitForReply {
      var db1 := RegisterIn(db, MemberWait(f, t), f.replyTimeoutMs, f.now);
      NewWaitSpares(db, MemberWait(f, t), f.replyTimeoutMs, f.now, s, ids, n);
      NewRecordSpares(db1, db', r, s, ids, n);
      SparedTrans(db, db1, db', s, ids, n);
    } else {
      NewRecordSpares(db, db', r, s, ids, n);
    }
  }

  lemma {:induction false} MembersSpare(db: Db, f: FanOut, tasks: seq<GroupTask>, s: string, ids: seq<string>, n: nat)
    requires Recorded(db, s, ids, n) && FreshTasks(db, f, tasks)
    ensures n < |ids| && Spared(db, DispatchMembers(db, f, tasks), s, ids, n)
    ensures forall key :: key in DispatchMembers(db, f, tasks).records ==>
              key in db.records || exists i :: 0 <= i < |tasks| && key == (f.c.sessionId, tasks[i].messageId)
  {
    hide DispatchMember, Spared, Recorded;
    RecordedFacts(db, s, ids, n);
    if tasks == [] {
      SparedRefl(db, s, ids, n);
    } else {
      var m := |tasks| - 1;
      assert forall x :: x in tasks[..m] ==> x in tasks;
      MembersSpare(db, f, tasks[..m], s, ids, n);
      var before := DispatchMembers(db, f, tasks[..m]);
      SparedKeepsRecorded(db, before, s, ids, n);
      assert tasks[m] in tasks;
      MemberSpares(before, f, tasks[m], s, ids, n);
      SparedTrans(db, before, DispatchMember(before, f, tasks[m]), s, ids, n);
    }
  }

  lemma SparedRefl(db: Db, s: string, ids: seq<string>, n: nat)
    requires n < |ids|
    ensures Spared(db, db, s, ids, n)
  {
  }

  lemma OpSpares(db: Db, c: Context, op: Op, now: int, s: string, ids: seq<string>, n: nat)
    requires Recorded(db, s, ids, n) && FreshOp(db, c, op, now)
    ensures n < |ids| && Spared(db, RunOp(db, c, op, now).0, s, ids, n)
  {
    hide Spared, Recorded, DispatchMembers, Publish, RegisterIn;
    RecordedFacts(db, s, ids, n);
    match op
    case CallAgent(_, _, _, _, _, _, _, _, executionId, a) => PublishSpares(db, InputOf(c, op), a, executionId, now, s,
        ids, n);
    case AskUser(timeoutMs) => NewWaitSpares(db, Member(c.sessionId, c.messageId, "", ""), timeoutMs, now, s, ids, n);
    case DispatchGroup(tasks, _, _, _, _) =>
      if tasks == [] {
        SparedRefl(db, s, ids, n);
      } else {
        var f := FanOutOf(c, op, now);
        var tracked := OpenGroup(db, f, |tasks|);
        SameRecordsAndWaits(db, tracked, s, ids, n);
        MembersSpare(tracked, f, tasks, s, ids, n);
        SparedTrans(db, tracked, DispatchMembers(tracked, f, tasks), s, ids, n);
      }
  }

  lemma SameRecordsAndWaits(db: Db, db': Db, s: string, ids: seq<string>, n: nat)
    requires n < |ids| && db'.records == db.records && db'.waits == db.waits && db'.online == db.online
    ensures Spared(db, db', s, ids, n) && (Recorded(db, s, ids, n) ==> Recorded(db', s, ids, n))
  {
  }

  lemma {:induction false} OpsSpare(db: Db, c: Context, ops: seq<Op>, now: int, s: string, ids: seq<string>, n: nat)
    requires Recorded(db, s, ids, n) && FreshOps(db, c, ops, now)
    ensures n < |ids| && Spared(db, RunOps(db, c, ops, now).0, s, ids, n)
  {
    hide RunOp, Spared, Recorded, FreshOp;
    RecordedFacts(db, s, ids, n);
    if ops == [] {
      SparedRefl(db, s, ids, n);
    } else {
      var m := |ops| - 1;
      OpsSpare(db, c, ops[..m], now, s, ids, n);
      var (db1, c1) := RunOps(db, c, ops[..m], now);
      SparedKeepsRecorded(db, db1, s, ids, n);
      OpSpares(db1, c1, ops[m], now, s, ids, n);
      SparedTrans(db, db1, RunOp(db1, c1, ops[m], now).0, s, ids, n);
    }
  }

  lemma RunSpares(db: Db, env: Env, command: Command, existing: Option<Record>, handler: Handler, s: string,
                  ids: seq<string>, n: nat)
    requires Recorded(db, s, ids, n)
    requires FreshOps(db, ContextFor(env, RestoreInbound(command, existing)), handler.ops, env.now)
    ensures n < |ids| && Spared(db, RunHandler(db, env, command, existing, handler).db, s, ids, n)
  {
    hide RunOps, FreshOps, Spared, Recorded, RestoreInbound, RunHandler;
    RecordedFacts(db, s, ids, n);
    var c0 := ContextFor(env, RestoreInbound(command, existing));
    OpsSpare(db, c0, handler.ops, env.now, s, ids, n);
    var db1 := RunOps(db, c0, handler.ops, env.now).0;
    RunOnlySends(db, env, command, existing, handler);
    SameRecordsAndWaits(db1, RunHandler(db, env, command, existing, handler).db, s, ids, n);
    SparedTrans(db, db1, RunHandler(db, env, command, existing, handler).db, s, ids, n);
  }

  /** Handling any message spares the chain, as long as the ids its handler mints are new. */
  lemma HandlingSpares(db: Db, env: Env, command: Command, existing: Option<Record>, handler: Handler, s: string,
                       ids: seq<string>, n: nat)
    requires Recorded(db, s, ids, n)
    requires FreshOps(JoinReply(db, command).0, ContextFor(env, RestoreInbound(command, existing)), handler.ops,
                      env.now)
    ensures n < |ids| && Spared(db, HandleMessage(db, env, command, existing, handler).db, s, ids, n)
  {
    hide RunHandler, CancelPath, FreshOps, Spared, Recorded, ReplyHeader, RestoreInbound, JoinReply;
    RecordedFacts(db, s, ids, n);
    var o := HandleMessage(db, env, command, existing, handler);
    if existing.Some? && existing.value.cancelRequested {
      CancelOnlySends(db, env, command, ReplyHeader(command, existing), None,
                      OrElse(existing.value.cancelReason, "task cancelled before processing"));
      SameRecordsAndWaits(db, o.db, s, ids, n);
    } else {
      var (joined, stop) := JoinReply(db, command);
      JoinOnlyCounts(db, command);
      SameRecordsAndWaits(db, joined, s, ids, n);
      if stop.None? {
        RunSpares(joined, env, command, existing, handler, s, ids, n);
        SparedTrans(db, joined, o.db, s, ids, n);
      }
    }
  }

  lemma JoinOnlyCounts(db: Db, command: Command)
    ensures var joined := JoinReply(db, command).0;
            joined.records == db.records && joined.waits == db.waits && joined.online == db.online
  {
  }

  /** The handler's run ends its execution. */
  predicate Finishes(end: End) {
    end.Returns? ==> IsTerminal(end.result.status)
  }

  /** A message outside any group whose handler finishes leaves a terminal status. */
  lemma FinishingStatus(db: Db, env: Env, command: Command, r: Record, handler: Handler)
    requires Finishes(handler.end) && command.header.taskGroupId == ""
    ensures IsTerminal(HandleMessage(db, env, command, Some(r), handler).status)
  {
    WaitingIsSuspended();
    TerminalStatuses();
    hide RunHandler, ReplyHeader, RestoreInbound, Replied, IsTerminal, RunOps;
    if r.cancelRequested {
      CancelledStatus(db, env, command, r, handler);
    } else {
      NotStoppedRuns(db, env, command, r, handler);
      RunStatus(db, env, command, r, handler);
    }
  }

  lemma TerminalStatuses()
    ensures IsTerminal(FAILED) && IsTerminal(CANCELLED)
  {
  }

  /** A reply to the deepest wait, from whoever built it, is admitted; once the woken handler finishes, that level is
      terminal and the levels above it wait as before. */
  lemma DeliveryFinishesTheLevel(db: Db, env: Env, command: Command, handler: Handler, s: string, ids: seq<string>,
                                 k: nat)
    requires Chained(db, s, ids, k) && k > 0 && Wakes(Posted("", command), s, ids, k - 1)
    requires Finishes(handler.end)
    requires MintsNew(db, env, command, handler)
    ensures var (db', report) := Process(db, env, command, handler);
            && report.Handled? && Chained(db', s, ids, k - 1)
            && (s, ids[k - 1]) in db'.records && IsTerminal(db'.records[(s, ids[k - 1])].status)
            && (forall key :: key in db.records && key != (s, ids[k - 1]) ==>
                  key in db'.records && db'.records[key] == db.records[key])
  {
    hide EncodeMember, BaseStatus, IsSuspended, IsTerminal, FreshOps, HandleMessage, RestoreInbound, Gate, Finishes;
    var n := k - 1;
    EncodingIsInjective(ResumedMember(command.header), WaitAt(s, ids, n));
    assert Waiting(db, s, ids, n);
    assert ids[n] in ids;
    GateCases(db.waits, command.header);
    var r := db.records[(s, ids[n])];
    SuspendedIsNeitherNewNorQueued(r.status);
    var full := WithHistory(command, env.history);
    var begun := Entry(db, env, command);
    assert Recorded(begun, s, ids, n) by {
      forall i | 0 <= i <= n ensures (s, ids[i]) in begun.records {
        assert Waiting(db, s, ids, i);
      }
    }
    HandlingSpares(begun, env, full, Some(r), handler, s, ids, n);
    FinishingStatus(begun, env, full, r, handler);
    var o := HandleMessage(begun, env, full, Some(r), handler);
    var db' := Process(db, env, command, handler).0;
    assert db' == Finish(o.db, (s, ids[n]), o.status);
    forall i | 0 <= i < n ensures Waiting(db', s, ids, i) {
      assert Waiting(db, s, ids, i);
      EntriesDiffer(s, ids, i, n);
    }
  }

  lemma SuspendedIsNeitherNewNorQueued(status: string)
    requires IsSuspended(BaseStatus(status))
    ensures status != "" && status != QUEUED
  {
    StatusesDiffer();
    RunningBases();
  }

  lemma TerminalIsGone(db: Db, s: string, id: string)
    requires Over(db, s, id)
    ensures Gone(db, s, id)
  {
    FinishedBases();
    GroupAbortBase();
    hide BaseStatus;
  }

  // ----- runs -----

  /** The execution has finished. */
  ghost predicate Over(db: Db, s: string, id: string) {
    (s, id) in db.records && IsTerminal(db.records[(s, id)].status)
  }

  /** `Sweep` is any pass over the shard; `Wake` delivers, at any later time, some message that waits for the deepest
      level, be it a sweep's or the reply of the level below, to a handler that finishes; `Elsewhere` is anything else.
      */
  datatype Step =
    | Sweep(now: int, clock: nat -> int, batch: seq<string>)
    | Wake(command: Command, env: Env, handler: Handler)
    | Elsewhere(after: Db)

  /** What anything else leaves of a chain whose first `k` levels wait: their records and entries, though not the
      entries' deadlines; and what is over stays over. */
  ghost predicate Leaves(db: Db, db': Db, s: string, ids: seq<string>, k: nat)
    requires k < |ids|
  {
    && (forall i :: 0 <= i < k ==> StillWaits(db, db', s, ids, i))
    && (Gone(db, s, ids[k]) ==> Gone(db', s, ids[k]))
    && (forall id :: id in ids[k..] && Over(db, s, id) ==> Over(db', s, id))
  }

  ghost predicate StillWaits(db: Db, db': Db, s: string, ids: seq<string>, i: nat)
    requires i + 1 < |ids|
  {
    && Lookup(db', ids[i], s) == Lookup(db, ids[i], s)
    && (EntryAt(s, ids, i) in db.waits.index && 0 <= db.waits.index[EntryAt(s, ids, i)] ==>
          EntryAt(s, ids, i) in db'.waits.index && 0 <= db'.waits.index[EntryAt(s, ids, i)])
  }

  ghost predicate Possible(db: Db, step: Step, s: string, ids: seq<string>, k: nat)
    requires k < |ids|
  {
    match step
    case Sweep(now, clock, batch) =>
      && now >= 0 && IsBatch(db.waits.index, now, SWEEP_BATCH_LIMIT, batch)
      && (forall m :: m in batch ==> m in db.waits.index) && forall i :: clock(i) >= now
    case Wake(command, env, handler) =>
      && k > 0 && (exists stream :: Posted(stream, command) in db.ctrl) && Wakes(Posted("", command), s, ids, k - 1)
      && Finishes(handler.end) && MintsNew(db, env, command, handler)
    case Elsewhere(after) => Leaves(db, after, s, ids, k)
  }

  ghost function After(db: Db, step: Step, cfg: Config): Db
    requires step.Sweep? ==> forall m :: m in step.batch ==> m in db.waits.index
  {
    match step
    case Sweep(_, clock, batch) => ResolveAll(db, cfg, clock, batch, db.waits.index)
    case Wake(command, env, handler) => Process(db, env, command, handler).0
    case Elsewhere(after) => after
  }

  /** How many of the first `j` steps were deliveries to the deepest level. */
  function Woken(steps: seq<Step>, j: nat): (n: nat)
    requires j <= |steps|
    ensures n <= j
  {
    if j == 0 then 0 else Woken(steps, j - 1) + if steps[j - 1].Wake? then 1 else 0
  }

  ghost predicate Follows(states: seq<Db>, steps: seq<Step>, cfg: Config, s: string, ids: seq<string>, depth: nat,
                          j: nat)
    requires j < |steps| && |states| == |steps| + 1 && depth < |ids|
  {
    && Woken(steps, j) <= depth && Possible(states[j], steps[j], s, ids, depth - Woken(steps, j))
    && states[j + 1] == After(states[j], steps[j], cfg)
  }

  /** A run over a chain of `depth` waits: passes at any times over any entries, deliveries late or repeated, and
      everything else in between. */
  ghost predicate Run(states: seq<Db>, steps: seq<Step>, cfg: Config, s: string, ids: seq<string>, depth: nat) {
    && depth < |ids| && |states| == |steps| + 1
    && Chained(states[0], s, ids, depth) && Gone(states[0], s, ids[depth])
    && forall j :: 0 <= j < |steps| ==> Follows(states, steps, cfg, s, ids, depth, j)
  }

  /** Where a run of a chain stands when its first `k` levels still wait. */
  ghost predicate Stands(db: Db, s: string, ids: seq<string>, depth: nat, k: int) {
    && 0 <= k <= depth < |ids| && Chained(db, s, ids, k) && Gone(db, s, ids[k])
    && forall l :: k <= l < depth ==> Over(db, s, ids[l])
  }

  lemma {:induction false} SweepsKeepRecords(db: Db, cfg: Config, clock: nat -> int, batch: seq<string>,
                                             scores: map<string, int>)
    requires forall m :: m in batch ==> m in scores
    ensures var db' := ResolveAll(db, cfg, clock, batch, scores); db'.records == db.records && db'.online == db.online
  {
    hide ResolveEntry;
    if batch != [] {
      var n := |batch| - 1;
      SweepsKeepRecords(db, cfg, clock, batch[..n], scores);
      SweepFrame(ResolveAll(db, cfg, clock, batch[..n], scores), cfg, clock(n), batch[n], scores[batch[n]]);
    }
  }

  lemma SweepStands(db: Db, cfg: Config, step: Step, s: string, ids: seq<string>, depth: nat, k: nat)
    requires Stands(db, s, ids, depth, k) && step.Sweep? && Possible(db, step, s, ids, k)
    ensures Stands(After(db, step, cfg), s, ids, depth, k)
  {
    hide Chained, IsBatch, ResolveAll, IsTerminal, BaseStatus, IsSuspended;
    SweepsKeepRecords(db, cfg, step.clock, step.batch, db.waits.index);
    if k > 0 {
      SweepsSpeakForTheDeepestWait(db, cfg, step.clock, step.batch, db.waits.index, s, ids, k);
    } else {
      NobodyIsChained(db, After(db, step, cfg), s, ids);
    }
  }

  lemma NobodyIsChained(db: Db, db': Db, s: string, ids: seq<string>)
    requires Chained(db, s, ids, 0)
    ensures Chained(db', s, ids, 0)
  {
  }

  lemma WakeStands(db: Db, cfg: Config, step: Step, s: string, ids: seq<string>, depth: nat, k: nat)
    requires Stands(db, s, ids, depth, k) && step.Wake? && Possible(db, step, s, ids, k)
    ensures k > 0 && Stands(After(db, step, cfg), s, ids, depth, k - 1)
  {
    hide Chained, Gone, Wakes, MintsNew, Process, IsTerminal, ProperIds;
    DeliveryFinishesTheLevel(db, step.env, step.command, step.handler, s, ids, k);
    IdsDiffer(db, s, ids, k);
    var db' := After(db, step, cfg);
    assert Over(db', s, ids[k - 1]);
    TerminalIsGone(db', s, ids[k - 1]);
  }

  lemma IdsDiffer(db: Db, s: string, ids: seq<string>, k: nat)
    requires Chained(db, s, ids, k)
    ensures forall i, j :: 0 <= i < j < |ids| ==> ids[i] != ids[j]
  {
  }

  lemma ElsewhereStands(db: Db, after: Db, s: string, ids: seq<string>, depth: nat, k: nat)
    requires Stands(db, s, ids, depth, k) && Leaves(db, after, s, ids, k)
    ensures Stands(after, s, ids, depth, k)
  {
    hide BaseStatus, IsSuspended, IsTerminal, EntryAt, Gone;
    forall i | 0 <= i < k ensures Waiting(after, s, ids, i) {
      assert Waiting(db, s, ids, i) && StillWaits(db, after, s, ids, i);
    }
    forall l | k <= l < depth ensures Over(after, s, ids[l]) {
      assert ids[k..][l - k] == ids[l] && ids[l] in ids[k..];
      assert Over(db, s, ids[l]);
    }
  }

  /** At every point of every run, once `n` levels have been woken the lowest `n` callers are over, all of them, the
      level above them is gone or will be spoken for, and everything above still waits: failure travels strictly
      upwards. */
  lemma {:induction false} ChainResolvesUpwards(states: seq<Db>, steps: seq<Step>, cfg: Config, s: string,
                                                ids: seq<string>, depth: nat, j: nat)
    requires Run(states, steps, cfg, s, ids, depth) && j <= |steps|
    ensures Stands(states[j], s, ids, depth, depth - Woken(steps, j))
  {
    hide Chained, Gone, IsTerminal, Over, Possible, After, Stands;
    if j == 0 {
      StartStands(states[0], s, ids, depth);
    } else {
      ChainResolvesUpwards(states, steps, cfg, s, ids, depth, j - 1);
      assert Follows(states, steps, cfg, s, ids, depth, j - 1);
      StepStands(states[j - 1], steps[j - 1], cfg, s, ids, depth, depth - Woken(steps, j - 1));
    }
  }

  lemma StartStands(db: Db, s: string, ids: seq<string>, depth: nat)
    requires depth < |ids| && Chained(db, s, ids, depth) && Gone(db, s, ids[depth])
    ensures Stands(db, s, ids, depth, depth)
  {
  }

  lemma StepStands(db: Db, step: Step, cfg: Config, s: string, ids: seq<string>, depth: nat, k: nat)
    requires Stands(db, s, ids, depth, k) && Possible(db, step, s, ids, k)
    ensures step.Sweep? ==> forall m :: m in step.batch ==> m in db.waits.index
    ensures Stands(After(db, step, cfg), s, ids, depth, if step.Wake? then k - 1 else k)
  {
    match step
    case Sweep(_, _, _) =>
      SweepStands(db, cfg, step, s, ids, depth, k);
    case Wake(_, _, _) =>
      WakeStands(db, cfg, step, s, ids, depth, k);
    case Elsewhere(after) =>
      ElsewhereStands(db, after, s, ids, depth, k);
  }

  /** In every run, as soon as as many levels have been woken as the chain has waits, its root is over. */
  lemma RootResolves(states: seq<Db>, steps: seq<Step>, cfg: Config, s: string, ids: seq<string>, depth: nat, j: nat)
    requires Run(states, steps, cfg, s, ids, depth) && depth > 0 && j <= |steps| && Woken(steps, j) == depth
    ensures Over(states[j], s, ids[0])
  {
    hide Run;
    RunShape(states, steps, cfg, s, ids, depth);
    ChainResolvesUpwards(states, steps, cfg, s, ids, depth, j);
  }

  lemma RunShape(states: seq<Db>, steps: seq<Step>, cfg: Config, s: string, ids: seq<string>, depth: nat)
    requires Run(states, steps, cfg, s, ids, depth)
    ensures depth < |ids| && |states| == |steps| + 1
  {
  }

  /** In every run, no pass says anything to a level above the deepest one that still waits, and one that reaches the
      deepest leaves a message for it. */
  lemma FailuresComeFromBelow(states: seq<Db>, steps: seq<Step>, cfg: Config, s: string, ids: seq<string>, depth: nat,
                              j: nat)
    requires Run(states, steps, cfg, s, ids, depth) && j < |steps| && steps[j].Sweep? && Woken(steps, j) < depth
    ensures depth < |ids| && |states| == |steps| + 1
    ensures var (k, db, db') := (depth - Woken(steps, j), states[j], states[j + 1]);
            && db.ctrl <= db'.ctrl
            && (forall l, i :: |db.ctrl| <= l < |db'.ctrl| && 0 <= i < k - 1 ==> !Wakes(db'.ctrl[l], s, ids, i))
            && (EntryAt(s, ids, k - 1) in steps[j].batch ==>
                  exists l :: |db.ctrl| <= l < |db'.ctrl| && Wakes(db'.ctrl[l], s, ids, k - 1))
  {
    hide Chained, Gone, Wakes, EntryAt, Over, IsBatch, ResolveAll;
    ChainResolvesUpwards(states, steps, cfg, s, ids, depth, j);
    assert Follows(states, steps, cfg, s, ids, depth, j);
    var k := depth - Woken(steps, j);
    SweepsSpeakForTheDeepestWait(states[j], cfg, steps[j].clock, steps[j].batch, states[j].waits.index, s, ids, k);
  }

  // ----- what happens elsewhere -----

  lemma SparedLeaves(db: Db, db': Db, s: string, ids: seq<string>, k: nat)
    requires k < |ids| && s != "" && db'.online == db.online
    requires forall id :: id in ids && (s, id) in db.records ==>
             (s, id) in db'.records && db'.records[(s, id)] == db.records[(s, id)]
    requires forall i :: 0 <= i <= k ==> (s, ids[i]) in db.records
    requires forall i :: 0 <= i < k && EntryAt(s, ids, i) in db.waits.index ==>
               EntryAt(s, ids, i) in db'.waits.index &&
                   db'.waits.index[EntryAt(s, ids, i)] == db.waits.index[EntryAt(s, ids, i)]
    ensures Leaves(db, db', s, ids, k)
  {
    hide BaseStatus, IsSuspended, IsTerminal, EntryAt;
    forall i | 0 <= i <= k ensures Lookup(db', ids[i], s) == Lookup(db, ids[i], s) {
      assert ids[i] in ids;
    }
    forall id | id in ids[k..] && Over(db, s, id) ensures Over(db', s, id) {
      assert id in ids;
    }
  }

  /** A message for an execution outside the chain is such a step, whatever its handler does: it may suspend, call, fan
      out, answer or fail. */
  lemma OtherMessagesLeaveTheChain(db: Db, env: Env, command: Command, handler: Handler, s: string, ids: seq<string>,
                                   k: nat)
    requires Chained(db, s, ids, k) && k < |ids| && (s, ids[k]) in db.records
    requires forall id :: id in ids ==> KeyOf(command) != (s, id)
    requires MintsNew(db, env, command, handler)
    ensures Leaves(db, Process(db, env, command, handler).0, s, ids, k)
  {
    hide EncodeMember, EntryAt, IsTerminal, FreshOps, HandleMessage, RestoreInbound, Process, Gated, JoinReply, Leaves,
         Waiting, Spared;
    LevelsHaveRecords(db, s, ids, k);
    var gated := Gated(db, command).0;
    var existing := Existing(db, command);
    var full := WithHistory(command, env.history);
    var begun := Begin(gated, env, full, existing);
    GateSparesTheChain(db, command, s, ids, k);
    HandlingSpares(begun, env, full, existing, handler, s, ids, k);
    OutcomeOf(db, env, command, handler);
    var o := HandleMessage(begun, env, full, existing, handler);
    var db' := Process(db, env, command, handler).0;
    SparedFacts(begun, o.db, s, ids, k);
    hide Recorded;
    SparedLeaves(db, db', s, ids, k);
  }

  lemma LevelsHaveRecords(db: Db, s: string, ids: seq<string>, k: nat)
    requires Chained(db, s, ids, k) && (s, ids[k]) in db.records
    ensures s != "" && Recorded(db, s, ids, k)
  {
    hide EntryAt, BaseStatus, IsSuspended;
    forall i | 0 <= i <= k ensures (s, ids[i]) in db.records {
      assert i < k ==> Waiting(db, s, ids, i);
    }
  }

  lemma SparedFacts(db: Db, db': Db, s: string, ids: seq<string>, n: nat)
    requires n < |ids| && Spared(db, db', s, ids, n)
    ensures db'.online == db.online
    ensures forall key :: key in db.records ==> key in db'.records && db'.records[key] == db.records[key]
    ensures forall i :: 0 <= i < n && EntryAt(s, ids, i) in db.waits.index ==>
              EntryAt(s, ids, i) in db'.waits.index && db'.waits.index[EntryAt(s, ids, i)] ==
                  db.waits.index[EntryAt(s, ids, i)]
  {
    hide EntryAt;
  }

  /** The store a delivery leaves: as the gate left it, or as handling the message did, but for the final status. */
  lemma OutcomeOf(db: Db, env: Env, command: Command, handler: Handler)
    ensures var gated := Gated(db, command).0;
            var full := WithHistory(command, env.history);
            var o := HandleMessage(Begin(gated, env, full, Existing(db, command)), env, full, Existing(db, command),
                                   handler);
            Process(db, env, command, handler).0 in
              {gated, Finish(gated, KeyOf(command), CANCELLED), Finish(o.db, KeyOf(command), o.status)}
  {
    hide HandleMessage, Gate, IsTerminal;
  }

  lemma GateSparesTheChain(db: Db, command: Command, s: string, ids: seq<string>, k: nat)
    requires k < |ids| && forall id :: id in ids ==> KeyOf(command) != (s, id)
    ensures var gated := Gated(db, command).0;
            && gated == db.(waits := gated.waits)
            && forall i :: 0 <= i < k && EntryAt(s, ids, i) in db.waits.index ==>
                 EntryAt(s, ids, i) in gated.waits.index &&
                     gated.waits.index[EntryAt(s, ids, i)] == db.waits.index[EntryAt(s, ids, i)]
  {
    hide EncodeMember, Gate;
    if command.Resume? {
      var h := command.header;
      GateCases(db.waits, h);
      forall i | 0 <= i < k ensures EntryAt(s, ids, i) != MemberFromResume(h) &&
          EntryAt(s, ids, i) != AskUserMember(h) {
        assert ids[i] in ids;
        if EntryAt(s, ids, i) == MemberFromResume(h) {
          EncodingIsInjective(WaitAt(s, ids, i), ResumedMember(h));
        }
        if EntryAt(s, ids, i) == AskUserMember(h) {
          EncodingIsInjective(WaitAt(s, ids, i), Member(h.sessionId, h.messageId, "", ""));
        }
      }
    }
  }

  // ----- there is such a run -----

  /** What a pass at one time does to the scores: an entry keeps its own, or moves to one increment past that time. */
  lemma SweepMovesScores(db: Db, cfg: Config, step: Step)
    requires step.Sweep? && IsBatch(db.waits.index, step.now, SWEEP_BATCH_LIMIT, step.batch)
    requires (forall m :: m in step.batch ==> m in db.waits.index) && forall i :: step.clock(i) == step.now
    ensures forall m :: m in After(db, step, cfg).waits.index ==>
              && m in db.waits.index
              && (After(db, step, cfg).waits.index[m] == db.waits.index[m] ||
                  (After(db, step, cfg).waits.index[m] == step.now + RENEW_INCREMENT_MS &&
                   0 <= db.waits.index[m] <= step.now))
  {
    hide ResolveAll, Before, Backlog.AsksUser;
    Backlog.BatchIsDistinct(db.waits.index, step.now, SWEEP_BATCH_LIMIT, step.batch);
    Backlog.PassMovesItsBatch(db, cfg, step.clock, step.batch, db.waits.index);
    forall m | m in After(db, step, cfg).waits.index
      ensures m in db.waits.index
      ensures After(db, step, cfg).waits.index[m] == db.waits.index[m] ||
              (After(db, step, cfg).waits.index[m] == step.now + RENEW_INCREMENT_MS &&
               0 <= db.waits.index[m] <= step.now)
    {
      if m in step.batch {
        var i :| 0 <= i < |step.batch| && step.batch[i] == m;
        assert IsDue(db.waits.index, step.now, step.batch[i]);
      }
    }
  }

  /** A handler that asks for nothing only claims. */
  lemma QuietDeliveryOnlyClaims(db: Db, env: Env, command: Command, end: End)
    requires command.Resume? && command.header.taskGroupId == ""
    ensures forall m :: m in Process(db, env, command, Handler([], end)).0.waits.index ==>
              m in db.waits.index && Process(db, env, command, Handler([], end)).0.waits.index[m] == db.waits.index[m]
  {
    hide EncodeMember, Gate, ReplyHeader, RestoreInbound, Flush, CancelPath, RunHandler, HandleMessage;
    Backlog.GateOnlyClaims(db.waits, command.header);
    var full := WithHistory(command, env.history);
    var gated := Gated(db, command).0;
    var existing := Existing(gated, command);
    QuietHandling(Begin(gated, env, full, existing), env, full, existing, end);
  }

  lemma QuietHandling(db: Db, env: Env, command: Command, existing: Option<Record>, end: End)
    requires command.Resume? && command.header.taskGroupId == ""
    ensures HandleMessage(db, env, command, existing, Handler([], end)).db.waits == db.waits
  {
    hide ReplyHeader, RestoreInbound, RunHandler, CancelPath;
    RunOnlySends(db, env, command, existing, Handler([], end));
    if existing.Some? && existing.value.cancelRequested {
      CancelOnlySends(db, env, command, ReplyHeader(command, existing), None,
                      OrElse(existing.value.cancelReason, "task cancelled before processing"));
    }
  }

  /** Once a pass has reached the deepest entry, its caller can be woken. */
  lemma SomeWake(db: Db, cfg: Config, sweep: Step, s: string, ids: seq<string>, k: nat, env: Env, result: TaskResult)
    returns (wake: Step)
    requires Chained(db, s, ids, k) && 0 < k < |ids| && Gone(db, s, ids[k]) && IsTerminal(result.status)
    requires sweep.Sweep? && Possible(db, sweep, s, ids, k) && EntryAt(s, ids, k - 1) in sweep.batch
    ensures var swept := After(db, sweep, cfg);
            && wake.Wake? && Possible(swept, wake, s, ids, k)
            && forall m :: m in After(swept, wake, cfg).waits.index ==>
                 m in swept.waits.index && After(swept, wake, cfg).waits.index[m] == swept.waits.index[m]
  {
    hide Chained, Gone, IsTerminal, IsBatch, ResolveAll, EncodeMember, Entry, RestoreInbound, Process;
    SweepsSpeakForTheDeepestWait(db, cfg, sweep.clock, sweep.batch, db.waits.index, s, ids, k);
    var swept := After(db, sweep, cfg);
    var j :| |db.ctrl| <= j < |swept.ctrl| && Wakes(swept.ctrl[j], s, ids, k - 1);
    var command := swept.ctrl[j].command;
    assert swept.ctrl[j] == Posted(swept.ctrl[j].stream, command);
    wake := Wake(command, env, Handler([], Returns(result)));
    EncodingIsInjective(ResumedMember(command.header), WaitAt(s, ids, k - 1));
    QuietDeliveryOnlyClaims(swept, env, command, Returns(result));
  }

  /** A step in front of a run is a run. */
  lemma FirstStep(db: Db, step: Step, states: seq<Db>, steps: seq<Step>, cfg: Config, s: string, ids: seq<string>,
                  depth: nat, rest: nat)
    requires Chained(db, s, ids, depth) && depth < |ids| && Gone(db, s, ids[depth]) && Possible(db, step, s, ids, depth)
    requires Run(states, steps, cfg, s, ids, rest) && depth == rest + if step.Wake? then 1 else 0
    requires step.Sweep? ==> forall m :: m in step.batch ==> m in db.waits.index
    requires states[0] == After(db, step, cfg)
    ensures Run([db] + states, [step] + steps, cfg, s, ids, depth)
    ensures Woken([step] + steps, |steps| + 1) == Woken(steps, |steps|) + if step.Wake? then 1 else 0
  {
    hide Chained, Gone, Possible, After;
    var states', steps' := [db] + states, [step] + steps;
    forall j | 0 <= j <= |steps| ensures Woken(steps', j + 1) == Woken(steps, j) + if step.Wake? then 1 else 0 {
      WokenLater(step, steps, j);
    }
    forall j | 0 <= j < |steps'| ensures Follows(states', steps', cfg, s, ids, depth, j) {
      if j > 0 {
        assert Follows(states, steps, cfg, s, ids, rest, j - 1);
        assert states'[j] == states[j - 1] && steps'[j] == steps[j - 1] && states'[j + 1] == states[j];
        assert Woken(steps', j) == Woken(steps, j - 1) + if step.Wake? then 1 else 0;
      }
    }
  }

  lemma {:induction false} WokenLater(step: Step, steps: seq<Step>, j: nat)
    requires j <= |steps|
    ensures Woken([step] + steps, j + 1) == Woken(steps, j) + if step.Wake? then 1 else 0
  {
    if j > 0 {
      WokenLater(step, steps, j - 1);
    }
  }

  /** The waits on users that fall due by `horizon`. */
  ghost function AskedBy(index: map<string, int>, horizon: int): set<string> {
    set m | m in index && Backlog.AsksUser(m) && 0 <= index[m] <= horizon
  }

  /** The deepest wait falls due by `horizon`, the ones above it one increment later at the latest. */
  ghost predicate DueBy(db: Db, s: string, ids: seq<string>, k: nat, horizon: int)
    requires k < |ids|
  {
    forall i :: 0 <= i < k && EntryAt(s, ids, i) in db.waits.index ==>
      db.waits.index[EntryAt(s, ids, i)] <= if i == k - 1 then horizon else horizon + RENEW_INCREMENT_MS
  }

  /** How many entries a pass has to take before the deepest one, waits on users aside. */
  ghost function Queued(db: Db, s: string, ids: seq<string>, k: nat): nat {
    if 0 < k < |ids| && EntryAt(s, ids, k - 1) in db.waits.index
    then |Backlog.OthersAhead(db.waits.index, EntryAt(s, ids, k - 1))| else 0
  }

  /** How many steps a chain of `k` waits takes if `room` entries of a batch are left for others than users. */
  function StepBound(k: nat, queued: nat, size: nat, room: nat): nat
    requires room > 0
  {
    if k == 0 then 0 else queued / room + 2 + (k - 1) * (size / room + 2)
  }

  lemma {:induction false} OneMoreTimes(d: nat, x: nat, y: nat)
    requires x > y
    ensures d * x >= d * y + d
  {
    if x == y + 1 {
      assert d * (y + 1) == d * y + d;
    } else {
      OneMoreTimes(d, x - 1, y);
      assert d * x == d * (x - 1) + d;
    }
  }

  lemma QuotientAtLeast(b: nat, d: nat, q: nat)
    requires d > 0 && b >= d * q
    ensures b / d >= q
  {
    if b / d < q {
      OneMoreTimes(d, q, b / d);
      assert false;
    }
  }

  lemma DivisionIsMonotone(a: nat, b: nat, d: nat)
    requires d > 0 && a <= b
    ensures a / d <= b / d
  {
    QuotientAtLeast(b, d, a / d);
  }

  lemma OneBatchLess(a: nat, b: nat, d: nat)
    requires d > 0 && a + d <= b
    ensures a / d + 1 <= b / d
  {
    OneMoreTimes(d, a / d + 1, a / d);
    assert d * (a / d + 1) == d * (a / d) + d;
    QuotientAtLeast(b, d, a / d + 1);
  }

  lemma StepBoundClimbs(k: nat, queued: nat, size: nat, room: nat)
    requires room > 0 && k > 0 && queued <= size
    ensures StepBound(k, queued, size, room) <= k * (size / room + 2)
  {
    DivisionIsMonotone(queued, size, room);
    assert (k - 1) * (size / room + 2) + (size / room + 2) == k * (size / room + 2);
  }

  /** Sweeps only let time pass for waits on users, never the other way. */
  lemma AskedShrinks(before: map<string, int>, after: map<string, int>, now: int, horizon: int)
    requires now + RENEW_INCREMENT_MS <= horizon
    requires forall m :: m in after ==>
               && m in before
               && (after[m] == before[m] || (after[m] == now + RENEW_INCREMENT_MS && 0 <= before[m] <= now))
    ensures AskedBy(after, horizon) <= AskedBy(before, horizon) &&
            |AskedBy(after, horizon)| <= |AskedBy(before, horizon)|
    ensures |after| <= |before|
  {
    hide Backlog.AsksUser;
    SubsetSize(AskedBy(after, horizon), AskedBy(before, horizon));
    SubsetSize(after.Keys, before.Keys);
  }

  /** Of what is ahead of the deepest entry, the waits on users are among those due by any later time. */
  lemma FewUsersAhead(db: Db, s: string, ids: seq<string>, k: nat, horizon: int, last: int)
    requires Chained(db, s, ids, k) && 0 < k < |ids| && DueBy(db, s, ids, k, horizon) && horizon <= last
    ensures EntryAt(s, ids, k - 1) in db.waits.index
    ensures |Backlog.AskUserAhead(db.waits.index, EntryAt(s, ids, k - 1))| <= |AskedBy(db.waits.index, last)|
    ensures Queued(db, s, ids, k) <= |db.waits.index|
  {
    hide Backlog.AsksUser, EntryAt, BaseStatus, IsSuspended;
    assert Waiting(db, s, ids, k - 1);
    var e := EntryAt(s, ids, k - 1);
    SubsetSize(Backlog.AskUserAhead(db.waits.index, e), AskedBy(db.waits.index, last));
    SubsetSize(Backlog.OthersAhead(db.waits.index, e), db.waits.index.Keys);
  }

  /** All the sweeps of a run, in order of time and none before `t`. */
  ghost predicate InOrder(steps: seq<Step>, t: int) {
    && (forall j :: 0 <= j < |steps| ==> !steps[j].Elsewhere? && (steps[j].Sweep? ==> t <= steps[j].now))
    && (forall i, j :: 0 <= i < j < |steps| && steps[i].Sweep? && steps[j].Sweep? ==> steps[i].now <= steps[j].now)
  }

  lemma FirstInOrder(step: Step, steps: seq<Step>, t: int, now: int)
    requires InOrder(steps, now) && t <= now && !step.Elsewhere? && (step.Sweep? ==> step.now == now)
    ensures InOrder([step] + steps, t)
  {
    var all := [step] + steps;
    assert forall j :: 0 < j < |all| ==> all[j] == steps[j - 1];
  }

  /** A run of passes and deliveries alone from `db`, the clock never running backwards, that wakes every level. */
  ghost predicate Resolves(db: Db, states: seq<Db>, steps: seq<Step>, cfg: Config, s: string, ids: seq<string>,
                           depth: nat,
                           t: int, bound: nat)
  {
    && Run(states, steps, cfg, s, ids, depth) && states[0] == db && Woken(steps, |steps|) == depth
    && InOrder(steps, t) && |steps| <= bound
  }

  lemma PassFirst(db: Db, sweep: Step, states: seq<Db>, steps: seq<Step>, cfg: Config, s: string, ids: seq<string>,
                  depth: nat, t: int, bound: nat)
    requires Chained(db, s, ids, depth) && depth < |ids| && Gone(db, s, ids[depth])
    requires sweep.Sweep? && Possible(db, sweep, s, ids, depth) && t <= sweep.now
    requires forall m :: m in sweep.batch ==> m in db.waits.index
    requires Resolves(After(db, sweep, cfg), states, steps, cfg, s, ids, depth, sweep.now, bound)
    ensures Resolves(db, [db] + states, [sweep] + steps, cfg, s, ids, depth, t, bound + 1)
  {
    hide Chained, Gone, Possible, After, Run, InOrder, Woken;
    FirstStep(db, sweep, states, steps, cfg, s, ids, depth, depth);
    FirstInOrder(sweep, steps, t, sweep.now);
  }

  lemma WakeFirst(db: Db, wake: Step, states: seq<Db>, steps: seq<Step>, cfg: Config, s: string, ids: seq<string>,
                  depth: nat, t: int, bound: nat)
    requires Chained(db, s, ids, depth) && 0 < depth < |ids| && Gone(db, s, ids[depth])
    requires wake.Wake? && Possible(db, wake, s, ids, depth)
    requires Resolves(After(db, wake, cfg), states, steps, cfg, s, ids, depth - 1, t, bound)
    ensures Resolves(db, [db] + states, [wake] + steps, cfg, s, ids, depth, t, bound + 1)
  {
    hide Chained, Gone, Possible, After, Run, InOrder, Woken;
    FirstStep(db, wake, states, steps, cfg, s, ids, depth, depth - 1);
    FirstInOrder(wake, steps, t, t);
  }

  lemma WithinBound(db: Db, states: seq<Db>, steps: seq<Step>, cfg: Config, s: string, ids: seq<string>, depth: nat,
                    t: int, bound: nat, larger: nat)
    requires Resolves(db, states, steps, cfg, s, ids, depth, t, bound) && bound <= larger
    ensures Resolves(db, states, steps, cfg, s, ids, depth, t, larger)
  {
    hide Run, InOrder, Woken;
  }

  /** What the construction of such a run needs of the store: time to the horizon, room in a batch, a bound on its size.
      */
  ghost predicate Resolvable(db: Db, s: string, ids: seq<string>, depth: nat, t: nat, horizon: nat, room: nat,
                             size: nat)
  {
    && depth < |ids| && Chained(db, s, ids, depth) && Gone(db, s, ids[depth])
    && t <= horizon && DueBy(db, s, ids, depth, horizon) && |db.waits.index| <= size
    && room > 0 && |AskedBy(db.waits.index, horizon + depth * RENEW_INCREMENT_MS)| + room <= SWEEP_BATCH_LIMIT
  }

  lemma LevelBound(k: nat, queued: nat, queued': nat, size: nat, room: nat)
    requires room > 0 && k > 0 && queued' <= size
    ensures StepBound(k - 1, queued', size, room) + 2 <= StepBound(k, queued, size, room)
  {
    if k > 1 {
      StepBoundClimbs(k - 1, queued', size, room);
    }
  }

  lemma PassBound(k: nat, queued: nat, queued': nat, size: nat, room: nat)
    requires room > 0 && k > 0 && queued' + room <= queued
    ensures StepBound(k, queued', size, room) + 1 <= StepBound(k, queued, size, room)
  {
    OneBatchLess(queued', queued, room);
  }

  lemma QueueFits(db: Db, s: string, ids: seq<string>, k: nat)
    ensures Queued(db, s, ids, k) <= |db.waits.index|
  {
    hide EntryAt, Backlog.AsksUser;
    if 0 < k < |ids| && EntryAt(s, ids, k - 1) in db.waits.index {
      SubsetSize(Backlog.OthersAhead(db.waits.index, EntryAt(s, ids, k - 1)), db.waits.index.Keys);
    }
  }

  /** A pass at the first time the deepest entry is due, all of it at that time. */
  lemma SomeSweep(db: Db, s: string, ids: seq<string>, k: nat, t: nat, horizon: nat) returns (now: nat, sweep: Step)
    requires Chained(db, s, ids, k) && 0 < k < |ids| && t <= horizon && DueBy(db, s, ids, k, horizon)
    ensures sweep.Sweep? && sweep.now == now && t <= now <= horizon && Possible(db, sweep, s, ids, k)
    ensures (forall m :: m in sweep.batch ==> m in db.waits.index) && forall i :: sweep.clock(i) == now
    ensures IsDue(db.waits.index, now, EntryAt(s, ids, k - 1))
  {
    hide EntryAt, BaseStatus, IsSuspended;
    assert Waiting(db, s, ids, k - 1);
    var index := db.waits.index;
    now := Max(t, index[EntryAt(s, ids, k - 1)]);
    var batch := SomeBatch(index, now, SWEEP_BATCH_LIMIT, {});
    BatchIsListed(index, now, batch);
    var at := now;
    sweep := Sweep(now, _ => at, batch);
  }

  lemma BatchIsListed(index: map<string, int>, now: int, batch: seq<string>)
    requires IsBatch(index, now, SWEEP_BATCH_LIMIT, batch)
    ensures forall m :: m in batch ==> m in index
  {
    forall m | m in batch ensures m in index {
      var i :| 0 <= i < |batch| && batch[i] == m;
      assert IsDue(index, now, batch[i]);
    }
  }

  lemma SweptFacts(db: Db, cfg: Config, sweep: Step, s: string, ids: seq<string>, k: nat, horizon: nat, last: int)
    requires Chained(db, s, ids, k) && 0 < k < |ids| && Gone(db, s, ids[k]) && sweep.Sweep? &&
             Possible(db, sweep, s, ids, k)
    requires (forall i :: sweep.clock(i) == sweep.now) && sweep.now <= horizon && last >= horizon + RENEW_INCREMENT_MS
    requires DueBy(db, s, ids, k, horizon)
    ensures forall m :: m in sweep.batch ==> m in db.waits.index
    ensures var swept := After(db, sweep, cfg);
            && Chained(swept, s, ids, k) && Gone(swept, s, ids[k]) && |swept.waits.index| <= |db.waits.index|
            && |AskedBy(swept.waits.index, last)| <= |AskedBy(db.waits.index, last)|
            && (forall i :: 0 <= i < k && EntryAt(s, ids, i) in swept.waits.index ==>
                  swept.waits.index[EntryAt(s, ids, i)] <= horizon + RENEW_INCREMENT_MS)
  {
    hide Chained, Gone, IsBatch, ResolveAll, EntryAt, AskedBy;
    var swept := After(db, sweep, cfg);
    SweepsSpeakForTheDeepestWait(db, cfg, sweep.clock, sweep.batch, db.waits.index, s, ids, k);
    SweepMovesScores(db, cfg, sweep);
    AskedShrinks(db.waits.index, swept.waits.index, sweep.now, last);
  }

  lemma WokenFacts(swept: Db, woken: Db, cfg: Config, wake: Step, s: string, ids: seq<string>, k: nat, horizon: nat,
                   last: int)
    requires Chained(swept, s, ids, k) && 0 < k < |ids| && Gone(swept, s, ids[k])
    requires wake.Wake? && Possible(swept, wake, s, ids, k) && woken == After(swept, wake, cfg)
    requires forall m :: m in woken.waits.index ==> m in swept.waits.index &&
                                                    woken.waits.index[m] == swept.waits.index[m]
    requires forall i :: 0 <= i < k && EntryAt(s, ids, i) in swept.waits.index ==>
               swept.waits.index[EntryAt(s, ids, i)] <= horizon + RENEW_INCREMENT_MS
    ensures Chained(woken, s, ids, k - 1) && Gone(woken, s, ids[k - 1])
    ensures DueBy(woken, s, ids, k - 1, horizon + RENEW_INCREMENT_MS)
    ensures |woken.waits.index| <= |swept.waits.index| &&
            |AskedBy(woken.waits.index, last)| <= |AskedBy(swept.waits.index, last)|
  {
    hide Chained, Gone, Possible, After, EntryAt, Over, Backlog.AsksUser;
    StartStands(swept, s, ids, k);
    WakeStands(swept, cfg, wake, s, ids, k, k);
    SubsetSize(AskedBy(woken.waits.index, last), AskedBy(swept.waits.index, last));
    SubsetSize(woken.waits.index.Keys, swept.waits.index.Keys);
  }

  /** A pass that misses the deepest entry shortens the queue before it by at least the room it has. */
  lemma SweepShrinksTheQueue(db: Db, cfg: Config, sweep: Step, s: string, ids: seq<string>, k: nat, horizon: nat,
                             last: int,
                             room: nat)
    requires Chained(db, s, ids, k) && 0 < k < |ids| && sweep.Sweep? && Possible(db, sweep, s, ids, k)
    requires DueBy(db, s, ids, k, horizon) && horizon <= last &&
             |AskedBy(db.waits.index, last)| + room <= SWEEP_BATCH_LIMIT
    requires IsDue(db.waits.index, sweep.now, EntryAt(s, ids, k - 1)) && EntryAt(s, ids, k - 1) !in sweep.batch
    requires forall i :: 0 <= i < k && EntryAt(s, ids, i) in After(db, sweep, cfg).waits.index ==>
               After(db, sweep, cfg).waits.index[EntryAt(s, ids, i)] <= horizon + RENEW_INCREMENT_MS
    ensures var swept := After(db, sweep, cfg);
            DueBy(swept, s, ids, k, horizon) && Queued(swept, s, ids, k) + room <= Queued(db, s, ids, k)
  {
    hide Chained, EntryAt, IsBatch, ResolveAll, AskedBy, Backlog.OthersAhead, Backlog.AskUserAhead;
    FewUsersAhead(db, s, ids, k, horizon, last);
    var pass := Backlog.Pass(db, sweep.now, sweep.clock, sweep.batch, []);
    Backlog.PassShrinksTheBacklog(pass, cfg, EntryAt(s, ids, k - 1));
    assert Backlog.Settled(pass, cfg) == After(db, sweep, cfg);
  }

  /** A pass that reaches the deepest entry, and the delivery it makes possible, leave a chain one shorter. */
  lemma ReachedIsResolvable(db: Db, cfg: Config, sweep: Step, s: string, ids: seq<string>, depth: nat, t: nat,
                            horizon: nat, room: nat, size: nat, env: Env, result: TaskResult)
    returns (wake: Step)
    requires depth > 0 && Resolvable(db, s, ids, depth, t, horizon, room, size) && IsTerminal(result.status)
    requires sweep.Sweep? && t <= sweep.now <= horizon && Possible(db, sweep, s, ids, depth)
    requires (forall i :: sweep.clock(i) == sweep.now) && EntryAt(s, ids, depth - 1) in sweep.batch
    ensures var swept := After(db, sweep, cfg);
            && Chained(swept, s, ids, depth) && Gone(swept, s, ids[depth])
            && wake.Wake? && Possible(swept, wake, s, ids, depth)
            && Resolvable(After(swept, wake, cfg), s, ids, depth - 1, sweep.now, horizon + RENEW_INCREMENT_MS, room,
                          size)
  {
    hide Chained, Gone, Possible, IsTerminal, After, EntryAt, DueBy, AskedBy;
    var last := horizon + depth * RENEW_INCREMENT_MS;
    assert last == horizon + RENEW_INCREMENT_MS + (depth - 1) * RENEW_INCREMENT_MS;
    SweptFacts(db, cfg, sweep, s, ids, depth, horizon, last);
    wake := SomeWake(db, cfg, sweep, s, ids, depth, env, result);
    var swept := After(db, sweep, cfg);
    WokenFacts(swept, After(swept, wake, cfg), cfg, wake, s, ids, depth, horizon, last);
  }

  /** One that misses it leaves the same chain with less before it. */
  lemma MissedIsResolvable(db: Db, cfg: Config, sweep: Step, s: string, ids: seq<string>, depth: nat, t: nat,
                           horizon: nat, room: nat, size: nat)
    requires depth > 0 && Resolvable(db, s, ids, depth, t, horizon, room, size)
    requires sweep.Sweep? && t <= sweep.now <= horizon && Possible(db, sweep, s, ids, depth)
    requires (forall i :: sweep.clock(i) == sweep.now) && EntryAt(s, ids, depth - 1) !in sweep.batch
    requires IsDue(db.waits.index, sweep.now, EntryAt(s, ids, depth - 1))
    ensures Resolvable(After(db, sweep, cfg), s, ids, depth, sweep.now, horizon, room, size)
    ensures Queued(After(db, sweep, cfg), s, ids, depth) + room <= Queued(db, s, ids, depth)
  {
    hide Chained, Gone, After, EntryAt, Queued, AskedBy, IsBatch;
    var last := horizon + depth * RENEW_INCREMENT_MS;
    assert last == horizon + RENEW_INCREMENT_MS + (depth - 1) * RENEW_INCREMENT_MS;
    SweptFacts(db, cfg, sweep, s, ids, depth, horizon, last);
    SweepShrinksTheQueue(db, cfg, sweep, s, ids, depth, horizon, last, room);
  }

  lemma ResolvableFacts(db: Db, s: string, ids: seq<string>, depth: nat, t: nat, horizon: nat, room: nat, size: nat)
    requires Resolvable(db, s, ids, depth, t, horizon, room, size)
    ensures depth < |ids| && Chained(db, s, ids, depth) && Gone(db, s, ids[depth]) && t <= horizon
    ensures DueBy(db, s, ids, depth, horizon) && room > 0 && Queued(db, s, ids, depth) <= size
  {
    hide Chained, Gone, DueBy, AskedBy, Queued;
    QueueFits(db, s, ids, depth);
  }

  lemma NothingToResolve(db: Db, cfg: Config, s: string, ids: seq<string>, t: int, bound: nat)
    requires 0 < |ids| && Chained(db, s, ids, 0) && Gone(db, s, ids[0])
    ensures Resolves(db, [db], [], cfg, s, ids, 0, t, bound)
  {
    hide Chained, Gone;
  }

  lemma {:induction false} SomeRunResolves(db: Db, cfg: Config, s: string, ids: seq<string>, depth: nat, t: nat,
                                           horizon: nat, room: nat, size: nat, env: Env, result: TaskResult)
    returns (states: seq<Db>, steps: seq<Step>)
    requires Resolvable(db, s, ids, depth, t, horizon, room, size) && IsTerminal(result.status) && room > 0
    ensures Resolves(db, states, steps, cfg, s, ids, depth, t, StepBound(depth, Queued(db, s, ids, depth), size, room))
    decreases depth, Queued(db, s, ids, depth)
  {
    hide Resolvable, Chained, Gone, Possible, IsTerminal, After, EntryAt, Queued, StepBound, DueBy, Resolves, IsBatch;
    ResolvableFacts(db, s, ids, depth, t, horizon, room, size);
    var queued := Queued(db, s, ids, depth);
    if depth == 0 {
      states, steps := [db], [];
      NothingToResolve(db, cfg, s, ids, t, StepBound(0, queued, size, room));
      return;
    }
    var now, sweep := SomeSweep(db, s, ids, depth, t, horizon);
    var swept := After(db, sweep, cfg);
    if EntryAt(s, ids, depth - 1) in sweep.batch {
      var wake := ReachedIsResolvable(db, cfg, sweep, s, ids, depth, t, horizon, room, size, env, result);
      var woken := After(swept, wake, cfg);
      var later, rest :=
        SomeRunResolves(woken, cfg, s, ids, depth - 1, now, horizon + RENEW_INCREMENT_MS, room, size, env, result);
      ResolvableFacts(woken, s, ids, depth - 1, now, horizon + RENEW_INCREMENT_MS, room, size);
      var bound := StepBound(depth - 1, Queued(woken, s, ids, depth - 1), size, room);
      WakeFirst(swept, wake, later, rest, cfg, s, ids, depth, now, bound);
      PassFirst(db, sweep, [swept] + later, [wake] + rest, cfg, s, ids, depth, t, bound + 1);
      states, steps := [db] + ([swept] + later), [sweep] + ([wake] + rest);
      LevelBound(depth, queued, Queued(woken, s, ids, depth - 1), size, room);
      WithinBound(db, states, steps, cfg, s, ids, depth, t, bound + 2, StepBound(depth, queued, size, room));
    } else {
      MissedIsResolvable(db, cfg, sweep, s, ids, depth, t, horizon, room, size);
      var later, rest := SomeRunResolves(swept, cfg, s, ids, depth, now, horizon, room, size, env, result);
      var bound := StepBound(depth, Queued(swept, s, ids, depth), size, room);
      PassFirst(db, sweep, later, rest, cfg, s, ids, depth, t, bound);
      states, steps := [db] + later, [sweep] + rest;
      PassBound(depth, queued, Queued(swept, s, ids, depth), size, room);
      WithinBound(db, states, steps, cfg, s, ids, depth, t, bound + 1, StepBound(depth, queued, size, room));
    }
  }

  /** A chain of any depth over a leaf that will not answer can always be resolved, as long as fewer than a batch of
      waits on users fall due before it is: there is a run of passes and deliveries alone, the clock never running
      backwards, that ends with the root over. With `room` places left in a batch and `size` entries in the shard it
      takes at most `size / room + 1` passes to each of its deliveries. */
  lemma SomeRunResolvesTheRoot(db: Db, cfg: Config, s: string, ids: seq<string>, depth: nat, t: nat, horizon: nat,
                               env: Env,
                               result: TaskResult)
    returns (states: seq<Db>, steps: seq<Step>)
    requires depth < |ids| && Chained(db, s, ids, depth) && Gone(db, s, ids[depth]) && IsTerminal(result.status)
    requires t <= horizon && DueBy(db, s, ids, depth, horizon)
    requires |AskedBy(db.waits.index, horizon + depth * RENEW_INCREMENT_MS)| < SWEEP_BATCH_LIMIT
    ensures Run(states, steps, cfg, s, ids, depth) && states[0] == db && Woken(steps, |steps|) == depth &&
            InOrder(steps, t)
    ensures var room := SWEEP_BATCH_LIMIT - |AskedBy(db.waits.index, horizon + depth * RENEW_INCREMENT_MS)|;
            |steps| <= depth * (|db.waits.index| / room + 2)
    ensures depth > 0 ==> Over(states[|steps|], s, ids[0])
  {
    hide Chained, Gone, IsTerminal, DueBy, AskedBy, Over, Run, InOrder, Queued, Woken;
    var room := SWEEP_BATCH_LIMIT - |AskedBy(db.waits.index, horizon + depth * RENEW_INCREMENT_MS)|;
    states, steps := SomeRunResolves(db, cfg, s, ids, depth, t, horizon, room, |db.waits.index|, env, result);
    QueueFits(db, s, ids, depth);
    if depth > 0 {
      StepBoundClimbs(depth, Queued(db, s, ids, depth), |db.waits.index|, room);
      RootResolves(states, steps, cfg, s, ids, depth, |steps|);
      RunShape(states, steps, cfg, s, ids, depth);
    }
  }
}
