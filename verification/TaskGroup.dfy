/** The accounting of one Task Group over every run (`src/context.ts`, `src/worker.ts`, `src/runner.ts`,
    `src/liveness/wait_gate.ts`): members enlist one by one, replies arrive in any order, any number of times,
    from whoever built them, while everything else in the system goes on. */
module TaskGroup {
  import opened Protocol
  import opened WaitIndex
  import opened WaitGate
  import opened Store
  import opened Builders
  import opened Dispatch
  import opened Worker
  import opened Runner
  import CallTree

  /** The group, the caller waiting on it, and its size. */
  datatype Fan = Fan(sessionId: string, caller: string, group: string, total: nat)

  /** Real group ids never share the namespace of single calls, and a group has at least one member. */
  ghost predicate ProperFan(g: Fan) {
    g.sessionId != "" && g.group != "" && !(SINGLE_GROUP_PREFIX <= g.group) && g.total > 0
  }

  function MemberKey(g: Fan, child: string): string {
    EncodeMember(Member(g.sessionId, g.caller, child, g.group))
  }

  function Joined(db: Db, g: Fan): set<string> {
    if g.group in db.results then db.results[g.group].Keys else {}
  }

  /** The caller is not being cancelled: a cancelled caller bails out before the join. */
  predicate CallerLives(db: Db, g: Fan) {
    (g.sessionId, g.caller) in db.records ==> !db.records[(g.sessionId, g.caller)].cancelRequested
  }

  // ----- what leaves the group alone -----

  ghost predicate Untouched(db: Db, db': Db, g: Fan) {
    && (g.group in db.groups <==> g.group in db'.groups)
    && (g.group in db.groups ==> db'.groups[g.group] == db.groups[g.group])
    && (g.group in db.results <==> g.group in db'.results)
    && (g.group in db.results ==> db'.results[g.group] == db.results[g.group])
    && SameWaits(db.waits, db'.waits, g)
    && (CallerLives(db, g) ==> CallerLives(db', g))
  }

  ghost predicate SameWaits(w: Waits, w': Waits, g: Fan) {
    forall child :: (MemberKey(g, child) in w'.index <==> MemberKey(g, child) in w.index) &&
                    (MemberKey(g, child) in w'.markers <==> MemberKey(g, child) in w.markers)
  }

  lemma UntouchedTrans(a: Db, b: Db, c: Db, g: Fan)
    requires Untouched(a, b, g) && Untouched(b, c, g)
    ensures Untouched(a, c, g)
  {
    hide EncodeMember;
  }

  /** Registering a wait outside the group. */
  lemma OtherWaitUntouched(db: Db, m: Member, timeoutMs: int, now: int, g: Fan)
    requires m.taskGroupId != g.group
    ensures Untouched(db, RegisterIn(db, m, timeoutMs, now), g)
  {
    hide EncodeMember;
    forall child ensures MemberKey(g, child) != EncodeMember(m) {
      if MemberKey(g, child) == EncodeMember(m) {
        EncodingIsInjective(Member(g.sessionId, g.caller, child, g.group), m);
      }
    }
  }

  /** No operation registers a wait in the group or opens it again. */
  predicate Avoids(c: Context, op: Op, g: Fan) {
    match op
    case CallAgent(_, _, _, wait, _, _, _, _, _, _) => wait ==> InputOf(c, op).taskGroupId != g.group
    case AskUser(_) => true
    case DispatchGroup(_, _, groupId, _, _) => groupId != g.group
  }

  predicate AllAvoid(c: Context, ops: seq<Op>, g: Fan) {
    forall op :: op in ops ==> Avoids(c, op, g)
  }

  lemma MemberUntouched(db: Db, f: FanOut, t: GroupTask, g: Fan)
    requires f.groupId != g.group
    ensures Untouched(db, DispatchMember(db, f, t), g)
  {
    hide EncodeMember, Registered;
    var db' := DispatchMember(db, f, t);
    if f.waitForReply {
      OtherWaitUntouched(db, MemberWait(f, t), f.replyTimeoutMs, f.now, g);
      assert db'.waits == RegisterIn(db, MemberWait(f, t), f.replyTimeoutMs, f.now).waits;
    } else {
      assert db'.waits == db.waits;
    }
  }

  lemma {:induction false} MembersUntouched(db: Db, f: FanOut, tasks: seq<GroupTask>, g: Fan)
    requires f.groupId != g.group
    ensures Untouched(db, DispatchMembers(db, f, tasks), g)
  {
    hide DispatchMember, Untouched;
    if tasks == [] {
      UntouchedRefl(db, g);
    } else {
      var n := |tasks| - 1;
      MembersUntouched(db, f, tasks[..n], g);
      var before := DispatchMembers(db, f, tasks[..n]);
      MemberUntouched(before, f, tasks[n], g);
      UntouchedTrans(db, before, DispatchMember(before, f, tasks[n]), g);
    }
  }

  lemma UntouchedRefl(db: Db, g: Fan)
    ensures Untouched(db, db, g)
  {
    hide EncodeMember;
  }

  lemma PublishUntouched(db: Db, input: CallInput, a: Availability, executionId: string, now: int, g: Fan)
    requires input.waitForReply ==> input.taskGroupId != g.group
    ensures Untouched(db, Publish(db, input, a, executionId, now), g)
  {
    hide EncodeMember, Registered;
    var db' := Publish(db, input, a, executionId, now);
    if input.waitForReply && !a.Reject? {
      OtherWaitUntouched(db, WaitOf(input), input.replyTimeoutMs, now, g);
      assert db'.waits == RegisterIn(db, WaitOf(input), input.replyTimeoutMs, now).waits;
    } else {
      assert db'.waits == db.waits;
    }
  }

  lemma OpenUntouched(db: Db, f: FanOut, total: int, g: Fan)
    requires f.groupId != g.group
    ensures Untouched(db, OpenGroup(db, f, total), g)
  {
    hide MemberKey;
  }

  lemma OpUntouched(db: Db, c: Context, op: Op, now: int, g: Fan)
    requires Avoids(c, op, g) && g.group != ""
    ensures Untouched(db, RunOp(db, c, op, now).0, g)
  {
    hide EncodeMember, Registered, DispatchMembers, Publish, OpenGroup, Untouched;
    match op
    case CallAgent(_, _, _, _, _, _, _, _, executionId, a) => PublishUntouched(db, InputOf(c, op), a, executionId, now,
        g);
    case AskUser(timeoutMs) => OtherWaitUntouched(db, Member(c.sessionId, c.messageId, "", ""), timeoutMs, now, g);
    case DispatchGroup(tasks, _, _, _, _) =>
      if tasks == [] {
        UntouchedRefl(db, g);
      } else {
        var f := FanOutOf(c, op, now);
        var tracked := OpenGroup(db, f, |tasks|);
        OpenUntouched(db, f, |tasks|, g);
        MembersUntouched(tracked, f, tasks, g);
        UntouchedTrans(db, tracked, DispatchMembers(tracked, f, tasks), g);
      }
  }

  lemma {:induction false} OpsUntouched(db: Db, c: Context, ops: seq<Op>, now: int, g: Fan)
    requires AllAvoid(c, ops, g) && g.group != ""
    ensures Untouched(db, RunOps(db, c, ops, now).0, g)
    ensures var c' := RunOps(db, c, ops, now).1;
            c'.(suspendedState := c.suspendedState, transferred := c.transferred, pending := c.pending) == c
  {
    hide RunOp, Untouched;
    if ops == [] {
      UntouchedRefl(db, g);
    } else {
      var n := |ops| - 1;
      assert forall op :: op in ops[..n] ==> op in ops;
      OpsUntouched(db, c, ops[..n], now, g);
      var (db1, c1) := RunOps(db, c, ops[..n], now);
      assert ops[n] in ops;
      AvoidsIgnoresProgress(c, c1, ops[n], g);
      OpUntouched(db1, c1, ops[n], now, g);
      UntouchedTrans(db, db1, RunOp(db1, c1, ops[n], now).0, g);
      RunOpContext(db1, c1, ops[n], now);
    }
  }

  lemma AvoidsIgnoresProgress(c: Context, d: Context, op: Op, g: Fan)
    requires d.(suspendedState := c.suspendedState, transferred := c.transferred, pending := c.pending) == c
    ensures Avoids(c, op, g) == Avoids(d, op, g)
  {
  }

  lemma {:induction false} FlushUntouched(db: Db, replies: seq<Command>, g: Fan)
    ensures Untouched(db, Flush(db, replies), g)
    ensures Flush(db, replies) == db.(ctrl := Flush(db, replies).ctrl)
  {
    hide EncodeMember;
    if replies != [] {
      FlushUntouched(db, replies[..|replies| - 1], g);
    }
  }

  lemma SingleCallIsNoGroup(child: string, g: Fan)
    requires ProperFan(g)
    ensures SingleCallGroup(child) != g.group
  {
    assert SINGLE_GROUP_PREFIX <= SingleCallGroup(child);
  }

  lemma ReplyUntouched(db: Db, env: Env, h: Header, status: string, entered: Option<Command>, result: TaskResult,
                       g: Fan)
    requires ProperFan(g)
    ensures Untouched(db, Replied(db, env, h, status, entered, result).db, g)
  {
    hide EncodeMember;
    SingleCallIsNoGroup(h.messageId, g);
  }

  /** A handler's whole run, its return included. */
  lemma HandlerUntouched(db: Db, env: Env, command: Command, existing: Option<Record>, handler: Handler, g: Fan)
    requires ProperFan(g) && AllAvoid(ContextFor(env, RestoreInbound(command, existing)), handler.ops, g)
    ensures Untouched(db, RunHandler(db, env, command, existing, handler).db, g)
    ensures RunHandler(db, env, command, existing, handler).entered.Some?
  {
    hide RunOps, Flush, RestoreInbound, ReplyHeader, Replied, Untouched, AllAvoid;
    var (db1, c) := RunOps(db, ContextFor(env, RestoreInbound(command, existing)), handler.ops, env.now);
    OpsUntouched(db, ContextFor(env, RestoreInbound(command, existing)), handler.ops, env.now, g);
    var owed := ReplyHeader(command, existing);
    var entered := Some(RestoreInbound(command, existing));
    UntouchedRefl(db1, g);
    match handler.end
    case Returns(result) =>
      var db2 := Flush(db1, c.pending);
      FlushUntouched(db1, c.pending, g);
      UntouchedTrans(db, db1, db2, g);
      if owed.Some? && !StaysSuspended(c, result) {
        var final := result.(status := FinalStatus(c, result));
        SentReplyKeepsEntered(db2, env, owed.value, final.status, entered, final);
        ReplyUntouched(db2, env, owed.value, final.status, entered, final, g);
        UntouchedTrans(db, db2, Replied(db2, env, owed.value, final.status, entered, final).db, g);
      }
    case Throws(error) =>
      if owed.Some? {
        SentReplyKeepsEntered(db1, env, owed.value, FAILED, entered, FailureResult(FAILED, "error", error));
        ReplyUntouched(db1, env, owed.value, FAILED, entered, FailureResult(FAILED, "error", error), g);
        UntouchedTrans(db, db1, Replied(db1, env, owed.value, FAILED, entered,
                                        FailureResult(FAILED, "error", error)).db, g);
      }
    case Cancels(reason) =>
      CancelUntouched(db1, env, command, owed, entered, reason, g);
      UntouchedTrans(db, db1, CancelPath(db1, env, command, owed, entered, reason).db, g);
  }

  lemma SentReplyKeepsEntered(db: Db, env: Env, h: Header, status: string, entered: Option<Command>, result: TaskResult)
    ensures Replied(db, env, h, status, entered, result).entered == entered
  {
  }

  lemma CancelUntouched(db: Db, env: Env, command: Command, owed: Option<Header>, entered: Option<Command>,
                        reason: string, g: Fan)
    requires ProperFan(g)
    ensures Untouched(db, CancelPath(db, env, command, owed, entered, reason).db, g)
    ensures CancelPath(db, env, command, owed, entered, reason).entered == entered
  {
    hide Replied, Untouched;
    UntouchedRefl(db, g);
    if owed.Some? {
      ReplyUntouched(db, env, owed.value, CANCELLED, entered, FailureResult(CANCELLED, "reason", reason), g);
      SentReplyKeepsEntered(db, env, owed.value, CANCELLED, entered, FailureResult(CANCELLED, "reason", reason));
    }
  }

  lemma RecordsUntouched(db: Db, key: (string, string), r: Record, g: Fan)
    requires key == (g.sessionId, g.caller) && CallerLives(db, g) ==> !r.cancelRequested
    ensures Untouched(db, db.(records := db.records[key := r]), g)
  {
    hide EncodeMember;
  }

  lemma FinishUntouched(db: Db, key: (string, string), status: string, g: Fan)
    ensures Untouched(db, Finish(db, key, status), g)
  {
    if key.0 != "" && key in db.records {
      RecordsUntouched(db, key, db.records[key].(status := status), g);
    } else {
      UntouchedRefl(db, g);
    }
  }

  lemma BeginUntouched(db: Db, env: Env, command: Command, g: Fan)
    ensures Untouched(db, Begin(db, env, command, Lookup(db, command.header.messageId, command.header.sessionId)), g)
  {
    var existing := Lookup(db, command.header.messageId, command.header.sessionId);
    RecordsUntouched(db, KeyOf(command), if existing.Some? then RunningRecord(existing.value, env, command)
                     else NewRecord(env, command), g);
  }

  /** A reply of another group, or of none, claims nothing of this one. */
  lemma GateUntouched(w: Waits, h: Header, g: Fan)
    requires h.taskGroupId != g.group && g.group != ""
    ensures SameWaits(w, Gate(w, h).0, g)
  {
    GateCases(w, h);
    hide EncodeMember, Gate;
    forall child ensures MemberKey(g, child) != MemberFromResume(h) && MemberKey(g, child) != AskUserMember(h) {
      if MemberKey(g, child) == MemberFromResume(h) {
        EncodingIsInjective(Member(g.sessionId, g.caller, child, g.group), ResumedMember(h));
      }
      if MemberKey(g, child) == AskUserMember(h) {
        EncodingIsInjective(Member(g.sessionId, g.caller, child, g.group), Member(h.sessionId, h.messageId, "", ""));
      }
    }
  }

  /** The command a message's handler would read, were it entered. */
  function Inbound(db: Db, env: Env, command: Command): Command {
    RestoreInbound(WithHistory(command, env.history), Lookup(db, command.header.messageId, command.header.sessionId))
  }

  lemma JoinUntouched(db: Db, command: Command, g: Fan)
    requires command.Ask? || command.header.taskGroupId != g.group
    ensures Untouched(db, JoinReply(db, command).0, g)
  {
    hide EncodeMember;
  }

  lemma HandlingUntouched(db: Db, env: Env, command: Command, existing: Option<Record>, handler: Handler, g: Fan)
    requires ProperFan(g) && AllAvoid(ContextFor(env, RestoreInbound(command, existing)), handler.ops, g)
    requires command.Ask? || command.header.taskGroupId != g.group
    ensures Untouched(db, HandleMessage(db, env, command, existing, handler).db, g)
  {
    hide JoinReply, RunHandler, CancelPath, Untouched, AllAvoid, RestoreInbound, ReplyHeader;
    if existing.Some? && existing.value.cancelRequested {
      CancelUntouched(db, env, command, ReplyHeader(command, existing), None,
                      OrElse(existing.value.cancelReason, "task cancelled before processing"), g);
    } else {
      JoinUntouched(db, command, g);
      var (db1, stop) := JoinReply(db, command);
      if stop.None? {
        HandlerUntouched(db1, env, command, existing, handler, g);
        UntouchedTrans(db, db1, RunHandler(db1, env, command, existing, handler).db, g);
      }
    }
  }

  lemma GatedUntouched(db: Db, command: Command, g: Fan)
    requires command.Ask? || (command.header.taskGroupId != g.group && g.group != "")
    ensures Untouched(db, Gated(db, command).0, g)
    ensures Gated(db, command).0 == db.(waits := Gated(db, command).0.waits)
  {
    hide Gate, EncodeMember;
    if command.Resume? {
      GateUntouched(db.waits, command.header, g);
    }
  }

  lemma AdmittedUntouched(db: Db, env: Env, command: Command, handler: Handler, g: Fan)
    requires ProperFan(g) && AllAvoid(ContextFor(env, Inbound(db, env, command)), handler.ops, g)
    requires command.Ask? || command.header.taskGroupId != g.group
    ensures Untouched(db, Admitted(db, env, command, handler).0, g)
  {
    hide HandleMessage, Untouched, Begin, Finish, AllAvoid, RestoreInbound;
    var full := WithHistory(command, env.history);
    var key := KeyOf(full);
    var existing := Lookup(db, key.1, key.0);
    var begun := Begin(db, env, full, existing);
    var o := HandleMessage(begun, env, full, existing, handler);
    UntouchedRefl(db, g);
    FinishUntouched(db, key, CANCELLED, g);
    BeginUntouched(db, env, full, g);
    HandlingUntouched(begun, env, full, existing, handler, g);
    FinishUntouched(o.db, key, o.status, g);
    UntouchedTrans(db, begun, o.db, g);
    UntouchedTrans(db, o.db, Finish(o.db, key, o.status), g);
  }

  /** Processing any message that is not a reply to this group, members' own runs included, leaves its accounting alone.
      */
  lemma OtherMessagesLeaveTheGroupAlone(db: Db, env: Env, command: Command, handler: Handler, g: Fan)
    requires ProperFan(g) && AllAvoid(ContextFor(env, Inbound(db, env, command)), handler.ops, g)
    requires command.Ask? || command.header.taskGroupId != g.group
    ensures Untouched(db, Process(db, env, command, handler).0, g)
  {
    hide Gated, Untouched, AllAvoid, RestoreInbound, Admitted;
    GatedUntouched(db, command, g);
    var (gated, d) := Gated(db, command);
    AdmittedUntouched(gated, env, command, handler, g);
    UntouchedTrans(db, gated, Admitted(gated, env, command, handler).0, g);
  }

  // ----- one reply to the group -----

  /** `command` is a reply of sub-task `child` to this group's caller; who built it does not matter. */
  predicate MemberReply(command: Command, g: Fan, child: string) {
    command.Resume? && ResumedMember(command.header) == Member(g.sessionId, g.caller, child, g.group)
  }

  ghost predicate Live(db: Db, g: Fan) {
    g.group in db.groups && !db.groups[g.group].aborted && db.groups[g.group].total == g.total
  }

  function Completed(db: Db, g: Fan): int {
    if g.group in db.groups then db.groups[g.group].completed else 0
  }

  lemma MemberReplyGate(w: Waits, h: Header, g: Fan, child: string)
    requires ResumedMember(h) == Member(g.sessionId, g.caller, child, g.group) && g.group != ""
    ensures var key := MemberKey(g, child);
            Gate(w, h) ==
            if key in w.index then (Waits(w.index - {key}, w.markers + {key}), Claimed(key))
            else if key in w.markers then (w, AlreadyConsumed(key)) else (w, Unregistered)
  {
    GateCases(w, h);
  }

  lemma MemberKeysDiffer(g: Fan, a: string, b: string)
    requires a != b
    ensures MemberKey(g, a) != MemberKey(g, b)
  {
    if MemberKey(g, a) == MemberKey(g, b) {
      EncodingIsInjective(Member(g.sessionId, g.caller, a, g.group), Member(g.sessionId, g.caller, b, g.group));
    }
  }

  /** What is stored for a sub-task is the whole of this reply. */
  ghost predicate Keeps(stored: StoredResult, reply: Command) {
    && reply.Resume? && stored.status == reply.status && stored.replyData == reply.replyData
    && stored.content == reply.content && stored.targetAgentType == reply.header.sourceAgentType
    && stored.metadata == reply.header.metadata && stored.extraPayload == reply.extraPayload
  }

  /** The reply is stored under its sub-task, and what was stored for any other stands. */
  ghost predicate StoresReply(db: Db, db': Db, g: Fan, child: string, reply: Command) {
    && child in Joined(db', g) && Keeps(db'.results[g.group][child], reply)
    && forall other :: other in Joined(db, g) && other != child ==>
         other in Joined(db', g) && db'.results[g.group][other] == db.results[g.group][other]
  }

  lemma StoredStands(db: Db, mid: Db, db': Db, g: Fan, child: string, reply: Command)
    requires StoresReply(db, mid, g, child, reply) && Untouched(mid, db', g)
    ensures StoresReply(db, db', g, child, reply)
  {
    hide MemberKey;
  }

  lemma StoredFrom(db: Db, mid: Db, db': Db, g: Fan, child: string, reply: Command)
    requires Untouched(db, mid, g) && StoresReply(mid, db', g, child, reply)
    ensures StoresReply(db, db', g, child, reply)
  {
    hide MemberKey;
  }

  /** The join of an admitted reply: stored once more, counted once more, entered if that reaches the total. */
  lemma JoinCounts(db: Db, command: Command, g: Fan, child: string)
    requires MemberReply(command, g, child) && Live(db, g) && g.group != ""
    ensures var (db', stop) := JoinReply(db, command);
            && db' == db.(groups := db'.groups, results := db'.results)
            && Live(db', g) && Completed(db', g) == Completed(db, g) + 1
            && Joined(db', g) == Joined(db, g) + {child}
            && (stop.None? <==> Completed(db, g) + 1 >= g.total)
            && StoresReply(db, db', g, child, command)
  {
  }

  /** What a reply that was let through the gate does. */
  lemma AdmittedReplyCounts(db: Db, env: Env, command: Command, handler: Handler, g: Fan, child: string)
    requires ProperFan(g) && MemberReply(command, g, child) && Live(db, g) && CallerLives(db, g)
    requires AllAvoid(ContextFor(env, Inbound(db, env, command)), handler.ops, g)
    ensures var (db', report) := Admitted(db, env, command, handler);
            && report.Handled?
            && (report.entered.Some? <==> Completed(db, g) + 1 >= g.total)
            && Live(db', g) && Completed(db', g) == Completed(db, g) + 1 && Joined(db', g) == Joined(db, g) + {child}
            && SameWaits(db.waits, db'.waits, g) && CallerLives(db', g)
            && StoresReply(db, db', g, child, WithHistory(command, env.history))
  {
    hide RunHandler, Begin, Finish, AllAvoid, RestoreInbound, JoinReply, EncodeMember, CancelPath, ReplyHeader,
         StoresReply;
    var full := WithHistory(command, env.history);
    var key := KeyOf(full);
    var existing := Lookup(db, key.1, key.0);
    var begun := Begin(db, env, full, existing);
    BeginUntouched(db, env, full, g);
    var (joined, stop) := JoinReply(begun, full);
    JoinCounts(begun, full, g, child);
    var o := HandleMessage(begun, env, full, existing, handler);
    if stop.None? {
      HandlerUntouched(joined, env, full, existing, handler, g);
    } else {
      UntouchedRefl(joined, g);
    }
    FinishUntouched(o.db, key, o.status, g);
    StoredFrom(db, begun, joined, g, child, full);
    StoredStands(db, joined, o.db, g, child, full);
    StoredStands(db, o.db, Finish(o.db, key, o.status), g, child, full);
  }

  /** One delivery of a member's reply, in any store: it is counted unless the gate knows it was claimed, and the
      handler is entered by the count that reaches the total. */
  lemma DeliveryCounts(db: Db, env: Env, command: Command, handler: Handler, g: Fan, child: string)
    requires ProperFan(g) && MemberReply(command, g, child) && Live(db, g) && CallerLives(db, g)
    requires AllAvoid(ContextFor(env, Inbound(db, env, command)), handler.ops, g)
    ensures var key := MemberKey(g, child);
            var (db', report) := Process(db, env, command, handler);
            if key !in db.waits.index && key in db.waits.markers then report == Denied(key) && db' == db
            else
              && report.Handled?
              && (report.entered.Some? <==> Completed(db, g) + 1 >= g.total)
              && Live(db', g) && Completed(db', g) == Completed(db, g) + 1 && Joined(db', g) == Joined(db, g) + {child}
              && SameWaits(Gate(db.waits, command.header).0, db'.waits, g) && CallerLives(db', g)
              && StoresReply(db, db', g, child, WithHistory(command, env.history))
  {
    hide Admitted, AllAvoid, RestoreInbound, EncodeMember;
    MemberReplyGate(db.waits, command.header, g, child);
    hide Gate;
    var (gated, d) := Gated(db, command);
    if Allows(d) {
      AdmittedReplyCounts(gated, env, command, handler, g, child);
    }
  }

  // ----- every run -----

  /** The store, the members enlisted so far, and how often the caller's handler was entered for this group. */
  datatype State = State(db: Db, enlisted: set<string>, entries: nat)

  /** `Other` is any message that is not a reply to the group; `Elsewhere` any step of another component that
      respects it (a sweep, a prune of other entries, a cancellation of other executions). */
  datatype Event =
    | Enlist(child: string, timeoutMs: int, now: int)
    | Deliver(env: Env, command: Command, handler: Handler, sender: string)
    | Other(env: Env, command: Command, handler: Handler)
    | Elsewhere(after: Db)

  ghost predicate Possible(s: State, e: Event, g: Fan) {
    match e
    case Enlist(child, _, _) => child !in s.enlisted && |s.enlisted| < g.total
    case Deliver(env, command, handler, sender) =>
      sender in s.enlisted && MemberReply(command, g, sender) &&
          AllAvoid(ContextFor(env, Inbound(s.db, env, command)), handler.ops, g)
    case Other(env, command, handler) =>
      (command.Ask? || command.header.taskGroupId != g.group) &&
          AllAvoid(ContextFor(env, Inbound(s.db, env, command)), handler.ops, g)
    case Elsewhere(after) => Untouched(s.db, after, g)
  }

  function Step(s: State, e: Event, g: Fan): State {
    match e
    case Enlist(child, timeoutMs, now) =>
      s.(db := RegisterIn(s.db, Member(g.sessionId, g.caller, child, g.group), timeoutMs, now),
         enlisted := s.enlisted + {child})
    case Deliver(env, command, handler, _) =>
      var (db, report) := Process(s.db, env, command, handler);
      s.(db := db, entries := s.entries + if report.Handled? && report.entered.Some? then 1 else 0)
    case Other(env, command, handler) => s.(db := Process(s.db, env, command, handler).0)
    case Elsewhere(after) => s.(db := after)
  }

  /** A member is claimed: its entry is gone and its marker set. */
  ghost predicate ClaimedMember(db: Db, g: Fan, child: string) {
    MemberKey(g, child) !in db.waits.index && MemberKey(g, child) in db.waits.markers
  }

  ghost predicate Balanced(s: State, g: Fan) {
    && Live(s.db, g) && CallerLives(s.db, g)
    && |s.enlisted| <= g.total
    && Joined(s.db, g) <= s.enlisted
    && Completed(s.db, g) == |Joined(s.db, g)|
    && ClaimsMatch(s, g)
    && s.entries == if Completed(s.db, g) == g.total then 1 else 0
  }

  lemma EnlistBalanced(s: State, child: string, timeoutMs: int, now: int, g: Fan)
    requires Balanced(s, g) && child !in s.enlisted && |s.enlisted| < g.total
    ensures Balanced(Step(s, Enlist(child, timeoutMs, now), g), g)
  {
    hide EncodeMember;
    forall other | other in s.enlisted ensures MemberKey(g, other) != MemberKey(g, child) {
      MemberKeysDiffer(g, other, child);
    }
    var joined := Joined(s.db, g);
    SubsetSize(joined, s.enlisted);
  }

  /** The entries and markers of the enlisted members tell which of them have joined. */
  ghost predicate ClaimsMatch(s: State, g: Fan) {
    forall child :: child in s.enlisted ==> ClaimMatches(s, g, child)
  }

  ghost predicate ClaimMatches(s: State, g: Fan, child: string) {
    if child in Joined(s.db, g) then ClaimedMember(s.db, g, child)
    else MemberKey(g, child) in s.db.waits.index && MemberKey(g, child) !in s.db.waits.markers
  }

  lemma ClaimMovesOne(s: State, s': State, claimed: Waits, child: string, g: Fan)
    requires ClaimsMatch(s, g) && child in s.enlisted && s'.enlisted == s.enlisted &&
             Joined(s'.db, g) == Joined(s.db, g) + {child}
    requires var key := MemberKey(g, child);
             claimed == Waits(s.db.waits.index - {key}, s.db.waits.markers + {key}) &&
                 SameWaits(claimed, s'.db.waits, g)
    ensures ClaimsMatch(s', g)
  {
    hide EncodeMember, Joined;
    forall other | other in s'.enlisted ensures ClaimMatches(s', g, other) {
      SameWaitsAt(claimed, s'.db.waits, g, other);
      assert ClaimMatches(s, g, other);
      if other != child {
        MemberKeysDiffer(g, other, child);
      }
    }
  }

  /** Counting a member whose entry was still there. */
  lemma CountedBalanced(s: State, s': State, claimed: Waits, child: string, g: Fan)
    requires Balanced(s, g) && child in s.enlisted && child !in Joined(s.db, g) && s'.enlisted == s.enlisted
    requires Live(s'.db, g) && CallerLives(s'.db, g) && Completed(s'.db, g) == Completed(s.db, g) + 1
    requires Joined(s'.db, g) == Joined(s.db, g) + {child}
    requires var key := MemberKey(g, child);
             claimed == Waits(s.db.waits.index - {key}, s.db.waits.markers + {key}) &&
                 SameWaits(claimed, s'.db.waits, g)
    requires s'.entries == s.entries + if Completed(s.db, g) + 1 >= g.total then 1 else 0
    ensures Balanced(s', g) && Completed(s.db, g) + 1 <= g.total
  {
    hide MemberKey, Live, CallerLives, Completed, Joined, SameWaits, ClaimsMatch;
    ClaimMovesOne(s, s', claimed, child, g);
    SubsetSize(Joined(s'.db, g), s.enlisted);
  }

  lemma DeliverBalanced(s: State, env: Env, command: Command, handler: Handler, child: string, g: Fan)
    requires ProperFan(g) && Balanced(s, g) && Possible(s, Deliver(env, command, handler, child), g)
    ensures Balanced(Step(s, Deliver(env, command, handler, child), g), g)
    ensures var report := Process(s.db, env, command, handler).1;
            if child in Joined(s.db, g) then report == Denied(MemberKey(g, child))
            else report.Handled? && (report.entered.Some? <==> Completed(s.db, g) + 1 == g.total)
  {
    hide EncodeMember, Process, AllAvoid, Inbound;
    DeliveryCounts(s.db, env, command, handler, g, child);
    MemberReplyGate(s.db.waits, command.header, g, child);
    hide Gate, SameWaits, MemberKey, Joined, Completed, Live, CallerLives;
    if child !in Joined(s.db, g) {
      CountedBalanced(s, Step(s, Deliver(env, command, handler, child), g), Gate(s.db.waits, command.header).0, child,
                      g);
    }
  }

  lemma UntouchedBalanced(s: State, db: Db, g: Fan)
    requires Balanced(s, g) && Untouched(s.db, db, g)
    ensures Balanced(s.(db := db), g)
  {
    hide EncodeMember;
  }

  /** A run starts wherever the books balance, such as right after a `dispatchGroup` (`FanOutOpensARun`). */
  ghost predicate Run(states: seq<State>, events: seq<Event>, g: Fan) {
    && |states| == |events| + 1 && Balanced(states[0], g)
    && forall i :: 0 <= i < |events| ==> Possible(states[i], events[i], g) &&
                                         states[i + 1] == Step(states[i], events[i], g)
  }

  /** In every run of the group `completed` equals the number of distinct sub-tasks with a stored result, which are
      exactly the members whose entry was claimed; it never exceeds the total; and the caller's handler has been
      entered once if it reached the total and never otherwise. */
  lemma {:induction false} AccountsBalance(states: seq<State>, events: seq<Event>, g: Fan, i: nat)
    requires ProperFan(g) && Run(states, events, g) && i <= |events|
    ensures Balanced(states[i], g)
  {
    hide EncodeMember, Process, AllAvoid, Inbound, Untouched;
    if i > 0 {
      AccountsBalance(states, events, g, i - 1);
      var s := states[i - 1];
      match events[i - 1]
      case Enlist(child, timeoutMs, now) => EnlistBalanced(s, child, timeoutMs, now, g);
      case Deliver(env, command, handler, sender) => DeliverBalanced(s, env, command, handler, sender, g);
      case Other(env, command, handler) =>
        OtherMessagesLeaveTheGroupAlone(s.db, env, command, handler, g);
        UntouchedBalanced(s, Process(s.db, env, command, handler).0, g);
      case Elsewhere(after) => UntouchedBalanced(s, after, g);
    }
  }

  /** No step of a run replaces what is stored for a member that has joined. */
  lemma StepKeepsAnswers(s: State, e: Event, g: Fan, child: string)
    requires ProperFan(g) && Balanced(s, g) && Possible(s, e, g) && child in Joined(s.db, g)
    ensures child in Joined(Step(s, e, g).db, g)
    ensures Step(s, e, g).db.results[g.group][child] == s.db.results[g.group][child]
  {
    hide Process, AllAvoid, Inbound, Balanced, MemberKey;
    match e
    case Enlist(_, _, _) =>
    case Deliver(env, command, handler, sender) =>
      BalancedGroup(s, g);
      DeliveryCounts(s.db, env, command, handler, g, sender);
      DeliverBalanced(s, env, command, handler, sender, g);
      DeniedChangesNothing(s.db, env, command, handler);
    case Other(env, command, handler) => OtherMessagesLeaveTheGroupAlone(s.db, env, command, handler, g);
    case Elsewhere(_) =>
  }

  lemma BalancedGroup(s: State, g: Fan)
    requires Balanced(s, g)
    ensures Live(s.db, g) && CallerLives(s.db, g)
  {
  }

  lemma DeniedChangesNothing(db: Db, env: Env, command: Command, handler: Handler)
    ensures Process(db, env, command, handler).1.Denied? ==> Process(db, env, command, handler).0.results == db.results
  {
    hide Gate, Admitted;
    AdmittedIsNotDenied(Gated(db, command).0, env, command, handler);
  }

  lemma AdmittedIsNotDenied(db: Db, env: Env, command: Command, handler: Handler)
    ensures !Admitted(db, env, command, handler).1.Denied?
  {
    hide HandleMessage, IsTerminal;
  }

  /** Only the delivery of a member's own reply makes it join, and stores that reply. */
  lemma StepStoresAnswer(s: State, e: Event, g: Fan, child: string)
    requires ProperFan(g) && Balanced(s, g) && Possible(s, e, g)
    requires child !in Joined(s.db, g) && child in Joined(Step(s, e, g).db, g)
    ensures e.Deliver? && e.sender == child && Process(s.db, e.env, e.command, e.handler).1.Handled?
    ensures Keeps(Step(s, e, g).db.results[g.group][child], WithHistory(e.command, e.env.history))
  {
    hide Process, AllAvoid, Inbound, Balanced, MemberKey;
    match e
    case Enlist(_, _, _) => assert false;
    case Deliver(env, command, handler, sender) =>
      BalancedGroup(s, g);
      DeliveryCounts(s.db, env, command, handler, g, sender);
      DeliverBalanced(s, env, command, handler, sender, g);
      DeniedChangesNothing(s.db, env, command, handler);
    case Other(env, command, handler) =>
      OtherMessagesLeaveTheGroupAlone(s.db, env, command, handler, g);
      assert false;
    case Elsewhere(_) => assert false;
  }

  /** At every point of every run, what is stored for a member that joined during the run is the reply that was counted
      for it, field by field: no later copy, stand-in or other step has replaced it. */
  lemma {:induction false} StoredAnswersAreTheCounted(states: seq<State>, events: seq<Event>, g: Fan, i: nat,
                                                      child: string)
    returns (j: nat)
    requires ProperFan(g) && Run(states, events, g) && i <= |events|
    requires child in Joined(states[i].db, g) && child !in Joined(states[0].db, g)
    ensures j < i && events[j].Deliver? && events[j].sender == child
    ensures Process(states[j].db, events[j].env, events[j].command, events[j].handler).1.Handled?
    ensures child !in Joined(states[j].db, g)
    ensures Keeps(states[i].db.results[g.group][child], WithHistory(events[j].command, events[j].env.history))
  {
    hide Process, Possible, Step, Balanced, Joined, Keeps;
    AccountsBalance(states, events, g, i - 1);
    if child in Joined(states[i - 1].db, g) {
      j := StoredAnswersAreTheCounted(states, events, g, i - 1, child);
      StepKeepsAnswers(states[i - 1], events[i - 1], g, child);
    } else {
      j := i - 1;
      StepStoresAnswer(states[i - 1], events[i - 1], g, child);
    }
  }

  lemma BalancedTotals(s: State, g: Fan)
    requires Balanced(s, g)
    ensures Completed(s.db, g) <= g.total && s.entries <= 1
    ensures Joined(s.db, g) == set child | child in s.enlisted && ClaimedMember(s.db, g, child)
    ensures |s.enlisted| == g.total ==> (s.entries == 1 <==> Joined(s.db, g) == s.enlisted)
  {
    hide EncodeMember;
    SubsetSize(Joined(s.db, g), s.enlisted);
    if |s.enlisted| == g.total && Completed(s.db, g) == g.total {
      EqualSize(Joined(s.db, g), s.enlisted);
    }
  }

  lemma EqualSize<T>(a: set<T>, b: set<T>)
    requires a <= b && |a| == |b|
    ensures a == b
  {
    if b - a == {} {
      assert b <= a;
    } else {
      var x :| x in b - a;
      SubsetSize(a, b - {x});
    }
  }

  /** The caller wakes exactly once: when every member has had one reply consumed, on the reply that reached the total.
      */
  lemma CallerWakesOnce(states: seq<State>, events: seq<Event>, g: Fan, i: nat)
    requires ProperFan(g) && Run(states, events, g) && i <= |events|
    ensures states[i].entries <= 1
    ensures |states[i].enlisted| == g.total ==>
              (states[i].entries == 1 <==> forall child :: child in states[i].enlisted ==>
               ClaimedMember(states[i].db, g, child))
    ensures i < |events| && events[i].Deliver? ==>
              (states[i + 1].entries == states[i].entries + 1 <==>
               events[i].sender !in Joined(states[i].db, g) && Completed(states[i].db, g) + 1 == g.total)
  {
    hide EncodeMember, Process, AllAvoid, Inbound, Untouched;
    AccountsBalance(states, events, g, i);
    BalancedTotals(states[i], g);
    if i < |events| && events[i].Deliver? {
      var Deliver(env, command, handler, sender) := events[i];
      DeliverBalanced(states[i], env, command, handler, sender, g);
    }
  }

  // ----- where the gate's memory is what keeps the count -----

  /** Two copies of a member's reply are counted twice exactly when neither its entry nor its marker is there: an entry
      that was removed without being claimed admits every copy, although they store one result. */
  lemma CopiesCountTwiceExactly(db: Db, env: Env, command: Command, handler: Handler, g: Fan, child: string)
    requires ProperFan(g) && MemberReply(command, g, child) && Live(db, g) && CallerLives(db, g)
    requires AllAvoid(ContextFor(env, Inbound(db, env, command)), handler.ops, g)
    requires var once := Process(db, env, command, handler).0;
             AllAvoid(ContextFor(env, Inbound(once, env, command)), handler.ops, g)
    ensures var once := Process(db, env, command, handler).0;
            var twice := Process(once, env, command, handler).0;
            && (Completed(twice, g) == Completed(db, g) + 2 <==>
                MemberKey(g, child) !in db.waits.index && MemberKey(g, child) !in db.waits.markers)
            && (Completed(twice, g) > Completed(db, g) ==> Joined(twice, g) == Joined(db, g) + {child})
  {
    hide EncodeMember, Process, AllAvoid, Inbound, MemberKey, Joined, Completed, Live, CallerLives;
    DeliveryCounts(db, env, command, handler, g, child);
    MemberReplyGate(db.waits, command.header, g, child);
    hide Gate;
    var once := Process(db, env, command, handler).0;
    if MemberKey(g, child) in db.waits.index || MemberKey(g, child) !in db.waits.markers {
      SameWaitsAt(Gate(db.waits, command.header).0, once.waits, g, child);
      DeliveryCounts(once, env, command, handler, g, child);
    }
  }

  lemma SameWaitsAt(w: Waits, w': Waits, g: Fan, child: string)
    requires SameWaits(w, w', g)
    ensures MemberKey(g, child) in w'.index <==> MemberKey(g, child) in w.index
    ensures MemberKey(g, child) in w'.markers <==> MemberKey(g, child) in w.markers
  {
    hide EncodeMember;
  }

  /** The caller's execution neither runs its handler nor goes on waiting. */
  predicate EndsUnentered(report: Report) {
    report.Handled? && report.entered.None? && !IsSuspended(BaseStatus(report.status))
  }

  /** An admitted reply to a group ends its caller's execution unentered exactly when the tracker is gone or aborted,
      and then nobody is told. */
  lemma DeadGroupEndsItsCallerExactly(db: Db, env: Env, command: Command, handler: Handler)
    requires command.Resume? && command.header.taskGroupId != "" && Allows(Gate(db.waits, command.header).1)
    requires var caller := Lookup(db, command.header.messageId, command.header.sessionId);
             caller.Some? ==> !caller.value.cancelRequested
    ensures var g := command.header.taskGroupId;
            var (db', report) := Process(db, env, command, handler);
            && (EndsUnentered(report) <==> DeadGroup(db, g))
            && (EndsUnentered(report) ==>
                  db'.ctrl == db.ctrl && report == Handled(if g !in db.groups then FAILED
                                                           else GROUP_ABORTED, None, None))
  {
    GroupWaitBase();
    GroupAbortBase();
    FinishedBases();
    StatusesDiffer();
    WaitingIsSuspended();
    hide Gate, BaseStatus, IsSuspended, IsTerminal, HandleMessage, JoinReply;
    var existing := Lookup(db, command.header.messageId, command.header.sessionId);
    var full := WithHistory(command, env.history);
    var begun := Begin(Gated(db, command).0, env, full, existing);
    JoinStops(begun, full);
    CallTree.EnteredUnlessStopped(begun, env, full, existing, handler);
  }

  /** Members are leaves for a reason: a member dispatched into the group that calls another agent on its first run
      passes the group id on, so the reply to that inner call is stored and counted in the outer group. It is exactly
      when the member runs its own dispatch, and not a later wake-up, that the id is passed on. */
  lemma InnerReplyCountsOutsideExactly(db: Db, c: Context, op: Op, env: Env, command: Command, handler: Handler, g: Fan)
    requires ProperFan(g) && Live(db, g) && op.CallAgent? && op.waitForReply
    requires command.Resume? && ResumedMember(command.header) == WaitOf(InputOf(c, op))
    requires CallerLives(db, g.(sessionId := c.sessionId, caller := ParentOf(InputOf(c, op)))) && c.sessionId != ""
    requires EncodeMember(WaitOf(InputOf(c, op))) in db.waits.index
    requires AllAvoid(ContextFor(env, Inbound(db, env, command)), handler.ops, g)
    ensures var (db', report) := Process(db, env, command, handler);
            if c.original.Some? && c.original.value.taskGroupId == g.group
            then
              && Completed(db', g) == Completed(db, g) + 1 && Joined(db', g) == Joined(db, g) + {op.messageId}
              && report.Handled? && (report.entered.Some? <==> Completed(db, g) + 1 >= g.total)
            else Completed(db', g) == Completed(db, g) && Joined(db', g) == Joined(db, g)
  {
    hide EncodeMember, Process, Inbound, Gate;
    var inner := g.(sessionId := c.sessionId, caller := ParentOf(InputOf(c, op)));
    assert AllAvoid(ContextFor(env, Inbound(db, env, command)), handler.ops, inner);
    hide AllAvoid;
    if command.header.taskGroupId == g.group {
      DeliveryCounts(db, env, command, handler, inner, op.messageId);
    } else {
      OtherMessagesLeaveTheGroupAlone(db, env, command, handler, g);
    }
  }

  // ----- the fan-out opens such a run -----

  function Children(tasks: seq<GroupTask>): set<string> {
    set t | t in tasks :: t.messageId
  }

  lemma ChildrenGrow(tasks: seq<GroupTask>)
    requires tasks != []
    requires forall i, j :: 0 <= i < j < |tasks| ==> tasks[i].messageId != tasks[j].messageId
    ensures var n := |tasks| - 1;
            tasks[n].messageId !in Children(tasks[..n]) &&
                Children(tasks) == Children(tasks[..n]) + {tasks[n].messageId}
  {
    assert tasks == tasks[..|tasks| - 1] + [tasks[|tasks| - 1]];
  }

  lemma OneMoreMember(s: State, f: FanOut, t: GroupTask, g: Fan)
    requires f.waitForReply && g.sessionId == f.c.sessionId && g.caller == GroupParent(f) && g.group == f.groupId
    requires Balanced(s, g) && t.messageId !in s.enlisted && |s.enlisted| < g.total
    ensures Balanced(State(DispatchMember(s.db, f, t), s.enlisted + {t.messageId}, s.entries), g)
  {
    hide Balanced, Untouched, DispatchMember, EncodeMember;
    EnlistBalanced(s, t.messageId, f.replyTimeoutMs, f.now, g);
    var s' := Step(s, Enlist(t.messageId, f.replyTimeoutMs, f.now), g);
    DispatchMemberEnlists(s.db, f, t, g);
    UntouchedBalanced(s', DispatchMember(s.db, f, t), g);
  }

  /** `dispatchGroup` has written the tracker and enlisted nobody yet. */
  ghost predicate Opened(s: State, g: Fan) {
    && Live(s.db, g) && Completed(s.db, g) == 0 && g.group !in s.db.results && CallerLives(s.db, g)
    && s.enlisted == {} && s.entries == 0
  }

  lemma OpenedBalances(db: Db, g: Fan)
    requires Opened(State(db, {}, 0), g) && g.total > 0
    ensures Balanced(State(db, {}, 0), g)
  {
  }

  lemma {:induction false} FanOutEnlists(db: Db, f: FanOut, tasks: seq<GroupTask>, g: Fan)
    requires f.waitForReply && g.sessionId == f.c.sessionId && g.caller == GroupParent(f) && g.group == f.groupId
    requires forall i, j :: 0 <= i < j < |tasks| ==> tasks[i].messageId != tasks[j].messageId
    requires |tasks| <= g.total && Balanced(State(db, {}, 0), g)
    ensures Balanced(State(DispatchMembers(db, f, tasks), Children(tasks), 0), g)
    ensures |Children(tasks)| == |tasks|
  {
    hide EncodeMember, DispatchMember, Balanced, GroupParent;
    if tasks != [] {
      var n := |tasks| - 1;
      FanOutEnlists(db, f, tasks[..n], g);
      ChildrenGrow(tasks);
      OneMoreMember(State(DispatchMembers(db, f, tasks[..n]), Children(tasks[..n]), 0), f, tasks[n], g);
    } else {
      assert Children(tasks) == {};
    }
  }

  /** After `dispatchGroup`, every member is enlisted with a live entry, none is counted, and the total is their number.
      */
  lemma FanOutOpensARun(db: Db, c: Context, op: Op, now: int, g: Fan)
    requires op.DispatchGroup? && op.waitForReply && op.tasks != []
    requires forall i, j :: 0 <= i < j < |op.tasks| ==> op.tasks[i].messageId != op.tasks[j].messageId
    requires g == Fan(c.sessionId, OrElse(op.parentMessageId, c.messageId), op.groupId, |op.tasks|)
    requires op.groupId !in db.results && CallerLives(db, g)
    ensures Balanced(State(RunOp(db, c, op, now).0, Children(op.tasks), 0), g)
    ensures |Children(op.tasks)| == g.total
  {
    hide EncodeMember, DispatchMembers, Balanced, AllStandIns;
    var f := FanOutOf(c, op, now);
    var tracked := OpenGroup(db, f, |op.tasks|);
    OpenedBalances(tracked, g);
    FanOutEnlists(tracked, f, op.tasks, g);
  }

  lemma DispatchMemberEnlists(db: Db, f: FanOut, t: GroupTask, g: Fan)
    requires f.waitForReply && g.sessionId == f.c.sessionId && g.caller == GroupParent(f) && g.group == f.groupId
    ensures Untouched(RegisterIn(db, Member(g.sessionId, g.caller, t.messageId, g.group), f.replyTimeoutMs, f.now),
                      DispatchMember(db, f, t), g)
  {
    hide EncodeMember;
  }
}
