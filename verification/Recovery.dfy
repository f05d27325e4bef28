/** What a sweep does for the two kinds of wait that need more than a failure notice: an answer whose message was
    lost (`src/worker.ts`, `src/liveness/wait_sweeper.ts`), and a member of a running Task Group. */
module Recovery {
  import opened Protocol
  import opened WaitIndex
  import opened WaitGate
  import opened Store
  import opened Builders
  import opened Worker
  import opened Sweeper
  import CallTree
  import TaskGroup

  /** What a synthesized reply adds to the metadata, for operators. */
  const PROVENANCE: set<string> := {"synthesized_by", "liveness_error_code", "child_message_id", "sweeper_worker_id"}

  /** A single call's answer is stored before its message goes out. */
  lemma StoredBeforeSent(db: Db, env: Env, h: Header, status: string, entered: Option<Command>, result: TaskResult)
    requires h.taskGroupId == "" && h.messageId != ""
    ensures var o := Replied(db, env, h, status, entered, result);
            o.reply.Some? && Stored(o.db, h.messageId) == Some(ResultOf(o.reply.value))
  {
  }

  /** The same message, apart from the provenance a sweep adds and the fields only the live hop knew. */
  ghost predicate SameAnswer(a: Command, b: Command) {
    && a.Resume? && b.Resume?
    && a.header.targetAgentType == b.header.targetAgentType
    && ResumedMember(a.header) == ResumedMember(b.header)
    && a.status == b.status && a.content == b.content && a.replyData == b.replyData && a.extraPayload == b.extraPayload
    && a.header.metadata - PROVENANCE == b.header.metadata - PROVENANCE
  }

  /** The records a sweep consults still tell of a suspended caller and its finished callee. */
  ghost predicate FinishedUnheard(db: Db, h: Header, status: string) {
    var caller := Lookup(db, h.parentMessageId, h.sessionId);
    var child := Lookup(db, h.messageId, h.sessionId);
    && caller.Some? && IsSuspended(BaseStatus(caller.value.status))
    && child.Some? && child.value.status == status && IsTerminal(BaseStatus(status))
    && child.value.sourceAgentType == h.sourceAgentType
  }

  lemma EmptyIsNotTerminal()
    ensures BaseStatus("") == "" && !IsTerminal("")
  {
  }

  /** A lost reply is rebuilt: while its copy is stored, the sweep that finds the callee finished sends the same answer
      the callee sent, to the same caller, for the same wait. */
  lemma LostReplyIsRebuilt(lost: Command, h: Header, later: Db, cfg: Config, now: int, score: int)
    requires h.messageId != "" && h.sourceAgentType != ""
    requires lost.Resume? && ResumedMember(lost.header) == CallTree.WaitFor(h)
    requires lost.header.targetAgentType == h.sourceAgentType && ContentOf(lost.content) == lost.content
    requires h.taskGroupId == "" && Stored(later, h.messageId) == Some(ResultOf(lost))
    requires FinishedUnheard(later, h, lost.status)
    ensures var v := Decide(later, cfg, now, EncodeMember(CallTree.WaitFor(h)), score);
            v.Send? && v.outcome == Recovered && SameAnswer(v.reply, lost)
  {
    EmptyIsNotTerminal();
    hide BaseStatus, IsTerminal, IsSuspended, EncodeMember, DecodeMember;
    var member := EncodeMember(CallTree.WaitFor(h));
    RoundTrip(CallTree.WaitFor(h));
    var due := Due(member, score, CallTree.WaitFor(h));
    var caller := Lookup(later, h.parentMessageId, h.sessionId).value;
    var child := Lookup(later, h.messageId, h.sessionId).value;
    SuspendedIsNotTerminal(BaseStatus(caller.status));
    assert TriageChild(later, cfg, now, due, caller) == Recover(later, cfg, due, caller, child);
    var a := Recovery(ResultOf(lost), BaseStatus(child.status));
    assert Decide(later, cfg, now, member, score) == Send(Recovered, StandIn(cfg, due, caller, child, a), false);
  }

  /** Without a stored answer the sweep never invents a success. */
  lemma NoFabricatedSuccess(db: Db, cfg: Config, now: int, due: Due, caller: Record, child: Record)
    requires Stored(db, due.entry.childMessageId).None?
    ensures var v := Recover(db, cfg, due, caller, child);
            v.Send? ==> v.reply.Resume? && (v.reply.status == FAILED || v.reply.status == CANCELLED)
  {
    hide BaseStatus, Explanation;
  }

  /** A callee that ended without telling its caller is told of by the next sweep of the caller's wait: with no stored
      answer, the caller gets a reply to exactly that wait which reports cancellation if the callee was cancelled and
      failure otherwise. */
  lemma SilentEndIsReported(db: Db, cfg: Config, now: int, score: int, h: Header)
    requires h.messageId != "" && h.sourceAgentType != "" && SomebodyWaits(db, CallTree.WaitFor(h))
    requires var child := Lookup(db, h.messageId, h.sessionId);
             child.Some? && IsTerminal(BaseStatus(child.value.status)) &&
                 child.value.sourceAgentType == h.sourceAgentType
    requires Stored(db, h.messageId).None?
    ensures var member := EncodeMember(CallTree.WaitFor(h));
            var v := Decide(db, cfg, now, member, score);
            var base := BaseStatus(Lookup(db, h.messageId, h.sessionId).value.status);
            && v.Send? && v.outcome == Recovered && v.reply.Resume? &&
                v.reply.header.targetAgentType == h.sourceAgentType
            && MemberFromResume(v.reply.header) == member && v.reply.status == if base == CANCELLED then CANCELLED
                else FAILED
  {
    WaitingIsSuspended();
    hide BaseStatus, IsTerminal, IsSuspended, EncodeMember, DecodeMember, Explanation, FailureReplyData;
    var member := EncodeMember(CallTree.WaitFor(h));
    RoundTrip(CallTree.WaitFor(h));
    var due := Due(member, score, CallTree.WaitFor(h));
    var caller := Lookup(db, h.parentMessageId, h.sessionId).value;
    var child := Lookup(db, h.messageId, h.sessionId).value;
    SuspendedIsNotTerminal(BaseStatus(caller.status));
    assert Decide(db, cfg, now, member, score) == TriageChild(db, cfg, now, due, caller);
    assert TriageChild(db, cfg, now, due, caller) == Recover(db, cfg, due, caller, child);
  }

  // ----- sweeping while a Task Group runs -----

  /** The caller still exists, has not finished, and was not lost with its worker. */
  ghost predicate CallerCanWait(db: Db, g: TaskGroup.Fan) {
    var caller := Lookup(db, g.caller, g.sessionId);
    && caller.Some? && !IsTerminal(BaseStatus(caller.value.status))
    && (IsSuspended(BaseStatus(caller.value.status)) || caller.value.workerId == "" ||
        caller.value.workerId in db.online)
  }

  lemma MemberIsNotDropped(s: TaskGroup.State, cfg: Config, now: int, child: string, g: TaskGroup.Fan)
    requires TaskGroup.ProperFan(g) && TaskGroup.Balanced(s, g) && child in s.enlisted
    requires IsDue(s.db.waits.index, now, TaskGroup.MemberKey(g, child)) && CallerCanWait(s.db, g)
    ensures !Decide(s.db, cfg, now, TaskGroup.MemberKey(g, child),
                    s.db.waits.index[TaskGroup.MemberKey(g, child)]).Drop?
  {
    var m := Member(g.sessionId, g.caller, child, g.group);
    RoundTrip(m);
    hide BaseStatus, IsTerminal, IsSuspended, EncodeMember, DecodeMember, TriageChild;
    var score := s.db.waits.index[EncodeMember(m)];
    var due := Due(EncodeMember(m), score, m);
    var caller := Lookup(s.db, g.caller, g.sessionId).value;
    assert child !in TaskGroup.Joined(s.db, g);
    assert GroupBlocks(s.db, due).None?;
    TriageNeverDrops(s.db, cfg, now, due, caller);
  }

  lemma TriageNeverDrops(db: Db, cfg: Config, now: int, due: Due, caller: Record)
    ensures !TriageChild(db, cfg, now, due, caller).Drop?
  {
    hide BaseStatus, IsTerminal, IsSuspended, FailureAnswer, StandIn, RenewalCeiling, CallerAgentType, Recovery;
  }

  /** Sweeping any due entry leaves a running group's accounting alone: it may send a member's stand-in, but neither
      books a result nor forgets a claim. This is one of the `Elsewhere` steps of the group's runs. */
  lemma SweepLeavesTheGroupAlone(s: TaskGroup.State, cfg: Config, now: int, member: string, g: TaskGroup.Fan)
    requires TaskGroup.ProperFan(g) && TaskGroup.Balanced(s, g) && IsDue(s.db.waits.index, now, member)
    requires forall child :: member == TaskGroup.MemberKey(g, child) ==> child in s.enlisted && CallerCanWait(s.db, g)
    ensures TaskGroup.Untouched(s.db, ResolveEntry(s.db, cfg, now, member, s.db.waits.index[member]), g)
  {
    hide EncodeMember, Decide, Cancelling, TaskGroup.Balanced, CallerCanWait;
    var score := s.db.waits.index[member];
    if child :| member == TaskGroup.MemberKey(g, child) {
      MemberIsNotDropped(s, cfg, now, child, g);
    }
    SweepFrame(s.db, cfg, now, member, score);
    SweepKeeps(s.db, cfg, now, member, score);
  }

  lemma SweepKeeps(db: Db, cfg: Config, now: int, member: string, score: int)
    requires member in db.waits.index
    ensures member in ResolveEntry(db, cfg, now, member, score).waits.index <==>
            !Decide(db, cfg, now, member, score).Drop?
    ensures forall m :: m != member ==> (m in ResolveEntry(db, cfg, now, member, score).waits.index <==>
                                         m in db.waits.index)
  {
    EffectIs(db, cfg, now, member, score);
    hide Decide, ResolveEntry;
  }
}
