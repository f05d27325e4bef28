/** The sweeper (`src/liveness/wait_sweeper.ts`): what it decides about one due entry, what that does to the
    store, and the passes that apply it. */
module Sweeper {
  import opened Protocol
  import opened WaitIndex
  import opened WaitGate
  import opened Store
  import opened Builders

  const DEFAULT_REPLY_TIMEOUT_MS := 3_600_000
  const RENEW_INCREMENT_MS := 300_000
  const SWEEP_BATCH_LIMIT := 200
  const SESSION_TTL_SECONDS := 7 * 24 * 3600
  const PRUNE_AFTER_SECONDS := SESSION_TTL_SECONDS + 86400

  datatype Outcome =
    | Malformed | CallerMissing | CallerTerminal | CallerLost | CallerNotSuspended | AskUserSkipped
    | GroupGone | GroupAborted | GroupAlreadyJoined
    | ChildWaiting | ChildAlive | Recovered | WorkerLost | NeverStarted | TimedOut | Unroutable

  /** What one examination decides: the entry goes, stays as it is, moves to a later deadline, or moves there
      after a reply has been sent. `cancel` asks the callee to stop. */
  datatype Verdict =
    | Drop(outcome: Outcome)
    | Leave(outcome: Outcome)
    | Postpone(outcome: Outcome, cancel: bool)
    | Send(outcome: Outcome, reply: Command, cancel: bool)

  datatype Config = Config(workerId: string, renewMaxMultiple: int, cancelOnTimeout: bool, mintedTrace: string)

  /** The sub-task whose record does not exist. */
  const NO_RECORD := Record("", "", "", "", "", "", "", "", "", "", map[], 0, false, "")

  const CHILD_NEVER_STARTED := "CHILD_NEVER_STARTED"
  const CHILD_TIMEOUT := "CHILD_TIMEOUT"
  const CHILD_WORKER_LOST := "CHILD_WORKER_LOST"
  const REPLY_LOST_RECOVERED := "REPLY_LOST_RECOVERED"

  /** One due entry as the pass found it. */
  datatype Due = Due(member: string, deadlineMs: int, entry: Member)

  // ----- the renewal budget -----

  /** The first recorded deadline; a recorded zero reads as nothing recorded. */
  function RenewalOrigin(db: Db, member: string, deadlineMs: int): int {
    if member in db.origins && db.origins[member] != 0 then db.origins[member] else deadlineMs
  }

  function ReplyTimeout(originMs: int, createdAt: int): int {
    if createdAt <= 0 || originMs - createdAt <= 0 then DEFAULT_REPLY_TIMEOUT_MS else originMs - createdAt
  }

  function Grace(originMs: int, createdAt: int, multiple: int): int {
    Max(ReplyTimeout(originMs, createdAt) * (multiple - 1), RENEW_INCREMENT_MS)
  }

  function RenewalCeiling(db: Db, cfg: Config, due: Due, child: Record): int {
    var origin := RenewalOrigin(db, due.member, due.deadlineMs);
    origin + Grace(origin, child.createdAt, cfg.renewMaxMultiple)
  }

  // ----- the reply -----

  /** What a stand-in says; the sender and the receiver come from the records. */
  datatype Answer = Answer(status: string, content: Json, replyData: Json, extraPayload: Meta, errorCode: string,
                           metadata: Meta)

  function CallerAgentType(child: Record, caller: Record): string {
    OrElse(child.sourceAgentType, caller.targetAgentType)
  }

  function StandIn(cfg: Config, due: Due, caller: Record, child: Record, a: Answer): Command {
    StandInReply(due.entry.sessionId, due.entry.parentMessageId, CallerAgentType(child, caller),
                 due.entry.childMessageId,
                 child.targetAgentType, due.entry.taskGroupId,
                     OrElse(OrElse(child.traceId, caller.traceId), cfg.mintedTrace),
                 a.status, a.content, a.replyData, a.extraPayload,
                     a.metadata["sweeper_worker_id" := JText(cfg.workerId)],
                 a.errorCode, SYNTHESIZED_BY_SWEEPER, "", "")
  }

  /** A reply nobody can be addressed with is postponed instead; only a synthesized failure reports that. */
  function Emit(cfg: Config, due: Due, caller: Record, child: Record, a: Answer, sent: Outcome, unroutable: Outcome,
                cancel: bool): Verdict {
    if CallerAgentType(child, caller) == "" then Postpone(unroutable, cancel)
    else Send(sent, StandIn(cfg, due, caller, child, a), cancel)
  }

  function Decimal(n: nat): string {
    if n < 10 then [('0' as int + n) as char] else Decimal(n / 10) + [('0' as int + n % 10) as char]
  }

  /** The error text a synthesized failure carries; `child` is absent when nothing was ever recorded. */
  function Explanation(cfg: Config, outcome: Outcome, due: Due, child: Option<Record>): string {
    var id := due.entry.childMessageId;
    if child.None? then "No execution was ever recorded for sub-task " + id
    else
      var status := BaseStatus(child.value.status);
      match outcome
      case NeverStarted => "Sub-task " + id + " was never picked up by a worker (status=" + status + ")"
      case WorkerLost => "Worker " + child.value.workerId + " running sub-task " + id + " is no longer alive (status=" +
          status + ")"
      case TimedOut =>
        "Sub-task " + id + " is still " + status + " on live worker " + child.value.workerId +
        " but produced no reply within " + Decimal(Max(0, cfg.renewMaxMultiple)) + "x its reply timeout"
      case _ =>
        "Sub-task " + id + " finished with " + status + " but neither its reply nor its stored result is available"
  }

  function RecordOf(child: Option<Record>): Record {
    if child.Some? then child.value else NO_RECORD
  }

  function FailureAnswer(cfg: Config, outcome: Outcome, due: Due, child: Option<Record>, errorCode: string,
                         status: string): Answer {
    Answer(status, JText(""), FailureReplyData(Explanation(cfg, outcome, due, child), errorCode,
                                               due.entry.childMessageId), map[], errorCode,
           RecordOf(child).metadata)
  }

  function Failure(cfg: Config, due: Due, caller: Record, child: Option<Record>, outcome: Outcome, errorCode: string,
                   status: string, cancel: bool): Verdict {
    Emit(cfg, due, caller, RecordOf(child), FailureAnswer(cfg, outcome, due, child, errorCode, status), outcome,
         Unroutable, cancel)
  }

  function Stored(db: Db, child: string): Option<StoredResult> {
    var g := SingleCallGroup(child);
    if g in db.results && child in db.results[g] then Some(db.results[g][child]) else None
  }

  function Recovery(r: StoredResult, childStatus: string): Answer {
    Answer(OrElse(r.status, childStatus), ContentOf(r.content), r.replyData, r.extraPayload, REPLY_LOST_RECOVERED,
           r.metadata)
  }

  /** A finished sub-task nobody heard: its stored answer if there is one, an honest failure otherwise. */
  function Recover(db: Db, cfg: Config, due: Due, caller: Record, child: Record): Verdict {
    var status := BaseStatus(child.status);
    var stored := Stored(db, due.entry.childMessageId);
    if stored.None?
    then Failure(cfg, due, caller, Some(child), Recovered, REPLY_LOST_RECOVERED, if status == FAILED ||
                 status == CANCELLED then status else FAILED, false)
    else Emit(cfg, due, caller, child, Recovery(stored.value, status), Recovered, Recovered, false)
  }

  /** With a stored answer, only an address can be missing; the sweep then postpones, and reports a recovery all the
      same. */
  lemma UnaddressedRecoveryExactly(db: Db, cfg: Config, due: Due, caller: Record, child: Record)
    requires Stored(db, due.entry.childMessageId).Some?
    ensures var v := Recover(db, cfg, due, caller, child);
            && v.outcome == Recovered && (v.Send? || v.Postpone?)
            && (v.Postpone? <==> CallerAgentType(child, caller) == "")
  {
    hide StandIn, BaseStatus, Recovery;
  }

  // ----- the triage -----

  function TriageChild(db: Db, cfg: Config, now: int, due: Due, caller: Record): Verdict {
    var found := Lookup(db, due.entry.childMessageId, due.entry.sessionId);
    if found.None? then Failure(cfg, due, caller, None, NeverStarted, CHILD_NEVER_STARTED, FAILED, false)
    else
      var child := found.value;
      var status := BaseStatus(child.status);
      if IsTerminal(status) then Recover(db, cfg, due, caller, child)
      else if IsSuspended(status) then Postpone(ChildWaiting, false)
      else if child.workerId == "" then Failure(cfg, due, caller, Some(child), NeverStarted, CHILD_NEVER_STARTED,
                                                FAILED, false)
      else if child.workerId in db.online then
        if now < RenewalCeiling(db, cfg, due, child) then Postpone(ChildAlive, false)
        else Failure(cfg, due, caller, Some(child), TimedOut, CHILD_TIMEOUT, FAILED, cfg.cancelOnTimeout &&
                     !child.cancelRequested)
      else Failure(cfg, due, caller, Some(child), WorkerLost, CHILD_WORKER_LOST, FAILED, false)
  }

  /** Why a group member's entry must go rather than be compensated, if it must. */
  function GroupBlocks(db: Db, due: Due): Option<Outcome> {
    var g := due.entry.taskGroupId;
    if g !in db.groups then Some(GroupGone)
    else if db.groups[g].aborted then Some(GroupAborted)
    else if g in db.results && due.entry.childMessageId in db.results[g] then Some(GroupAlreadyJoined)
    else None
  }

  function UnsuspendedCaller(db: Db, caller: Record): Verdict {
    if caller.workerId != "" && caller.workerId !in db.online then Drop(CallerLost)
        else Postpone(CallerNotSuspended, false)
  }

  function DecideEntry(db: Db, cfg: Config, now: int, due: Due): Verdict {
    var found := Lookup(db, due.entry.parentMessageId, due.entry.sessionId);
    if found.None? then Drop(CallerMissing)
    else
      var caller := found.value;
      var status := BaseStatus(caller.status);
      if IsTerminal(status) then Drop(CallerTerminal)
      else if !IsSuspended(status) then UnsuspendedCaller(db, caller)
      else if due.entry.childMessageId == "" then Leave(AskUserSkipped)
      else if due.entry.taskGroupId != "" && GroupBlocks(db, due).Some? then Drop(GroupBlocks(db, due).value)
      else TriageChild(db, cfg, now, due, caller)
  }

  function Decide(db: Db, cfg: Config, now: int, member: string, score: int): Verdict {
    match DecodeMember(member)
    case Decoded(entry) => DecideEntry(db, cfg, now, Due(member, score, entry))
    case DanglingEscape => Drop(Malformed)
    case WrongFieldCount(_) => Drop(Malformed)
  }

  // ----- its effect -----

  /** The first postponement records the deadline it overwrites. */
  function Extended(db: Db, now: int, member: string, score: int): Db {
    db.(origins := if member in db.origins then db.origins else db.origins[member := score],
        waits := db.waits.(index := db.waits.index[member := now + RENEW_INCREMENT_MS]))
  }

  function Cancelling(db: Db, member: string, cancel: bool): Db {
    if cancel && DecodeMember(member).Decoded?
    then db.(cancels := db.cancels + [(DecodeMember(member).member.sessionId,
                                       DecodeMember(member).member.childMessageId)])
    else db
  }

  function Apply(db: Db, now: int, member: string, score: int, v: Verdict): Db {
    match v
    case Drop(_) => db.(waits := db.waits.(index := db.waits.index - {member}))
    case Leave(_) => db
    case Postpone(_, cancel) => Cancelling(Extended(db, now, member, score), member, cancel)
    case Send(_, reply, cancel) =>
      Cancelling(Extended(db.(ctrl := db.ctrl + [Posted(reply.header.targetAgentType, reply)]), now, member, score),
                 member, cancel)
  }

  function ResolveEntry(db: Db, cfg: Config, now: int, member: string, score: int): Db {
    Apply(db, now, member, score, Decide(db, cfg, now, member, score))
  }

  // ----- a pass over the due entries -----

  predicate LexLess(a: string, b: string) {
    b != "" && (a == "" || a[0] < b[0] || (a[0] == b[0] && LexLess(a[1..], b[1..])))
  }

  /** The order of a sorted set: by score, ties by member. */
  predicate Before(index: map<string, int>, a: string, b: string)
    requires a in index && b in index
  {
    index[a] < index[b] || (index[a] == index[b] && LexLess(a, b))
  }

  predicate IsDue(index: map<string, int>, now: int, m: string) {
    m in index && 0 <= index[m] <= now
  }

  /** `batch` is ZRANGEBYSCORE over zero to `now`, limited. */
  ghost predicate IsBatch(index: map<string, int>, now: int, limit: nat, batch: seq<string>) {
    && |batch| <= limit
    && (forall i :: 0 <= i < |batch| ==> IsDue(index, now, batch[i]))
    && (forall i, j :: 0 <= i < j < |batch| ==> Before(index, batch[i], batch[j]))
    && (forall m :: IsDue(index, now, m) && m !in batch ==>
          |batch| == limit && forall i :: 0 <= i < |batch| ==> Before(index, batch[i], m))
  }

  /** Examines the entries of a batch in order; `clock(i)` is the time at which the `i`-th is examined, and its score is
      the one read with the batch. */
  function ResolveAll(db: Db, cfg: Config, clock: nat -> int, batch: seq<string>, scores: map<string, int>): Db
    requires forall m :: m in batch ==> m in scores
  {
    if batch == [] then db
    else
      var n := |batch| - 1;
      var before := ResolveAll(db, cfg, clock, batch[..n], scores);
      ResolveEntry(before, cfg, clock(n), batch[n], scores[batch[n]])
  }

  /** What the examinations of a batch report, in order. */
  function Outcomes(db: Db, cfg: Config, clock: nat -> int, batch: seq<string>, scores: map<string, int>): seq<Outcome>
    requires forall m :: m in batch ==> m in scores
  {
    if batch == [] then []
    else
      var n := |batch| - 1;
      Outcomes(db, cfg, clock, batch[..n], scores)
      + [Decide(ResolveAll(db, cfg, clock, batch[..n], scores), cfg, clock(n), batch[n], scores[batch[n]]).outcome]
  }

  function Pruned(db: Db, now: int): Db {
    db.(waits := db.waits.(index := map m | m in db.waits.index &&
                           !(0 <= db.waits.index[m] <= now - PRUNE_AFTER_SECONDS * 1000) :: db.waits.index[m]))
  }

  // ----- one entry, one effect -----

  lemma CancellingOnlyCancels(db: Db, member: string, cancel: bool)
    ensures var db' := Cancelling(db, member, cancel);
            db'.waits == db.waits && db'.origins == db.origins && db'.ctrl == db.ctrl
  {
    hide DecodeMember;
  }

  lemma ExtendedIs(db: Db, now: int, member: string, score: int)
    ensures var db' := Extended(db, now, member, score);
            && db'.waits == Waits(db.waits.index[member := now + RENEW_INCREMENT_MS], db.waits.markers)
            && db'.origins == (if member in db.origins then db.origins else db.origins[member := score]) &&
                db'.ctrl == db.ctrl
  {
  }

  /** The whole effect of one examination, read off its verdict. */
  lemma EffectIs(db: Db, cfg: Config, now: int, member: string, score: int)
    ensures var db' := ResolveEntry(db, cfg, now, member, score);
            var v := Decide(db, cfg, now, member, score);
            var moved := v.Postpone? || v.Send?;
            && db'.waits.markers == db.waits.markers
            && db'.waits.index == (if v.Drop? then db.waits.index - {member}
                                   else if moved then db.waits.index[member := now + RENEW_INCREMENT_MS]
                                       else db.waits.index)
            && db'.origins == (if moved && member !in db.origins then db.origins[member := score] else db.origins)
            && db'.ctrl == (if v.Send? then db.ctrl + [Posted(v.reply.header.targetAgentType, v.reply)] else db.ctrl)
            && (v.Leave? ==> db' == db)
  {
    hide Decide, Cancelling, Extended;
    var v := Decide(db, cfg, now, member, score);
    var said := if v.Send? then db.(ctrl := db.ctrl + [Posted(v.reply.header.targetAgentType, v.reply)]) else db;
    ExtendedIs(said, now, member, score);
    if v.Postpone? || v.Send? {
      CancellingOnlyCancels(Extended(said, now, member, score), member, v.cancel);
    }
  }

  /** A sweep of one entry touches that entry, its renewal origin, the stream it replies on and the cancel requests. */
  lemma SweepFrame(db: Db, cfg: Config, now: int, member: string, score: int)
    ensures var db' := ResolveEntry(db, cfg, now, member, score);
            && db' == db.(waits := db.waits.(index := db'.waits.index), origins := db'.origins, ctrl := db'.ctrl,
                          cancels := db'.cancels)
            && db'.waits.index - {member} == db.waits.index - {member}
            && db'.origins - {member} == db.origins - {member}
  {
    hide Decide;
    ApplyFrame(db, now, member, score, Decide(db, cfg, now, member, score));
  }

  lemma ExtendFrame(db: Db, now: int, member: string, score: int)
    ensures var db' := Extended(db, now, member, score);
            && db' == db.(waits := db.waits.(index := db'.waits.index), origins := db'.origins)
            && db'.waits.index - {member} == db.waits.index - {member}
            && db'.origins - {member} == db.origins - {member}
  {
  }

  lemma ApplyFrame(db: Db, now: int, member: string, score: int, v: Verdict)
    ensures var db' := Apply(db, now, member, score, v);
            && db' == db.(waits := db.waits.(index := db'.waits.index), origins := db'.origins, ctrl := db'.ctrl,
                          cancels := db'.cancels)
            && db'.waits.index - {member} == db.waits.index - {member}
            && db'.origins - {member} == db.origins - {member}
  {
    hide DecodeMember, Extended;
    match v
    case Drop(_) => assert (db.waits.index - {member}) - {member} == db.waits.index - {member};
    case Leave(_) =>
    case Postpone(_, _) => ExtendFrame(db, now, member, score);
    case Send(_, reply, _) => ExtendFrame(db.(ctrl := db.ctrl + [Posted(reply.header.targetAgentType, reply)]), now,
                                          member, score);
  }

  /** What must hold of the caller, the sub-task and its group before any reply may go out for an entry. */
  ghost predicate SomebodyWaits(db: Db, entry: Member) {
    && Lookup(db, entry.parentMessageId, entry.sessionId).Some?
    && IsSuspended(BaseStatus(Lookup(db, entry.parentMessageId, entry.sessionId).value.status))
    && entry.childMessageId != ""
    && (entry.taskGroupId != "" ==>
          && entry.taskGroupId in db.groups && !db.groups[entry.taskGroupId].aborted
          && !(entry.taskGroupId in db.results && entry.childMessageId in db.results[entry.taskGroupId]))
  }

  /** The sub-task cannot be expected to answer any more: it has no record, has finished, was never picked up, runs on
      a dead worker, or has outlived its renewal ceiling. */
  ghost predicate ChildIsDone(db: Db, cfg: Config, now: int, due: Due) {
    var child := Lookup(db, due.entry.childMessageId, due.entry.sessionId);
    child.None? || IsTerminal(BaseStatus(child.value.status)) ||
    (!IsSuspended(BaseStatus(child.value.status)) &&
     (child.value.workerId == "" || child.value.workerId !in db.online ||
      now >= RenewalCeiling(db, cfg, due, child.value)))
  }

  ghost predicate Routable(db: Db, entry: Member) {
    var caller := Lookup(db, entry.parentMessageId, entry.sessionId);
    caller.Some? && CallerAgentType(RecordOf(Lookup(db, entry.childMessageId, entry.sessionId)), caller.value) != ""
  }

  lemma SuspendedIsNotTerminal(status: string)
    ensures !(IsSuspended(status) && IsTerminal(status))
  {
    StatusesDiffer();
  }

  /** A reply is sent exactly when somebody suspended waits for a sub-task that will not answer and can be addressed. */
  lemma RepliesExactlyWhen(db: Db, cfg: Config, now: int, member: string, score: int)
    ensures Decide(db, cfg, now, member, score).Send? <==>
            && DecodeMember(member).Decoded?
            && var due := Due(member, score, DecodeMember(member).member);
               SomebodyWaits(db, due.entry) && ChildIsDone(db, cfg, now, due) && Routable(db, due.entry)
  {
    hide StandIn, FailureAnswer, Recovery, RenewalCeiling, BaseStatus, DecodeMember, CallerAgentType;
    hide IsTerminal, IsSuspended;
    var d := DecodeMember(member);
    if d.Decoded? {
      var due := Due(member, score, d.member);
      var caller := Lookup(db, due.entry.parentMessageId, due.entry.sessionId);
      var child := Lookup(db, due.entry.childMessageId, due.entry.sessionId);
      if caller.Some? {
        SuspendedIsNotTerminal(BaseStatus(caller.value.status));
      }
      if child.Some? {
        SuspendedIsNotTerminal(BaseStatus(child.value.status));
      }
    }
  }

  /** Nobody can be waiting on the entry any more: it cannot be read, its caller has no record, has finished or died
      with its worker, or the group it belongs to is gone, aborted, or already has this sub-task's answer. */
  ghost predicate NobodyWaits(db: Db, member: string) {
    !DecodeMember(member).Decoded? ||
    var entry := DecodeMember(member).member;
    var caller := Lookup(db, entry.parentMessageId, entry.sessionId);
    || caller.None? || IsTerminal(BaseStatus(caller.value.status))
    || (!IsSuspended(BaseStatus(caller.value.status)) && caller.value.workerId != "" &&
        caller.value.workerId !in db.online)
    || (IsSuspended(BaseStatus(caller.value.status)) && entry.childMessageId != "" && entry.taskGroupId != "" &&
        (entry.taskGroupId !in db.groups || db.groups[entry.taskGroupId].aborted ||
         (entry.taskGroupId in db.results && entry.childMessageId in db.results[entry.taskGroupId])))
  }

  /** A suspended caller waits for its user. */
  ghost predicate UserIsAsked(db: Db, member: string) {
    && DecodeMember(member).Decoded? && DecodeMember(member).member.childMessageId == ""
    && var caller := Lookup(db, DecodeMember(member).member.parentMessageId, DecodeMember(member).member.sessionId);
       caller.Some? && IsSuspended(BaseStatus(caller.value.status))
  }

  /** An entry is dropped exactly when nobody waits on it, and left untouched exactly when it waits on the user. */
  lemma DropsAndLeavesExactlyWhen(db: Db, cfg: Config, now: int, member: string, score: int)
    ensures Decide(db, cfg, now, member, score).Drop? <==> NobodyWaits(db, member)
    ensures Decide(db, cfg, now, member, score).Leave? <==> UserIsAsked(db, member)
  {
    hide StandIn, FailureAnswer, Recovery, RenewalCeiling, BaseStatus, DecodeMember, CallerAgentType, IsTerminal,
         IsSuspended;
    var d := DecodeMember(member);
    if d.Decoded? {
      var caller := Lookup(db, d.member.parentMessageId, d.member.sessionId);
      if caller.Some? {
        SuspendedIsNotTerminal(BaseStatus(caller.value.status));
      }
    }
  }

  /** Why the sub-task will not answer, as the records tell it. */
  ghost predicate CauseIs(db: Db, outcome: Outcome, errorCode: string, entry: Member) {
    var child := Lookup(db, entry.childMessageId, entry.sessionId);
    if child.None? then outcome == NeverStarted && errorCode == CHILD_NEVER_STARTED
    else if IsTerminal(BaseStatus(child.value.status)) then outcome == Recovered && errorCode == REPLY_LOST_RECOVERED
    else if child.value.workerId == "" then outcome == NeverStarted && errorCode == CHILD_NEVER_STARTED
    else if child.value.workerId in db.online then outcome == TimedOut && errorCode == CHILD_TIMEOUT
    else outcome == WorkerLost && errorCode == CHILD_WORKER_LOST
  }

  /** The facts a synthesized reply's metadata carries for operators. */
  predicate Reports(facts: Meta, errorCode: string, childMessageId: string, workerId: string) {
    && "liveness_error_code" in facts && facts["liveness_error_code"] == JText(errorCode)
    && "synthesized_by" in facts && facts["synthesized_by"] == JText(SYNTHESIZED_BY_SWEEPER)
    && "child_message_id" in facts && facts["child_message_id"] == JText(childMessageId)
    && "sweeper_worker_id" in facts && facts["sweeper_worker_id"] == JText(workerId)
  }

  lemma StandInReports(cfg: Config, due: Due, caller: Record, child: Record, a: Answer)
    ensures var reply := StandIn(cfg, due, caller, child, a);
            reply.Resume? && reply.status == a.status &&
                Reports(reply.header.metadata, a.errorCode, due.entry.childMessageId, cfg.workerId)
  {
    hide CallerAgentType;
    var facts := a.metadata["sweeper_worker_id" := JText(cfg.workerId)];
    var keys := ["synthesized_by", "liveness_error_code", "child_message_id", "sweeper_worker_id"];
    assert |keys[0]| == 14 && |keys[1]| == 19 && |keys[2]| == 16 && |keys[3]| == 17;
  }

  /** Every reply a sweep sends reports the cause the records show, and everything but a recovered answer reports
      failure. */
  lemma RepliesNameTheirCause(db: Db, cfg: Config, now: int, member: string, score: int)
    requires Decide(db, cfg, now, member, score).Send?
    ensures DecodeMember(member).Decoded?
    ensures var v, entry := Decide(db, cfg, now, member, score), DecodeMember(member).member;
            && v.reply.Resume?
            && (exists code :: CauseIs(db, v.outcome, code, entry) &&
                               Reports(v.reply.header.metadata, code, entry.childMessageId, cfg.workerId))
            && (v.outcome != Recovered ==> v.reply.status == FAILED)
            && (v.cancel ==> v.outcome == TimedOut)
  {
    hide Recovery, RenewalCeiling, BaseStatus, DecodeMember, CallerAgentType, IsTerminal, IsSuspended, StandIn,
         Explanation, Reports, FailureReplyData;
    var entry := DecodeMember(member).member;
    var due := Due(member, score, entry);
    var caller := Lookup(db, entry.parentMessageId, entry.sessionId).value;
    var found := Lookup(db, entry.childMessageId, entry.sessionId);
    var v := Decide(db, cfg, now, member, score);
    assert v == TriageChild(db, cfg, now, due, caller);
    if found.None? {
      FailureReports(cfg, due, caller, None, NeverStarted, CHILD_NEVER_STARTED, FAILED, false);
      assert CauseIs(db, v.outcome, CHILD_NEVER_STARTED, entry);
    } else {
      var child := found.value;
      var status := BaseStatus(child.status);
      SuspendedIsNotTerminal(status);
      if IsTerminal(status) {
        RecoveryReports(db, cfg, due, caller, child);
        assert CauseIs(db, v.outcome, REPLY_LOST_RECOVERED, entry);
      } else if child.workerId == "" {
        FailureReports(cfg, due, caller, found, NeverStarted, CHILD_NEVER_STARTED, FAILED, false);
        assert CauseIs(db, v.outcome, CHILD_NEVER_STARTED, entry);
      } else if child.workerId in db.online {
        FailureReports(cfg, due, caller, found, TimedOut, CHILD_TIMEOUT, FAILED, cfg.cancelOnTimeout &&
                       !child.cancelRequested);
        assert CauseIs(db, v.outcome, CHILD_TIMEOUT, entry);
      } else {
        FailureReports(cfg, due, caller, found, WorkerLost, CHILD_WORKER_LOST, FAILED, false);
        assert CauseIs(db, v.outcome, CHILD_WORKER_LOST, entry);
      }
    }
  }

  lemma FailureReports(cfg: Config, due: Due, caller: Record, child: Option<Record>, outcome: Outcome,
                       errorCode: string, status: string, cancel: bool)
    ensures var v := Failure(cfg, due, caller, child, outcome, errorCode, status, cancel);
            v.Send? ==>
              && v.outcome == outcome && v.cancel == cancel && v.reply.Resume? && v.reply.status == status
              && Reports(v.reply.header.metadata, errorCode, due.entry.childMessageId, cfg.workerId)
  {
    hide StandIn, Explanation, Reports, FailureReplyData, CallerAgentType;
    StandInReports(cfg, due, caller, RecordOf(child), FailureAnswer(cfg, outcome, due, child, errorCode, status));
  }

  lemma RecoveryReports(db: Db, cfg: Config, due: Due, caller: Record, child: Record)
    ensures var v := Recover(db, cfg, due, caller, child);
            v.Send? ==>
              && v.outcome == Recovered && !v.cancel && v.reply.Resume?
              && Reports(v.reply.header.metadata, REPLY_LOST_RECOVERED, due.entry.childMessageId, cfg.workerId)
  {
    hide StandIn, Explanation, Reports, FailureReplyData, CallerAgentType, BaseStatus, Failure;
    var stored := Stored(db, due.entry.childMessageId);
    var status := BaseStatus(child.status);
    if stored.None? {
      FailureReports(cfg, due, caller, Some(child), Recovered, REPLY_LOST_RECOVERED, if status == FAILED ||
                     status == CANCELLED then status else FAILED, false);
    } else {
      StandInReports(cfg, due, caller, child, Recovery(stored.value, status));
    }
  }

  /** One sweep of a due entry does exactly one of three things: drops it without a reply; leaves or postpones it
      without a reply; or appends one reply and keeps the entry with a strictly later deadline. */
  lemma OneSweepOneEffect(db: Db, cfg: Config, now: int, member: string)
    requires IsDue(db.waits.index, now, member)
    ensures var score := db.waits.index[member];
            var db' := ResolveEntry(db, cfg, now, member, score);
            var kept, quiet := member in db'.waits.index, db'.ctrl == db.ctrl;
            match Decide(db, cfg, now, member, score)
            case Drop(_) => !kept && quiet && db'.origins == db.origins
            case Leave(_) => db' == db
            case Postpone(_, _) => kept && quiet && db'.waits.index[member] == now + RENEW_INCREMENT_MS > score
            case Send(_, reply, _) =>
              && kept && db'.waits.index[member] == now + RENEW_INCREMENT_MS > score
              && db'.ctrl == db.ctrl + [Posted(reply.header.targetAgentType, reply)]
              && DecodeMember(member).Decoded? && SomebodyWaits(db, DecodeMember(member).member)
  {
    RepliesExactlyWhen(db, cfg, now, member, db.waits.index[member]);
    EffectIs(db, cfg, now, member, db.waits.index[member]);
    hide Decide, DecodeMember, SomebodyWaits, ResolveEntry;
  }

  /** A wait whose callee is itself suspended is only ever postponed, so a chain never fails from the top. */
  lemma SuspendedCalleeIsNeverFailed(db: Db, cfg: Config, now: int, due: Due)
    requires DecodeMember(due.member) == Decoded(due.entry) && SomebodyWaits(db, due.entry)
    requires var child := Lookup(db, due.entry.childMessageId, due.entry.sessionId);
             child.Some? && IsSuspended(BaseStatus(child.value.status))
    ensures Decide(db, cfg, now, due.member, due.deadlineMs) == Postpone(ChildWaiting, false)
  {
    hide BaseStatus, DecodeMember, IsTerminal, IsSuspended;
    SuspendedIsNotTerminal(BaseStatus(Lookup(db, due.entry.parentMessageId, due.entry.sessionId).value.status));
    SuspendedIsNotTerminal(BaseStatus(Lookup(db, due.entry.childMessageId, due.entry.sessionId).value.status));
  }

  lemma StandInTakesItsIds(cfg: Config, due: Due, caller: Record, child: Record, a: Answer)
    ensures var reply := StandIn(cfg, due, caller, child, a);
            reply.Resume? && ResumedMember(reply.header) == due.entry
  {
    hide CallerAgentType;
  }

  lemma TriageNamesTheEntry(db: Db, cfg: Config, now: int, due: Due, caller: Record)
    requires TriageChild(db, cfg, now, due, caller).Send?
    ensures var reply := TriageChild(db, cfg, now, due, caller).reply;
            reply.Resume? && ResumedMember(reply.header) == due.entry
  {
    forall child: Record, a: Answer
      ensures var reply := StandIn(cfg, due, caller, child, a);
              reply.Resume? && ResumedMember(reply.header) == due.entry
    {
      StandInTakesItsIds(cfg, due, caller, child, a);
    }
    hide StandIn, ResumedMember, FailureAnswer, Recovery, RenewalCeiling, BaseStatus, CallerAgentType, IsTerminal,
         IsSuspended;
  }

  /** The header a sweep puts on its reply is rebuilt from the decoded member. */
  lemma StandInNamesTheEntry(db: Db, cfg: Config, now: int, member: string, score: int)
    requires Decide(db, cfg, now, member, score).Send?
    ensures DecodeMember(member).Decoded?
    ensures var reply := Decide(db, cfg, now, member, score).reply;
            reply.Resume? && ResumedMember(reply.header) == DecodeMember(member).member
  {
    hide TriageChild, BaseStatus, DecodeMember, IsTerminal, IsSuspended, ResumedMember;
    var entry := DecodeMember(member).member;
    var caller := Lookup(db, entry.parentMessageId, entry.sessionId).value;
    TriageNamesTheEntry(db, cfg, now, Due(member, score, entry), caller);
  }

  /** The sweeper's reply clears the very entry it was sent for exactly when that entry is canonically spelt, as every
      registered one is. */
  lemma StandInClearsItsEntryExactly(db: Db, cfg: Config, now: int, member: string, score: int)
    requires Decide(db, cfg, now, member, score).Send?
    ensures MemberFromResume(Decide(db, cfg, now, member, score).reply.header) == member <==> Canonical(member)
  {
    StandInNamesTheEntry(db, cfg, now, member, score);
    DecodedSpellsItself(member);
    hide Decide;
  }

  lemma RegisteredEntriesAreCanonical(m: Member)
    ensures DecodeMember(EncodeMember(m)) == Decoded(m) && Canonical(EncodeMember(m))
  {
    RoundTrip(m);
    DecodedSpellsItself(EncodeMember(m));
  }

  // ----- the class -----

  /** Strictly sorted members of the index. */
  ghost predicate Sorted(index: map<string, int>, batch: seq<string>) {
    && (forall i :: 0 <= i < |batch| ==> batch[i] in index)
    && (forall i, j :: 0 <= i < j < |batch| ==> Before(index, batch[i], batch[j]))
  }

  /** A sorted batch with one more member in its place. */
  function Inserted(index: map<string, int>, batch: seq<string>, m: string): seq<string>
    requires m in index && forall x :: x in batch ==> x in index
  {
    if batch == [] then [m]
    else
      var last := batch[|batch| - 1];
      if Before(index, last, m) then batch + [m] else Inserted(index, batch[..|batch| - 1], m) + [last]
  }

  lemma {:induction false} InsertedIsSorted(index: map<string, int>, batch: seq<string>, m: string)
    requires m in index && Sorted(index, batch) && m !in batch
    ensures forall x :: x in batch ==> x in index
    ensures var all := Inserted(index, batch, m);
            Sorted(index, all) && |all| == |batch| + 1 && forall x :: x in all <==> x in batch || x == m
  {
    hide Before;
    if batch != [] {
      var n := |batch| - 1;
      var last := batch[n];
      assert batch == batch[..n] + [last];
      BeforeTotal(index, last, m);
      if Before(index, last, m) {
        forall i | 0 <= i < |batch| ensures Before(index, batch[i], m) {
          if i < n {
            BeforeTransitive(index, batch[i], last, m);
          }
        }
      } else {
        var front := Inserted(index, batch[..n], m);
        InsertedIsSorted(index, batch[..n], m);
        forall i | 0 <= i < |front| ensures Before(index, front[i], last) {
          assert front[i] in front;
        }
        assert last in front + [last];
      }
    }
  }

  lemma BeforeIrreflexive(index: map<string, int>, m: string)
    requires m in index
    ensures !Before(index, m, m)
  {
    LexIrreflexive(m);
  }

  lemma {:induction false} LexTotal(a: string, b: string)
    requires a != b
    ensures LexLess(a, b) || LexLess(b, a)
  {
    if a != "" && b != "" && a[0] == b[0] {
      assert a == [a[0]] + a[1..] && b == [b[0]] + b[1..];
      LexTotal(a[1..], b[1..]);
    }
  }

  lemma {:induction false} LexTransitive(a: string, b: string, c: string)
    requires LexLess(a, b) && LexLess(b, c)
    ensures LexLess(a, c)
  {
    if a != "" && a[0] == b[0] && b[0] == c[0] {
      LexTransitive(a[1..], b[1..], c[1..]);
    }
  }

  lemma {:induction false} LexIrreflexive(a: string)
    ensures !LexLess(a, a)
  {
    if a != "" {
      LexIrreflexive(a[1..]);
    }
  }

  lemma BeforeTotal(index: map<string, int>, a: string, b: string)
    requires a in index && b in index && a != b
    ensures Before(index, a, b) || Before(index, b, a)
  {
    LexTotal(a, b);
  }

  lemma BeforeTransitive(index: map<string, int>, a: string, b: string, c: string)
    requires a in index && b in index && c in index && Before(index, a, b) && Before(index, b, c)
    ensures Before(index, a, c)
  {
    if index[a] == index[b] == index[c] {
      LexTransitive(a, b, c);
    }
  }

  /** The batch of the due entries outside `todo`. */
  ghost predicate Gathered(index: map<string, int>, now: int, limit: nat, todo: set<string>, batch: seq<string>) {
    && |batch| <= limit && Sorted(index, batch)
    && (forall x :: x in batch ==> IsDue(index, now, x) && x !in todo)
    && (forall d :: IsDue(index, now, d) && d !in todo && d !in batch ==>
          |batch| == limit && forall x :: x in batch ==> Before(index, x, d))
  }

  /** Keeping the first `limit` of a batch grown by one due member gathers that member too. */
  lemma Truncates(index: map<string, int>, now: int, limit: nat, todo: set<string>, batch: seq<string>, m: string,
                  all: seq<string>)
    requires Gathered(index, now, limit, todo, batch) && m in todo && IsDue(index, now, m)
    requires Sorted(index, all) && |all| == |batch| + 1 && forall x :: x in all <==> x in batch || x == m
    ensures Gathered(index, now, limit, todo - {m}, if |all| <= limit then all else all[..limit])
  {
    hide Before;
    var r := if |all| <= limit then all else all[..limit];
    assert forall x :: x in r ==> x in all;
    forall d, x | IsDue(index, now, d) && d !in todo - {m} && d !in r && x in r
      ensures |r| == limit && Before(index, x, d)
    {
      var i :| 0 <= i < |r| && r[i] == x;
      if d in all {
        var j :| 0 <= j < |all| && all[j] == d;
      } else if x == m {
        var last := all[limit];
        assert Before(index, m, last);
        assert last in all && last != m by {
          BeforeIrreflexive(index, m);
        }
        BeforeTransitive(index, m, last, d);
      }
    }
    forall d | IsDue(index, now, d) && d !in todo - {m} && d !in r ensures |r| == limit {
      if d in all {
        var j :| 0 <= j < |all| && all[j] == d;
      }
    }
  }

  /** The batch after a look at one more member: inserted in its place if it is due, and what overflows cut off. */
  function Considered(index: map<string, int>, now: int, limit: nat, batch: seq<string>, m: string): seq<string>
    requires m in index && forall x :: x in batch ==> x in index
  {
    if 0 <= index[m] <= now then
      var all := Inserted(index, batch, m);
      if |all| <= limit then all else all[..limit]
    else batch
  }

  lemma ConsideredGathers(index: map<string, int>, now: int, limit: nat, todo: set<string>, batch: seq<string>,
                          m: string)
    requires todo <= index.Keys && m in todo && Gathered(index, now, limit, todo, batch)
    ensures Gathered(index, now, limit, todo - {m}, Considered(index, now, limit, batch, m))
  {
    hide Before;
    if 0 <= index[m] <= now {
      InsertedIsSorted(index, batch, m);
      Truncates(index, now, limit, todo, batch, m, Inserted(index, batch, m));
    }
  }

  /** ZRANGEBYSCORE 0 now LIMIT 0 limit. */
  method ZRangeByScore(index: map<string, int>, now: int, limit: nat) returns (batch: seq<string>)
    ensures IsBatch(index, now, limit, batch)
  {
    hide Before, Considered;
    batch := [];
    var todo := index.Keys;
    while todo != {}
      invariant todo <= index.Keys && Gathered(index, now, limit, todo, batch)
    {
      var m :| m in todo;
      ConsideredGathers(index, now, limit, todo, batch, m);
      batch := Considered(index, now, limit, batch, m);
      todo := todo - {m};
    }
  }

  /** Every pass has a batch to work on. */
  lemma {:induction false} SomeBatch(index: map<string, int>, now: int, limit: nat, todo: set<string>)
    returns (batch: seq<string>)
    requires todo <= index.Keys
    ensures Gathered(index, now, limit, todo, batch)
    decreases index.Keys - todo
  {
    hide Before, Considered;
    if todo == index.Keys {
      return [];
    }
    assert index.Keys - todo != {} by {
      assert todo == index.Keys - (index.Keys - todo);
    }
    var m :| m in index.Keys - todo;
    var fewer := SomeBatch(index, now, limit, todo + {m});
    ConsideredGathers(index, now, limit, todo + {m}, fewer, m);
    assert (todo + {m}) - {m} == todo;
    batch := Considered(index, now, limit, fewer, m);
  }

  class WaitIndexSweeper {
    const redis: Redis
    const cfg: Config
    const enabled: bool
    const pruneEnabled: bool
    const pruneIntervalSeconds: int
    var lastPruneMs: Option<int>

    /** Neither the interval nor the renewal multiple can be configured below one. */
    constructor (redis: Redis, cfg: Config, enabled: bool, pruneEnabled: bool, pruneIntervalSeconds: int)
      ensures this.redis == redis && this.cfg == cfg.(renewMaxMultiple := Max(1, cfg.renewMaxMultiple)) &&
              lastPruneMs == None
      ensures this.enabled == enabled && this.pruneEnabled == pruneEnabled &&
              this.pruneIntervalSeconds == Max(1, pruneIntervalSeconds)
    {
      this.redis, this.cfg := redis, cfg.(renewMaxMultiple := Max(1, cfg.renewMaxMultiple));
      this.enabled, this.pruneEnabled := enabled, pruneEnabled;
      this.pruneIntervalSeconds := Max(1, pruneIntervalSeconds);
      lastPruneMs := None;
    }

    method ExtendDeadline(now: int, member: string, score: int)
      modifies redis
      ensures redis.View() == Extended(old(redis.View()), now, member, score)
    {
      redis.SetOriginNX(member, score);
      redis.ZAdd(member, now + RENEW_INCREMENT_MS);
    }

    method DropEntry(member: string)
      modifies redis
      ensures redis.View() == old(redis.View()).(waits :=
                                                 old(redis.View()).waits.(index :=
              old(redis.View()).waits.index - {member}))
    {
      var _ := redis.ZRem(member);
    }

    /** `emitReply`: send, then postpone; or only postpone when the records name nobody to send to. */
    method EmitReply(now: int, due: Due, caller: Record, child: Record, a: Answer) returns (emitted: bool)
      modifies redis
      ensures emitted <==> CallerAgentType(child, caller) != ""
      ensures redis.View() == Extended(if emitted then old(redis.View()).(ctrl := old(redis.View()).ctrl +
                                         [Posted(CallerAgentType(child, caller), StandIn(cfg, due, caller, child, a))])
                                       else old(redis.View()), now, due.member, due.deadlineMs)
    {
      hide StandIn;
      var target := CallerAgentType(child, caller);
      if target == "" {
        ExtendDeadline(now, due.member, due.deadlineMs);
        return false;
      }
      redis.XAdd(target, StandIn(cfg, due, caller, child, a));
      ExtendDeadline(now, due.member, due.deadlineMs);
      return true;
    }

    method SynthesizeFailure(now: int, due: Due, caller: Record, child: Option<Record>, outcome: Outcome,
                             errorCode: string, status: string)
      returns (result: Outcome)
      modifies redis
      ensures var v := Failure(cfg, due, caller, child, outcome, errorCode, status, false);
              v.outcome == result && redis.View() == Apply(old(redis.View()), now, due.member, due.deadlineMs, v)
    {
      hide FailureAnswer, StandIn, DecodeMember, Extended;
      var a := FailureAnswer(cfg, outcome, due, child, errorCode, status);
      var emitted := EmitReply(now, due, caller, RecordOf(child), a);
      StandInTarget(cfg, due, caller, RecordOf(child), a);
      return if emitted then outcome else Unroutable;
    }

    method RecoverFinishedChild(now: int, due: Due, caller: Record, child: Record) returns (result: Outcome)
      modifies redis
      requires DecodeMember(due.member) == Decoded(due.entry)
      ensures var v := Recover(old(redis.View()), cfg, due, caller, child);
              v.outcome == result && redis.View() == Apply(old(redis.View()), now, due.member, due.deadlineMs, v)
    {
      hide FailureAnswer, StandIn, DecodeMember, Extended, Recovery, BaseStatus, Failure;
      var status := BaseStatus(child.status);
      var g := SingleCallGroup(due.entry.childMessageId);
      if g !in redis.results || due.entry.childMessageId !in redis.results[g] {
        result := SynthesizeFailure(now, due, caller, Some(child), Recovered, REPLY_LOST_RECOVERED,
                                    if status == FAILED || status == CANCELLED then status else FAILED);
        return;
      }
      var a := Recovery(redis.results[g][due.entry.childMessageId], status);
      var emitted := EmitReply(now, due, caller, child, a);
      StandInTarget(cfg, due, caller, child, a);
      return Recovered;
    }

    method Triage(now: int, due: Due, caller: Record) returns (result: Outcome)
      modifies redis
      requires DecodeMember(due.member) == Decoded(due.entry)
      ensures var v := TriageChild(old(redis.View()), cfg, now, due, caller);
              v.outcome == result && redis.View() == Apply(old(redis.View()), now, due.member, due.deadlineMs, v)
    {
      hide Recover, DecodeMember, Extended, BaseStatus, RenewalCeiling, IsTerminal, IsSuspended, FailureAnswer, StandIn,
           CallerAgentType;
      var found := redis.GetExecutionByMessageId(due.entry.childMessageId, due.entry.sessionId);
      if found.None? {
        result := SynthesizeFailure(now, due, caller, None, NeverStarted, CHILD_NEVER_STARTED, FAILED);
        return;
      }
      var child := found.value;
      var status := BaseStatus(child.status);
      if IsTerminal(status) {
        result := RecoverFinishedChild(now, due, caller, child);
      } else if IsSuspended(status) {
        ExtendDeadline(now, due.member, due.deadlineMs);
        result := ChildWaiting;
      } else if child.workerId == "" {
        result := SynthesizeFailure(now, due, caller, found, NeverStarted, CHILD_NEVER_STARTED, FAILED);
      } else if child.workerId in redis.online {
        var origin := if due.member in redis.origins && redis.origins[due.member] != 0 then redis.origins[due.member]
            else due.deadlineMs;
        assert origin == RenewalOrigin(redis.View(), due.member, due.deadlineMs);
        var limitMs := origin + Grace(origin, child.createdAt, cfg.renewMaxMultiple);
        CeilingIs(redis.View(), cfg, due, child);
        if now < limitMs {
          ExtendDeadline(now, due.member, due.deadlineMs);
          result := ChildAlive;
        } else {
          result := SynthesizeFailure(now, due, caller, found, TimedOut, CHILD_TIMEOUT, FAILED);
          if cfg.cancelOnTimeout && !child.cancelRequested {
            redis.cancels := redis.cancels + [(due.entry.sessionId, due.entry.childMessageId)];
          }
        }
      } else {
        result := SynthesizeFailure(now, due, caller, found, WorkerLost, CHILD_WORKER_LOST, FAILED);
      }
    }

    /** Everything that establishes somebody is still waiting is checked before anything that could send a reply. */
    method Resolve(now: int, member: string, score: int) returns (result: Outcome)
      modifies redis
      ensures result == Decide(old(redis.View()), cfg, now, member, score).outcome
      ensures redis.View() == ResolveEntry(old(redis.View()), cfg, now, member, score)
    {
      hide TriageChild, Extended, BaseStatus, IsTerminal, IsSuspended, DecodeMember;
      var decoded := WaitIndex.Decode(member);
      if !decoded.Decoded? {
        DropEntry(member);
        return Malformed;
      }
      var due := Due(member, score, decoded.member);
      var found := redis.GetExecutionByMessageId(due.entry.parentMessageId, due.entry.sessionId);
      if found.None? {
        DropEntry(member);
        return CallerMissing;
      }
      var caller := found.value;
      var status := BaseStatus(caller.status);
      if IsTerminal(status) {
        DropEntry(member);
        return CallerTerminal;
      }
      if !IsSuspended(status) {
        if caller.workerId != "" && caller.workerId !in redis.online {
          DropEntry(member);
          return CallerLost;
        }
        ExtendDeadline(now, member, score);
        return CallerNotSuspended;
      }
      if due.entry.childMessageId == "" {
        return AskUserSkipped;
      }
      if due.entry.taskGroupId != "" {
        var g := due.entry.taskGroupId;
        if g !in redis.groups {
          DropEntry(member);
          return GroupGone;
        }
        if redis.groups[g].aborted {
          DropEntry(member);
          return GroupAborted;
        }
        if g in redis.results && due.entry.childMessageId in redis.results[g] {
          DropEntry(member);
          return GroupAlreadyJoined;
        }
      }
      result := Triage(now, due, caller);
    }

    /** One pass's batch of due entries, examined in order. */
    method ResolveDueEntries(now: int, clock: nat -> int) returns (batch: seq<string>, outcomes: seq<Outcome>)
      modifies redis
      ensures IsBatch(old(redis.View()).waits.index, now, SWEEP_BATCH_LIMIT, batch)
      ensures outcomes == Outcomes(old(redis.View()), cfg, clock, batch, old(redis.View()).waits.index)
      ensures redis.View() == ResolveAll(old(redis.View()), cfg, clock, batch, old(redis.View()).waits.index)
    {
      hide ResolveEntry, Decide;
      batch := ZRangeByScore(redis.index, now, SWEEP_BATCH_LIMIT);
      var scores := redis.index;
      outcomes := [];
      for i := 0 to |batch|
        invariant outcomes == Outcomes(old(redis.View()), cfg, clock, batch[..i], scores)
        invariant redis.View() == ResolveAll(old(redis.View()), cfg, clock, batch[..i], scores)
      {
        assert batch[..i + 1][..i] == batch[..i] && batch[..i + 1][i] == batch[i];
        var o := Resolve(clock(i), batch[i], scores[batch[i]]);
        outcomes := outcomes + [o];
      }
      assert batch[..|batch|] == batch;
    }

    /** Whether this pass prunes, on its own coarser cadence. */
    method PruneIsDue(now: int) returns (due: bool)
      modifies this`lastPruneMs
      ensures due <==> pruneEnabled && (old(lastPruneMs).None? ||
                                        now - old(lastPruneMs).value >= pruneIntervalSeconds * 1000)
      ensures lastPruneMs == if due then Some(now) else old(lastPruneMs)
    {
      if !pruneEnabled || (lastPruneMs.Some? && now - lastPruneMs.value < pruneIntervalSeconds * 1000) {
        return false;
      }
      lastPruneMs := Some(now);
      return true;
    }

    method PruneShard(now: int) returns (removed: nat)
      modifies redis
      ensures redis.View() == Pruned(old(redis.View()), now)
      ensures removed == |old(redis.View()).waits.index| - |redis.View().waits.index|
    {
      removed := redis.ZRemRangeByScore(now - PRUNE_AFTER_SECONDS * 1000);
    }

    /** One shard of one pass: nothing unless its lock is won, and then prune and compensate, each behind its own
        switch. */
    method SweepShard(claimed: bool, pruning: bool, now: int, clock: nat -> int)
        returns (batch: seq<string>, outcomes: seq<Outcome>)
      modifies redis
      ensures var before := old(redis.View());
              var pruned := if claimed && pruning then Pruned(before, now) else before;
              if claimed && enabled then
                && IsBatch(pruned.waits.index, now, SWEEP_BATCH_LIMIT, batch)
                && outcomes == Outcomes(pruned, cfg, clock, batch, pruned.waits.index)
                && redis.View() == ResolveAll(pruned, cfg, clock, batch, pruned.waits.index)
              else batch == [] && outcomes == [] && redis.View() == pruned
    {
      hide ResolveAll, Outcomes, IsBatch;
      batch, outcomes := [], [];
      if !claimed || (!pruning && !enabled) {
        return;
      }
      if pruning {
        var _ := PruneShard(now);
      }
      if enabled {
        batch, outcomes := ResolveDueEntries(now, clock);
      }
    }
  }

  lemma StandInTarget(cfg: Config, due: Due, caller: Record, child: Record, a: Answer)
    ensures StandIn(cfg, due, caller, child, a).header.targetAgentType == CallerAgentType(child, caller)
  {
  }

  lemma CeilingIs(db: Db, cfg: Config, due: Due, child: Record)
    ensures RenewalCeiling(db, cfg, due, child) ==
            RenewalOrigin(db, due.member, due.deadlineMs) + Grace(RenewalOrigin(db, due.member, due.deadlineMs),
                                                                  child.createdAt, cfg.renewMaxMultiple)
  {
  }
}
