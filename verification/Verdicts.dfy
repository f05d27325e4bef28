/** What a sweep reports and says (`src/liveness/wait_sweeper.ts`), read off the records alone: the outcome of every
    examination, every field of the reply it sends, and whom it orders to stop. */
module Verdicts {
  import opened Protocol
  import opened WaitIndex
  import opened WaitGate
  import opened Store
  import opened Builders
  import opened Sweeper
  import Renewal

  // ----- outcomes -----

  /** The caller of the wait, whose status reads as terminal, as suspended, or as neither. */
  ghost predicate CallerOver(db: Db, entry: Member) {
    var caller := Lookup(db, entry.parentMessageId, entry.sessionId);
    caller.Some? && IsTerminal(BaseStatus(caller.value.status))
  }

  ghost predicate CallerWaits(db: Db, entry: Member) {
    var caller := Lookup(db, entry.parentMessageId, entry.sessionId);
    caller.Some? && IsSuspended(BaseStatus(caller.value.status))
  }

  ghost predicate CallerBusy(db: Db, entry: Member) {
    var caller := Lookup(db, entry.parentMessageId, entry.sessionId);
    caller.Some? && !IsTerminal(BaseStatus(caller.value.status)) && !IsSuspended(BaseStatus(caller.value.status))
  }

  ghost predicate CallerDied(db: Db, entry: Member) {
    var caller := Lookup(db, entry.parentMessageId, entry.sessionId);
    caller.Some? && caller.value.workerId != "" && caller.value.workerId !in db.online
  }

  /** Why an examination removes the entry: each outcome has its own reason, and the reasons exclude each other. */
  lemma DropsSayWhy(db: Db, cfg: Config, now: int, member: string, score: int)
    ensures var v := Decide(db, cfg, now, member, score);
            if !DecodeMember(member).Decoded? then v == Drop(Malformed)
            else
              var e := DecodeMember(member).member;
              var grouped := CallerWaits(db, e) && e.childMessageId != "" && e.taskGroupId != "";
              var live := e.taskGroupId in db.groups && !db.groups[e.taskGroupId].aborted;
              && v != Drop(Malformed)
              && (v == Drop(CallerMissing) <==> Lookup(db, e.parentMessageId, e.sessionId).None?)
              && (v == Drop(CallerTerminal) <==> CallerOver(db, e))
              && (v == Drop(CallerLost) <==> CallerBusy(db, e) && CallerDied(db, e))
              && (v == Postpone(CallerNotSuspended, false) <==> CallerBusy(db, e) && !CallerDied(db, e))
              && (v == Leave(AskUserSkipped) <==> CallerWaits(db, e) && e.childMessageId == "")
              && (v == Drop(GroupGone) <==> grouped && e.taskGroupId !in db.groups)
              && (v == Drop(GroupAborted) <==> grouped && e.taskGroupId in db.groups &&
                                               db.groups[e.taskGroupId].aborted)
              && (v == Drop(GroupAlreadyJoined) <==>
                    grouped && live && e.taskGroupId in db.results && e.childMessageId in db.results[e.taskGroupId])
  {
    hide TriageChild, BaseStatus, DecodeMember, IsTerminal, IsSuspended;
    if DecodeMember(member).Decoded? {
      var e := DecodeMember(member).member;
      var found := Lookup(db, e.parentMessageId, e.sessionId);
      if found.Some? {
        SuspendedIsNotTerminal(BaseStatus(found.value.status));
        TriageIsNeither(db, cfg, now, Due(member, score, e), found.value);
      }
    }
  }

  lemma TriageIsNeither(db: Db, cfg: Config, now: int, due: Due, caller: Record)
    ensures var v := TriageChild(db, cfg, now, due, caller);
            (v.Postpone? || v.Send?) && v.outcome != CallerNotSuspended
  {
    hide StandIn, FailureAnswer, Recovery, RenewalCeiling, BaseStatus, CallerAgentType, IsTerminal, IsSuspended;
  }

  /** The sub-task's record, where somebody waits for it. */
  ghost predicate ChildOver(db: Db, entry: Member) {
    var child := Lookup(db, entry.childMessageId, entry.sessionId);
    child.Some? && IsTerminal(BaseStatus(child.value.status))
  }

  ghost predicate ChildWaits(db: Db, entry: Member) {
    var child := Lookup(db, entry.childMessageId, entry.sessionId);
    child.Some? && IsSuspended(BaseStatus(child.value.status))
  }

  ghost predicate NeverPickedUp(db: Db, entry: Member) {
    var child := Lookup(db, entry.childMessageId, entry.sessionId);
    child.None? || (!ChildOver(db, entry) && !ChildWaits(db, entry) && child.value.workerId == "")
  }

  ghost predicate LostWithItsWorker(db: Db, entry: Member) {
    var child := Lookup(db, entry.childMessageId, entry.sessionId);
    && child.Some? && !ChildOver(db, entry) && !ChildWaits(db, entry)
    && child.value.workerId != "" && child.value.workerId !in db.online
  }

  /** What is reported of a sub-task somebody waits for. A failure that nobody can be addressed with is reported as
      unroutable; a recovery is reported in any case. */
  lemma TriageSaysWhy(db: Db, cfg: Config, now: int, due: Due)
    requires DecodeMember(due.member) == Decoded(due.entry) && SomebodyWaits(db, due.entry)
    ensures var e := due.entry;
            var v := Decide(db, cfg, now, due.member, due.deadlineMs);
            var routable := Routable(db, e);
            var running := Renewal.StillRunning(db, e);
            var late := running && now >= RenewalCeiling(db, cfg, due, Lookup(db, e.childMessageId, e.sessionId).value);
            && (v.outcome == ChildWaiting <==> ChildWaits(db, e))
            && (v.outcome == Recovered <==>
                  ChildOver(db, e) && (routable || Stored(db, e.childMessageId).Some?))
            && (v.outcome == NeverStarted <==> NeverPickedUp(db, e) && routable)
            && (v.outcome == WorkerLost <==> LostWithItsWorker(db, e) && routable)
            && (v.outcome == ChildAlive <==> running && !late)
            && (v.outcome == TimedOut <==> late && routable)
            && (v.outcome == Unroutable <==>
                  && !routable
                  && (NeverPickedUp(db, e) || LostWithItsWorker(db, e) || late ||
                      (ChildOver(db, e) && Stored(db, e.childMessageId).None?)))
  {
    hide StandIn, FailureAnswer, Recovery, RenewalCeiling, BaseStatus, DecodeMember, CallerAgentType, IsTerminal,
         IsSuspended, Stored;
    var e := due.entry;
    SuspendedIsNotTerminal(BaseStatus(Lookup(db, e.parentMessageId, e.sessionId).value.status));
    var child := Lookup(db, e.childMessageId, e.sessionId);
    if child.Some? {
      SuspendedIsNotTerminal(BaseStatus(child.value.status));
    }
  }

  /** The sub-task is ordered to stop exactly if it is timed out, stopping is configured, and nobody has asked it yet;
      whether its caller could be told does not matter. */
  lemma StopsExactly(db: Db, cfg: Config, now: int, member: string, score: int)
    requires DecodeMember(member).Decoded?
    ensures var e := DecodeMember(member).member;
            var due := Due(member, score, e);
            var child := Lookup(db, e.childMessageId, e.sessionId);
            var stops := SomebodyWaits(db, e) && Renewal.StillRunning(db, e) && cfg.cancelOnTimeout &&
                         !child.value.cancelRequested && now >= RenewalCeiling(db, cfg, due, child.value);
            ResolveEntry(db, cfg, now, member, score).cancels ==
            db.cancels + if stops then [(e.sessionId, e.childMessageId)] else []
  {
    hide StandIn, FailureAnswer, Recovery, RenewalCeiling, BaseStatus, DecodeMember, CallerAgentType, IsTerminal,
         IsSuspended, Stored;
    var e := DecodeMember(member).member;
    var caller := Lookup(db, e.parentMessageId, e.sessionId);
    var child := Lookup(db, e.childMessageId, e.sessionId);
    if caller.Some? {
      SuspendedIsNotTerminal(BaseStatus(caller.value.status));
    }
    if child.Some? {
      SuspendedIsNotTerminal(BaseStatus(child.value.status));
    }
    var v := Decide(db, cfg, now, member, score);
    hide Decide;
    assert db.cancels + [] == db.cancels;
  }

  // ----- what the reply says -----

  /** To whom and in whose name: the records tell, the sub-task's before the caller's. */
  ghost predicate IsAddressed(h: Header, cfg: Config, entry: Member, caller: Record, child: Record) {
    && h.messageId == entry.parentMessageId && h.parentMessageId == entry.childMessageId
    && h.sessionId == entry.sessionId && h.taskGroupId == entry.taskGroupId
    && h.targetAgentType == (if child.sourceAgentType != "" then child.sourceAgentType else caller.targetAgentType)
    && h.sourceAgentType == child.targetAgentType
    && h.traceId == (if child.traceId != "" then child.traceId
                     else if caller.traceId != "" then caller.traceId else cfg.mintedTrace)
    && h.userCode == "" && h.userName == ""
  }

  /** The metadata are those of `origin` and four facts for operators. */
  ghost predicate IsSigned(metadata: Meta, origin: Meta, cfg: Config, errorCode: string, childMessageId: string) {
    var facts := map["synthesized_by" := JText("wait_sweeper"), "liveness_error_code" := JText(errorCode),
                     "child_message_id" := JText(childMessageId), "sweeper_worker_id" := JText(cfg.workerId)];
    metadata == origin + facts
  }

  lemma StandInSays(cfg: Config, due: Due, caller: Record, child: Record, a: Answer)
    ensures var reply := StandIn(cfg, due, caller, child, a);
            && reply.Resume? && IsAddressed(reply.header, cfg, due.entry, caller, child)
            && IsSigned(reply.header.metadata, a.metadata, cfg, a.errorCode, due.entry.childMessageId)
            && reply.status == a.status && reply.content == a.content && reply.replyData == a.replyData
            && reply.extraPayload == a.extraPayload
  {
    var keys := ["synthesized_by", "liveness_error_code", "child_message_id", "sweeper_worker_id"];
    assert |keys[0]| == 14 && |keys[1]| == 19 && |keys[2]| == 16 && |keys[3]| == 17;
  }

  /** A failure, with nothing of an answer but the error. */
  ghost predicate IsFailure(reply: Command, status: string, text: string, errorCode: string, childMessageId: string) {
    && reply.Resume? && reply.status == status && reply.content == JText("") && reply.extraPayload == map[]
    && reply.replyData == JObject(map["error" := JText(text), "error_code" := JText(errorCode),
                                      "child_message_id" := JText(childMessageId)])
  }

  /** The number a text of decimal digits stands for. */
  function ValueOf(text: string): int {
    if text == "" then 0 else ValueOf(text[..|text| - 1]) * 10 + (text[|text| - 1] as int - '0' as int)
  }

  lemma {:induction false} DecimalReadsBack(n: nat)
    ensures ValueOf(Decimal(n)) == n
    ensures forall i :: 0 <= i < |Decimal(n)| ==> '0' <= Decimal(n)[i] <= '9'
  {
    if n >= 10 {
      DecimalReadsBack(n / 10);
      var last := [('0' as int + n % 10) as char];
      assert (Decimal(n / 10) + last)[..|Decimal(n / 10)|] == Decimal(n / 10);
    }
  }

  function NeverRecordedText(id: string): string {
    "No execution was ever recorded for sub-task " + id
  }

  function NeverStartedText(id: string, status: string): string {
    "Sub-task " + id + " was never picked up by a worker (status=" + status + ")"
  }

  function WorkerLostText(id: string, status: string, workerId: string): string {
    "Worker " + workerId + " running sub-task " + id + " is no longer alive (status=" + status + ")"
  }

  function TimedOutText(id: string, status: string, workerId: string, multiple: string): string {
    "Sub-task " + id + " is still " + status + " on live worker " + workerId + " but produced no reply within " +
    multiple + "x its reply timeout"
  }

  /** The error a caller reads about a sub-task that has not finished. */
  ghost function ErrorText(db: Db, cfg: Config, entry: Member): string {
    var id := entry.childMessageId;
    var child := RecordOf(Lookup(db, id, entry.sessionId));
    var status := BaseStatus(child.status);
    if Lookup(db, id, entry.sessionId).None? then NeverRecordedText(id)
    else if NeverPickedUp(db, entry) then NeverStartedText(id, status)
    else if LostWithItsWorker(db, entry) then WorkerLostText(id, status, child.workerId)
    else TimedOutText(id, status, child.workerId, Decimal(Max(0, cfg.renewMaxMultiple)))
  }

  lemma ExplainsNeverRecorded(cfg: Config, due: Due, outcome: Outcome)
    ensures Explanation(cfg, outcome, due, None) == NeverRecordedText(due.entry.childMessageId)
  {
  }

  lemma ExplainsNeverStarted(cfg: Config, due: Due, child: Record)
    ensures Explanation(cfg, NeverStarted, due, Some(child)) ==
            NeverStartedText(due.entry.childMessageId, BaseStatus(child.status))
  {
    hide BaseStatus;
  }

  lemma ExplainsWorkerLost(cfg: Config, due: Due, child: Record)
    ensures Explanation(cfg, WorkerLost, due, Some(child)) ==
            WorkerLostText(due.entry.childMessageId, BaseStatus(child.status), child.workerId)
  {
    hide BaseStatus;
  }

  lemma ExplainsTimedOut(cfg: Config, due: Due, child: Record)
    ensures Explanation(cfg, TimedOut, due, Some(child)) ==
            TimedOutText(due.entry.childMessageId, BaseStatus(child.status), child.workerId,
                         Decimal(Max(0, cfg.renewMaxMultiple)))
  {
    hide BaseStatus, Decimal;
  }

  lemma ErrorIsExplained(db: Db, cfg: Config, due: Due, outcome: Outcome)
    requires if NeverPickedUp(db, due.entry) then outcome == NeverStarted
             else if LostWithItsWorker(db, due.entry) then outcome == WorkerLost else outcome == TimedOut
    ensures Explanation(cfg, outcome, due, Lookup(db, due.entry.childMessageId, due.entry.sessionId)) ==
            ErrorText(db, cfg, due.entry)
  {
    hide BaseStatus, Decimal, Lookup, NeverPickedUp, LostWithItsWorker, Explanation, NeverRecordedText,
         NeverStartedText,
         WorkerLostText, TimedOutText;
    var child := Lookup(db, due.entry.childMessageId, due.entry.sessionId);
    ExplainsNeverRecorded(cfg, due, outcome);
    if child.Some? {
      ExplainsNeverStarted(cfg, due, child.value);
      ExplainsWorkerLost(cfg, due, child.value);
      ExplainsTimedOut(cfg, due, child.value);
    }
  }

  /** Whatever a sweep sends for a sub-task that has not finished: addressed by the records, signed, with the sub-task's
      own dispatch metadata, and reporting the failure the records show. */
  lemma FailuresSay(db: Db, cfg: Config, now: int, due: Due)
    requires DecodeMember(due.member) == Decoded(due.entry)
    requires Decide(db, cfg, now, due.member, due.deadlineMs).Send? && !ChildOver(db, due.entry)
    ensures var e := due.entry;
            var reply := Decide(db, cfg, now, due.member, due.deadlineMs).reply;
            var child := RecordOf(Lookup(db, e.childMessageId, e.sessionId));
            var code := if NeverPickedUp(db, e) then "CHILD_NEVER_STARTED"
                        else if LostWithItsWorker(db, e) then "CHILD_WORKER_LOST" else "CHILD_TIMEOUT";
            && Lookup(db, e.parentMessageId, e.sessionId).Some?
            && IsFailure(reply, "FAILED", ErrorText(db, cfg, e), code, e.childMessageId)
            && IsAddressed(reply.header, cfg, e, Lookup(db, e.parentMessageId, e.sessionId).value, child)
            && IsSigned(reply.header.metadata, child.metadata, cfg, code, e.childMessageId)
  {
    RepliesExactlyWhen(db, cfg, now, due.member, due.deadlineMs);
    hide StandIn, Recovery, RenewalCeiling, BaseStatus, DecodeMember, CallerAgentType, IsTerminal, IsSuspended, Stored,
         IsAddressed, IsSigned, IsFailure, Explanation, ErrorText, FailureAnswer, Emit;
    var e := due.entry;
    var caller := Lookup(db, e.parentMessageId, e.sessionId).value;
    var found := Lookup(db, e.childMessageId, e.sessionId);
    SuspendedIsNotTerminal(BaseStatus(caller.status));
    var v := Decide(db, cfg, now, due.member, due.deadlineMs);
    if found.None? {
      ErrorIsExplained(db, cfg, due, NeverStarted);
      FailureSays(cfg, due, caller, None, NeverStarted, CHILD_NEVER_STARTED, FAILED, false);
    } else {
      var child := found.value;
      SuspendedIsNotTerminal(BaseStatus(child.status));
      if child.workerId == "" {
        ErrorIsExplained(db, cfg, due, NeverStarted);
        FailureSays(cfg, due, caller, found, NeverStarted, CHILD_NEVER_STARTED, FAILED, false);
      } else if child.workerId in db.online {
        ErrorIsExplained(db, cfg, due, TimedOut);
        FailureSays(cfg, due, caller, found, TimedOut, CHILD_TIMEOUT, FAILED, cfg.cancelOnTimeout &&
                    !child.cancelRequested);
      } else {
        ErrorIsExplained(db, cfg, due, WorkerLost);
        FailureSays(cfg, due, caller, found, WorkerLost, CHILD_WORKER_LOST, FAILED, false);
      }
    }
  }

  lemma FailureSays(cfg: Config, due: Due, caller: Record, child: Option<Record>, outcome: Outcome, errorCode: string,
                    status: string, cancel: bool)
    ensures var v := Failure(cfg, due, caller, child, outcome, errorCode, status, cancel);
            v.Send? ==>
              && IsFailure(v.reply, status, Explanation(cfg, outcome, due, child), errorCode, due.entry.childMessageId)
              && IsAddressed(v.reply.header, cfg, due.entry, caller, RecordOf(child))
              && IsSigned(v.reply.header.metadata, RecordOf(child).metadata, cfg, errorCode, due.entry.childMessageId)
  {
    hide StandIn, Explanation, CallerAgentType, IsAddressed, IsSigned;
    StandInSays(cfg, due, caller, RecordOf(child), FailureAnswer(cfg, outcome, due, child, errorCode, status));
  }

  /** Whatever a sweep sends for a finished sub-task: the stored answer as it stands, or a failure in its own status
      where that is one. */
  lemma RecoveriesSay(db: Db, cfg: Config, now: int, due: Due)
    requires DecodeMember(due.member) == Decoded(due.entry)
    requires Decide(db, cfg, now, due.member, due.deadlineMs).Send? && ChildOver(db, due.entry)
    ensures var e := due.entry;
            var reply := Decide(db, cfg, now, due.member, due.deadlineMs).reply;
            var child := RecordOf(Lookup(db, e.childMessageId, e.sessionId));
            var base := BaseStatus(child.status);
            var stored := Stored(db, e.childMessageId);
            && Lookup(db, e.parentMessageId, e.sessionId).Some? && reply.Resume?
            && IsAddressed(reply.header, cfg, e, Lookup(db, e.parentMessageId, e.sessionId).value, child)
            && (stored.None? ==>
                  && IsFailure(reply, if base == "CANCELLED" then "CANCELLED" else "FAILED",
                               "Sub-task " + e.childMessageId + " finished with " + base +
                               " but neither its reply nor its stored result is available",
                               "REPLY_LOST_RECOVERED", e.childMessageId)
                  && IsSigned(reply.header.metadata, child.metadata, cfg, "REPLY_LOST_RECOVERED", e.childMessageId))
            && (stored.Some? ==>
                  && reply.status == (if stored.value.status != "" then stored.value.status else base)
                  && reply.content == (if stored.value.content == JNull then JText("") else stored.value.content)
                  && reply.replyData == stored.value.replyData && reply.extraPayload == stored.value.extraPayload
                  && IsSigned(reply.header.metadata, stored.value.metadata, cfg, "REPLY_LOST_RECOVERED",
                              e.childMessageId))
  {
    RepliesExactlyWhen(db, cfg, now, due.member, due.deadlineMs);
    hide StandIn, RenewalCeiling, BaseStatus, DecodeMember, CallerAgentType, IsTerminal, IsSuspended, Stored,
         IsAddressed, IsSigned, FailureAnswer;
    var e := due.entry;
    var caller := Lookup(db, e.parentMessageId, e.sessionId).value;
    var child := Lookup(db, e.childMessageId, e.sessionId).value;
    SuspendedIsNotTerminal(BaseStatus(caller.status));
    var stored, base := Stored(db, e.childMessageId), BaseStatus(child.status);
    assert Decide(db, cfg, now, due.member, due.deadlineMs) == Recover(db, cfg, due, caller, child);
    if stored.None? {
      FailureSays(cfg, due, caller, Some(child), Recovered, REPLY_LOST_RECOVERED, if base == FAILED || base == CANCELLED
                  then base else FAILED, false);
    } else {
      StandInSays(cfg, due, caller, child, Recovery(stored.value, base));
    }
  }

  // ----- a whole pass -----

  /** The texts agree up to position `k`, where the first is at its end or has the smaller character. */
  ghost predicate FirstDifference(a: string, b: string, k: nat) {
    k <= |a| && k < |b| && a[..k] == b[..k] && (k == |a| || a[k] < b[k])
  }

  lemma {:induction false} SmallerTextExactly(a: string, b: string)
    ensures LexLess(a, b) <==> exists k: nat :: FirstDifference(a, b, k)
  {
    if b != "" && (a == "" || a[0] < b[0]) {
      assert FirstDifference(a, b, 0);
    } else if a != "" && b != "" && a[0] == b[0] {
      SmallerTextExactly(a[1..], b[1..]);
      if k: nat :| FirstDifference(a[1..], b[1..], k) {
        assert a[..k + 1] == [a[0]] + a[1..][..k] && b[..k + 1] == [b[0]] + b[1..][..k];
        assert FirstDifference(a, b, k + 1);
      }
      if k: nat :| FirstDifference(a, b, k) {
        assert k > 0;
        assert a[1..][..k - 1] == a[..k][1..] && b[1..][..k - 1] == b[..k][1..];
        assert FirstDifference(a[1..], b[1..], k - 1);
      }
    } else if k: nat :| FirstDifference(a, b, k) {
      assert false;
    }
  }

  /** The order of a batch: the earlier deadline first, and of equal ones the smaller member. */
  lemma BatchOrderIs(index: map<string, int>, a: string, b: string)
    requires a in index && b in index
    ensures Before(index, a, b) <==>
            index[a] < index[b] || (index[a] == index[b] && exists k: nat :: FirstDifference(a, b, k))
  {
    SmallerTextExactly(a, b);
  }

  /** A pass reports one outcome per entry: that of the verdict its turn found in the store the turns before it left. */
  lemma {:induction false} OutcomesAre(db: Db, cfg: Config, clock: nat -> int, batch: seq<string>, scores: map<string,
                                       int>,
                                       i: nat)
    requires (forall m :: m in batch ==> m in scores) && i < |batch|
    ensures |Outcomes(db, cfg, clock, batch, scores)| == |batch|
    ensures Outcomes(db, cfg, clock, batch, scores)[i] ==
            Decide(ResolveAll(db, cfg, clock, batch[..i], scores), cfg, clock(i), batch[i], scores[batch[i]]).outcome
    decreases |batch|
  {
    hide Decide, ResolveAll;
    var n := |batch| - 1;
    if n > 0 {
      OutcomesAre(db, cfg, clock, batch[..n], scores, if i < n then i else 0);
    }
    assert i < n ==> batch[..n][..i] == batch[..i] && batch[..n][i] == batch[i];
  }

  /** Pruning removes exactly what was due more than eight days ago. */
  lemma PrunesExactly(db: Db, now: int, m: string)
    requires m in db.waits.index && db.waits.index[m] >= 0
    ensures m !in Pruned(db, now).waits.index <==> now - db.waits.index[m] >= 8 * 24 * 3600 * 1000
    ensures m in Pruned(db, now).waits.index ==> Pruned(db, now).waits.index[m] == db.waits.index[m]
    ensures var pruned := Pruned(db, now);
            pruned == db.(waits := Waits(pruned.waits.index, db.waits.markers)) &&
            pruned.waits.index.Keys <= db.waits.index.Keys
  {
  }
}
