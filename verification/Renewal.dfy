/** The renewal budget over a whole run of sweeps of one wait (`src/liveness/wait_sweeper.ts`): where it is measured
    from, how many renewals it buys, and what happens when it is spent. */
module Renewal {
  import opened Protocol
  import opened WaitIndex
  import opened WaitGate
  import opened Store
  import opened Builders
  import opened Sweeper

  /** One examination of the entry: the store the sweep finds and the time it looks. */
  datatype Visit = Visit(db: Db, now: int)

  function Score(v: Visit, member: string): int
    requires member in v.db.waits.index
  {
    v.db.waits.index[member]
  }

  function VerdictAt(v: Visit, cfg: Config, member: string): Verdict
    requires member in v.db.waits.index
  {
    Decide(v.db, cfg, v.now, member, Score(v, member))
  }

  function After(v: Visit, cfg: Config, member: string): Db
    requires member in v.db.waits.index
  {
    ResolveEntry(v.db, cfg, v.now, member, Score(v, member))
  }

  /** Between two visits anything may happen except to the entry itself and its recorded origin. */
  ghost predicate Undisturbed(a: Db, b: Db, member: string) {
    && member in a.waits.index && member in b.waits.index && a.waits.index[member] == b.waits.index[member]
    && (member in a.origins <==> member in b.origins)
    && (member in a.origins ==> a.origins[member] == b.origins[member])
  }

  /** A run of sweeps of one entry, registered with `deadline` and not yet renewed. */
  ghost predicate Watched(visits: seq<Visit>, cfg: Config, member: string, deadline: int) {
    && (forall i :: 0 <= i < |visits| ==> IsDue(visits[i].db.waits.index, visits[i].now, member))
    && (visits != [] ==> Score(visits[0], member) == deadline && member !in visits[0].db.origins)
    && (forall i :: 0 <= i < |visits| - 1 ==> Follows(visits, cfg, member, i))
  }

  ghost predicate Follows(visits: seq<Visit>, cfg: Config, member: string, i: nat)
    requires i < |visits| - 1 && member in visits[i].db.waits.index
  {
    Undisturbed(After(visits[i], cfg, member), visits[i + 1].db, member)
  }

  /** Whatever record the sub-task has, it was created at `created`. */
  ghost predicate BornAt(visits: seq<Visit>, entry: Member, created: int) {
    forall i :: 0 <= i < |visits| ==>
      var child := Lookup(visits[i].db, entry.childMessageId, entry.sessionId);
      child.Some? ==> child.value.createdAt == created
  }

  /** The sub-task is neither finished nor waiting, and its worker is alive. */
  ghost predicate StillRunning(db: Db, entry: Member) {
    var child := Lookup(db, entry.childMessageId, entry.sessionId);
    && child.Some? && !IsTerminal(BaseStatus(child.value.status)) && !IsSuspended(BaseStatus(child.value.status))
    && child.value.workerId != "" && child.value.workerId in db.online
  }

  /** How often the run found the sub-task alive and granted it more time. */
  function Renewals(visits: seq<Visit>, cfg: Config, member: string): nat
    requires forall i :: 0 <= i < |visits| ==> member in visits[i].db.waits.index
  {
    if visits == [] then 0
    else
      Renewals(visits[..|visits| - 1], cfg, member) +
      if VerdictAt(visits[|visits| - 1], cfg, member).outcome == ChildAlive then 1 else 0
  }

  /** The original deadline can still be told: it is recorded, or nothing has overwritten the score yet. */
  ghost predicate Anchored(db: Db, member: string, deadline: int) {
    member in db.waits.index && if member in db.origins then db.origins[member] == deadline
        else db.waits.index[member] == deadline
  }

  lemma AnchorHolds(v: Visit, cfg: Config, member: string, deadline: int)
    requires Anchored(v.db, member, deadline) && member in After(v, cfg, member).waits.index
    ensures Anchored(After(v, cfg, member), member, deadline)
  {
    EffectIs(v.db, cfg, v.now, member, Score(v, member));
    hide Decide, ResolveEntry;
  }

  lemma {:induction false} AlwaysAnchored(visits: seq<Visit>, cfg: Config, member: string, deadline: int, i: nat)
    requires Watched(visits, cfg, member, deadline) && i < |visits|
    ensures Anchored(visits[i].db, member, deadline)
  {
    hide After;
    if i > 0 {
      AlwaysAnchored(visits, cfg, member, deadline, i - 1);
      assert Follows(visits, cfg, member, i - 1);
      AnchorHolds(visits[i - 1], cfg, member, deadline);
    }
  }

  /** The ceiling in plain numbers: the caller's own timeout, or an hour if the records do not tell it, as often again
      as the multiple says beyond the first, and at least five minutes. */
  lemma CeilingIs(db: Db, cfg: Config, due: Due, child: Record, deadline: int)
    requires Anchored(db, due.member, deadline) && deadline != 0 && due.deadlineMs == db.waits.index[due.member]
    ensures var asked := if 0 < child.createdAt < deadline then deadline - child.createdAt else 3_600_000;
            var more := (cfg.renewMaxMultiple - 1) * asked;
            RenewalCeiling(db, cfg, due, child) == deadline + if more > 300_000 then more else 300_000
  {
    var asked := if 0 < child.createdAt < deadline then deadline - child.createdAt else 3_600_000;
    assert ReplyTimeout(deadline, child.createdAt) == asked;
    assert asked * (cfg.renewMaxMultiple - 1) == (cfg.renewMaxMultiple - 1) * asked;
  }

  /** The budget is measured from the same deadline, so the ceiling is the same at every sweep. */
  lemma CeilingNeverMoves(visits: seq<Visit>, cfg: Config, member: string, entry: Member, deadline: int, created: int,
                          i: nat)
    requires Watched(visits, cfg, member, deadline) && deadline != 0 && i < |visits| && BornAt(visits, entry, created)
    requires Lookup(visits[i].db, entry.childMessageId, entry.sessionId).Some?
    ensures var child := Lookup(visits[i].db, entry.childMessageId, entry.sessionId).value;
            var asked := if 0 < created < deadline then deadline - created else 3_600_000;
            var more := (cfg.renewMaxMultiple - 1) * asked;
            RenewalCeiling(visits[i].db, cfg, Due(member, Score(visits[i], member), entry), child)
            == deadline + if more > 300_000 then more else 300_000
  {
    hide RenewalCeiling, After, Anchored;
    AlwaysAnchored(visits, cfg, member, deadline, i);
    var child := Lookup(visits[i].db, entry.childMessageId, entry.sessionId).value;
    CeilingIs(visits[i].db, cfg, Due(member, Score(visits[i], member), entry), child, deadline);
  }

  /** A sweep never moves a surviving entry to an earlier time, and a renewal moves it by at least one increment. */
  lemma ScoreClimbs(v: Visit, cfg: Config, member: string)
    requires IsDue(v.db.waits.index, v.now, member) && member in After(v, cfg, member).waits.index
    ensures After(v, cfg, member).waits.index[member] >= Score(v, member)
    ensures VerdictAt(v, cfg, member).outcome == ChildAlive ==>
            After(v, cfg, member).waits.index[member] == v.now + RENEW_INCREMENT_MS
  {
    AliveMeansPostponed(v.db, cfg, v.now, member, Score(v, member));
    EffectIs(v.db, cfg, v.now, member, Score(v, member));
    hide Decide, DecodeMember, ResolveEntry, RenewalCeiling, StillRunning;
  }

  lemma AliveMeansPostponed(db: Db, cfg: Config, now: int, member: string, score: int)
    ensures Decide(db, cfg, now, member, score).outcome == ChildAlive ==>
              && Decide(db, cfg, now, member, score).Postpone? && DecodeMember(member).Decoded?
              && var due := Due(member, score, DecodeMember(member).member);
                 && StillRunning(db, due.entry)
                 && now < RenewalCeiling(db, cfg, due, Lookup(db, due.entry.childMessageId, due.entry.sessionId).value)
  {
    hide StandIn, FailureAnswer, Recovery, RenewalCeiling, BaseStatus, DecodeMember, CallerAgentType, IsTerminal,
         IsSuspended;
  }

  lemma EarlierVisits(visits: seq<Visit>, cfg: Config, member: string, entry: Member, deadline: int, created: int)
    requires Watched(visits, cfg, member, deadline) && visits != []
    ensures Watched(visits[..|visits| - 1], cfg, member, deadline)
    ensures BornAt(visits, entry, created) ==> BornAt(visits[..|visits| - 1], entry, created)
  {
    hide After;
    var n := |visits| - 1;
    var earlier := visits[..n];
    assert forall k :: 0 <= k < n ==> earlier[k] == visits[k];
    assert forall k :: 0 <= k < n - 1 ==> Follows(visits, cfg, member, k) ==> Follows(earlier, cfg, member, k);
  }

  lemma WatchedIsThere(visits: seq<Visit>, cfg: Config, member: string, deadline: int)
    requires Watched(visits, cfg, member, deadline)
    ensures forall i :: 0 <= i < |visits| ==> IsDue(visits[i].db.waits.index, visits[i].now, member)
  {
  }

  lemma {:induction false} RenewalsPushTheDeadline(visits: seq<Visit>, cfg: Config, member: string, deadline: int)
    requires Watched(visits, cfg, member, deadline) && visits != []
    ensures Score(visits[|visits| - 1], member) >=
            deadline + Renewals(visits[..|visits| - 1], cfg, member) * RENEW_INCREMENT_MS
  {
    hide After, VerdictAt;
    var n := |visits| - 1;
    if n > 0 {
      var earlier := visits[..n];
      assert forall k :: 0 <= k < n ==> earlier[k] == visits[k];
      assert forall k :: 0 <= k < n - 1 ==> Follows(visits, cfg, member, k) ==> Follows(earlier, cfg, member, k);
      RenewalsPushTheDeadline(earlier, cfg, member, deadline);
      assert Follows(visits, cfg, member, n - 1);
      assert earlier[|earlier| - 1] == visits[n - 1];
      ScoreClimbs(visits[n - 1], cfg, member);
    }
  }

  /** Renewal bound: a sub-task is granted more time at most as often as five minutes fit into what the multiple leaves
      beyond the first timeout, rounded up, whatever else the sweeps in between found. */
  lemma {:induction false} RenewalsAreBounded(visits: seq<Visit>, cfg: Config, member: string, entry: Member,
                                              deadline: int, created: int)
    requires Watched(visits, cfg, member, deadline) && deadline != 0
    requires DecodeMember(member) == Decoded(entry) && BornAt(visits, entry, created)
    ensures var asked := if 0 < created < deadline then deadline - created else 3_600_000;
            var more := (cfg.renewMaxMultiple - 1) * asked;
            Renewals(visits, cfg, member) * 300_000 < (if more > 300_000 then more else 300_000) + 300_000
  {
    hide After, VerdictAt, RenewalCeiling;
    if visits != [] {
      var n := |visits| - 1;
      var earlier := visits[..n];
      assert forall k :: 0 <= k < n ==> earlier[k] == visits[k];
      assert forall k :: 0 <= k < n - 1 ==> Follows(visits, cfg, member, k) ==> Follows(earlier, cfg, member, k);
      RenewalsAreBounded(earlier, cfg, member, entry, deadline, created);
      if VerdictAt(visits[n], cfg, member).outcome == ChildAlive {
        RenewalsPushTheDeadline(visits, cfg, member, deadline);
        AliveIsBelowCeiling(visits[n], cfg, member, entry);
        CeilingNeverMoves(visits, cfg, member, entry, deadline, created, n);
      }
    }
  }

  lemma AliveIsBelowCeiling(v: Visit, cfg: Config, member: string, entry: Member)
    requires member in v.db.waits.index && DecodeMember(member) == Decoded(entry)
    requires VerdictAt(v, cfg, member).outcome == ChildAlive
    ensures var child := Lookup(v.db, entry.childMessageId, entry.sessionId);
            child.Some? && v.now < RenewalCeiling(v.db, cfg, Due(member, Score(v, member), entry), child.value)
  {
    hide Decide, DecodeMember, RenewalCeiling;
    AliveMeansPostponed(v.db, cfg, v.now, member, Score(v, member));
  }

  /** What a sweep decides about a suspended caller's wait for a sub-task running on a live worker. */
  lemma RunningChildIsJudgedByTheCeiling(db: Db, cfg: Config, now: int, due: Due)
    requires DecodeMember(due.member) == Decoded(due.entry) && SomebodyWaits(db, due.entry) &&
             StillRunning(db, due.entry)
    ensures var child := Lookup(db, due.entry.childMessageId, due.entry.sessionId).value;
            var v := Decide(db, cfg, now, due.member, due.deadlineMs);
            if now < RenewalCeiling(db, cfg, due, child) then v == Postpone(ChildAlive, false)
            else if Routable(db, due.entry)
            then v.Send? && v.outcome == TimedOut && v.reply.Resume? && v.reply.status == FAILED &&
                 "liveness_error_code" in v.reply.header.metadata &&
                     v.reply.header.metadata["liveness_error_code"] == JText(CHILD_TIMEOUT)
            else v.Postpone? && v.outcome == Unroutable
  {
    hide BaseStatus, DecodeMember, IsTerminal, IsSuspended, RenewalCeiling, Explanation, FailureReplyData,
         CallerAgentType;
    SuspendedIsNotTerminal(BaseStatus(Lookup(db, due.entry.parentMessageId, due.entry.sessionId).value.status));
  }

  /** The same in plain numbers, for one sweep of any store: the wait of a running sub-task is renewed exactly before
      the ceiling and timed out from it on. */
  lemma RunningChildIsRenewedExactly(db: Db, cfg: Config, now: int, due: Due, deadline: int)
    requires DecodeMember(due.member) == Decoded(due.entry) && SomebodyWaits(db, due.entry) &&
             StillRunning(db, due.entry) && Routable(db, due.entry)
    requires Anchored(db, due.member, deadline) && deadline != 0 && due.deadlineMs == db.waits.index[due.member]
    ensures var created := Lookup(db, due.entry.childMessageId, due.entry.sessionId).value.createdAt;
            var v := Decide(db, cfg, now, due.member, due.deadlineMs);
            var more := (cfg.renewMaxMultiple - 1) *
                        (if 0 < created < deadline then deadline - created else 3_600_000);
            if now < deadline + (if more > 300_000 then more else 300_000) then v == Postpone(ChildAlive, false)
            else v.Send? && v.outcome == TimedOut && v.reply.Resume? && v.reply.status == FAILED
  {
    hide Decide, DecodeMember, RenewalCeiling, SomebodyWaits, Routable, Anchored;
    CeilingIs(db, cfg, due, Lookup(db, due.entry.childMessageId, due.entry.sessionId).value, deadline);
    RunningChildIsJudgedByTheCeiling(db, cfg, now, due);
  }

  /** The first sweep at or after the ceiling times the sub-task out: no run renews it again, and a caller that can be
      addressed hears of it. */
  lemma SpentBudgetTimesOut(visits: seq<Visit>, cfg: Config, member: string, entry: Member, deadline: int, created: int,
                            i: nat)
    requires Watched(visits, cfg, member, deadline) && deadline != 0 && i < |visits|
    requires DecodeMember(member) == Decoded(entry) && BornAt(visits, entry, created)
    requires SomebodyWaits(visits[i].db, entry) && StillRunning(visits[i].db, entry) && Routable(visits[i].db, entry)
    ensures var v := VerdictAt(visits[i], cfg, member);
            var more := (cfg.renewMaxMultiple - 1) *
                        (if 0 < created < deadline then deadline - created else 3_600_000);
            if visits[i].now < deadline + (if more > 300_000 then more else 300_000)
            then v == Postpone(ChildAlive, false)
            else v.Send? && v.outcome == TimedOut
  {
    hide Decide, DecodeMember, SomebodyWaits, Routable, After, Anchored;
    AlwaysAnchored(visits, cfg, member, deadline, i);
    RunningChildIsRenewedExactly(visits[i].db, cfg, visits[i].now, Due(member, Score(visits[i], member), entry),
                                 deadline);
  }

  /** The bound is met: sweeps that come exactly when the entry falls due renew a running sub-task while whole
      increments still start inside the grace period, and never after. */
  lemma {:induction false} PromptSweepsRenewExactly(visits: seq<Visit>, cfg: Config, member: string, entry: Member,
                                                    deadline: int, created: int, i: nat)
    requires Watched(visits, cfg, member, deadline) && deadline != 0 && i < |visits|
    requires DecodeMember(member) == Decoded(entry) && BornAt(visits, entry, created)
    requires forall k :: 0 <= k <= i ==> visits[k].now == Score(visits[k], member)
    requires forall k :: 0 <= k <= i ==> SomebodyWaits(visits[k].db, entry) && StillRunning(visits[k].db, entry) &&
                                         Routable(visits[k].db, entry)
    ensures visits[i].now == deadline + i * 300_000
    ensures var more := (cfg.renewMaxMultiple - 1) *
                        (if 0 < created < deadline then deadline - created else 3_600_000);
            VerdictAt(visits[i], cfg, member).outcome == ChildAlive <==>
            i * 300_000 < if more > 300_000 then more else 300_000
  {
    hide VerdictAt, SomebodyWaits, Routable, StillRunning, After, DecodeMember;
    SpentBudgetTimesOut(visits, cfg, member, entry, deadline, created, i);
    if i > 0 {
      PromptSweepsRenewExactly(visits, cfg, member, entry, deadline, created, i - 1);
      SpentBudgetTimesOut(visits, cfg, member, entry, deadline, created, i - 1);
      assert Follows(visits, cfg, member, i - 1);
      EveryLookPostpones(visits[i - 1], cfg, member);
    }
  }

  /** And this is how often: for as many visits as there are, until the budget is spent. */
  lemma {:induction false} PromptSweepsRenewThisOften(visits: seq<Visit>, cfg: Config, member: string, entry: Member,
                                                      deadline: int, created: int)
    requires Watched(visits, cfg, member, deadline) && deadline != 0
    requires DecodeMember(member) == Decoded(entry) && BornAt(visits, entry, created)
    requires forall k :: 0 <= k < |visits| ==> visits[k].now == Score(visits[k], member)
    requires forall k :: 0 <= k < |visits| ==> SomebodyWaits(visits[k].db, entry) &&
                                               StillRunning(visits[k].db, entry) &&
                                               Routable(visits[k].db, entry)
    ensures var more := (cfg.renewMaxMultiple - 1) *
                        (if 0 < created < deadline then deadline - created else 3_600_000);
            var renewals := Renewals(visits, cfg, member);
            && (renewals == |visits| || renewals * 300_000 >= if more > 300_000 then more else 300_000)
            && (renewals == 0 || (renewals - 1) * 300_000 < if more > 300_000 then more else 300_000)
            && renewals <= |visits|
  {
    hide Watched, BornAt, VerdictAt, SomebodyWaits, StillRunning, Routable, DecodeMember;
    WatchedIsThere(visits, cfg, member, deadline);
    if visits != [] {
      var n := |visits| - 1;
      assert forall k :: 0 <= k < n ==> visits[..n][k] == visits[k];
      EarlierVisits(visits, cfg, member, entry, deadline, created);
      PromptSweepsRenewThisOften(visits[..n], cfg, member, entry, deadline, created);
      PromptSweepsRenewExactly(visits, cfg, member, entry, deadline, created, n);
    }
  }

  lemma EveryLookPostpones(v: Visit, cfg: Config, member: string)
    requires IsDue(v.db.waits.index, v.now, member)
    requires VerdictAt(v, cfg, member).Postpone? || VerdictAt(v, cfg, member).Send?
    ensures member in After(v, cfg, member).waits.index &&
            After(v, cfg, member).waits.index[member] == v.now + RENEW_INCREMENT_MS
    ensures member in After(v, cfg, member).origins
  {
    EffectIs(v.db, cfg, v.now, member, Score(v, member));
    hide Decide, ResolveEntry;
  }

  /** A deadline of zero is the one the record cannot hold: once the entry has been postponed, the recorded deadline is
      read back exactly when it is not zero. */
  lemma ZeroDeadlineIsForgotten(visits: seq<Visit>, cfg: Config, member: string, deadline: int, i: nat)
    requires Watched(visits, cfg, member, deadline) && 1 <= i < |visits|
    requires VerdictAt(visits[i - 1], cfg, member).Postpone? || VerdictAt(visits[i - 1], cfg, member).Send?
    ensures RenewalOrigin(visits[i].db, member, Score(visits[i], member)) == deadline <==> deadline != 0
  {
    hide After, VerdictAt;
    AlwaysAnchored(visits, cfg, member, deadline, i);
    assert Follows(visits, cfg, member, i - 1);
    EveryLookPostpones(visits[i - 1], cfg, member);
  }

  /** With a deadline of zero the budget restarts at every sweep: once the entry has been postponed, each later sweep
      measures the ceiling from the score it finds, so a running sub-task is renewed by every sweep that comes before a
      whole grace period has passed since the entry fell due, however often it was renewed before. */
  lemma ZeroDeadlineRestartsTheBudget(visits: seq<Visit>, cfg: Config, member: string, entry: Member, created: int,
                                      i: nat)
    requires Watched(visits, cfg, member, 0) && 1 <= i < |visits|
    requires DecodeMember(member) == Decoded(entry) && BornAt(visits, entry, created)
    requires VerdictAt(visits[i - 1], cfg, member).Postpone? || VerdictAt(visits[i - 1], cfg, member).Send?
    requires SomebodyWaits(visits[i].db, entry) && StillRunning(visits[i].db, entry)
    ensures var score := Score(visits[i], member);
            var more := (cfg.renewMaxMultiple - 1) * (if 0 < created < score then score - created else 3_600_000);
            VerdictAt(visits[i], cfg, member) == Postpone(ChildAlive, false) <==>
            visits[i].now < score + if more > 300_000 then more else 300_000
  {
    hide Decide, DecodeMember, SomebodyWaits, After, IsSuspended, IsTerminal, BaseStatus, Routable;
    AlwaysAnchored(visits, cfg, member, 0, i);
    assert Follows(visits, cfg, member, i - 1);
    EveryLookPostpones(visits[i - 1], cfg, member);
    RunningChildIsJudgedByTheCeiling(visits[i].db, cfg, visits[i].now, Due(member, Score(visits[i], member), entry));
  }
}
