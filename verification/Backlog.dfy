/** How fast a backlog of due entries is worked off, pass after pass (`src/liveness/wait_sweeper.ts`): every pass
    examines the first entries of the shard, and everything it handles leaves the front, except waits on the user. */
module Backlog {
  import opened Protocol
  import opened WaitIndex
  import opened WaitGate
  import opened Store
  import opened Sweeper
  import GateHistory

  type Index = map<string, int>

  /** The due entries a pass takes before `e`. */
  ghost function Ahead(index: Index, e: string): set<string>
    requires e in index
  {
    set m | m in index && m != e && 0 <= index[m] && Before(index, m, e)
  }

  /** A wait on the user, which a sweep of a suspended caller leaves where it is. */
  predicate AsksUser(m: string) {
    DecodeMember(m).Decoded? && DecodeMember(m).member.childMessageId == ""
  }

  ghost function AskUserAhead(index: Index, e: string): set<string>
    requires e in index
  {
    set m | m in Ahead(index, e) && AsksUser(m)
  }

  ghost function OthersAhead(index: Index, e: string): set<string>
    requires e in index
  {
    set m | m in Ahead(index, e) && !AsksUser(m)
  }

  // ----- one pass -----

  lemma BatchIsDistinct(index: Index, now: int, limit: nat, batch: seq<string>)
    requires IsBatch(index, now, limit, batch)
    ensures forall i, j :: 0 <= i < j < |batch| ==> batch[i] != batch[j]
    ensures |Elements(batch)| == |batch|
  {
    hide Before;
    forall i, j | 0 <= i < j < |batch| ensures batch[i] != batch[j] {
      assert IsDue(index, now, batch[i]);
      BeforeIrreflexive(index, batch[i]);
    }
    DistinctCount(batch);
  }

  /** A due entry is examined by a pass exactly when fewer due entries than the batch limit are ahead of it. */
  lemma ExaminedExactlyWhenNear(index: Index, now: int, limit: nat, batch: seq<string>, e: string)
    requires IsBatch(index, now, limit, batch) && IsDue(index, now, e)
    ensures e in batch <==> |Ahead(index, e)| < limit
    ensures e !in batch ==> |batch| == limit && Elements(batch) <= Ahead(index, e)
  {
    BatchIsDistinct(index, now, limit, batch);
    if e in batch {
      var k :| 0 <= k < |batch| && batch[k] == e;
      forall m | m in Ahead(index, e) ensures m in Elements(batch) - {e} {
        AheadOfTheBatch(index, now, limit, batch, k, m);
      }
      SubsetSize(Ahead(index, e), Elements(batch) - {e});
    } else {
      forall m | m in Elements(batch) ensures m in Ahead(index, e) {
        var k :| 0 <= k < |batch| && batch[k] == m;
        assert IsDue(index, now, batch[k]);
      }
      SubsetSize(Elements(batch), Ahead(index, e));
    }
  }

  lemma AheadOfTheBatch(index: Index, now: int, limit: nat, batch: seq<string>, k: nat, m: string)
    requires IsBatch(index, now, limit, batch) && k < |batch|
    requires m in index && 0 <= index[m] && Before(index, m, batch[k])
    ensures m in batch
  {
    assert IsDue(index, now, batch[k]);
    if m !in batch {
      assert IsDue(index, now, m);
      BeforeTransitive(index, m, batch[k], m);
      BeforeIrreflexive(index, m);
    }
  }

  /** What examining a whole batch does to the index: nothing outside it, and every member of it that does not wait on
      the user is gone or due later than it was examined. */
  lemma {:induction false} PassMovesItsBatch(db: Db, cfg: Config, clock: nat -> int, batch: seq<string>, scores: Index)
    requires forall m :: m in batch ==> m in scores && m in db.waits.index && scores[m] == db.waits.index[m]
    requires forall i, j :: 0 <= i < j < |batch| ==> batch[i] != batch[j]
    ensures var after := ResolveAll(db, cfg, clock, batch, scores).waits.index;
            && (forall m :: m !in batch ==> (m in after <==> m in db.waits.index) &&
                                            (m in after ==> after[m] == db.waits.index[m]))
            && (forall i :: 0 <= i < |batch| && batch[i] in after ==>
                  after[batch[i]] == clock(i) + RENEW_INCREMENT_MS ||
                      (AsksUser(batch[i]) && after[batch[i]] == db.waits.index[batch[i]]))
  {
    hide ResolveEntry, AsksUser;
    if batch != [] {
      var n := |batch| - 1;
      var m := batch[n];
      PassMovesItsBatch(db, cfg, clock, batch[..n], scores);
      assert m !in batch[..n];
      var before := ResolveAll(db, cfg, clock, batch[..n], scores);
      OneLook(before, cfg, clock(n), m, scores[m]);
      assert batch == batch[..n] + [m];
      assert forall i :: 0 <= i < n ==> batch[..n][i] == batch[i];
    }
  }

  lemma OneLook(db: Db, cfg: Config, now: int, member: string, score: int)
    requires member in db.waits.index && db.waits.index[member] == score
    ensures var after := ResolveEntry(db, cfg, now, member, score).waits.index;
            && (member in after ==> after[member] == now + RENEW_INCREMENT_MS ||
                                    (AsksUser(member) && after[member] == score))
            && (forall m :: m != member ==> (m in after <==> m in db.waits.index) &&
                                            (m in after ==> after[m] == db.waits.index[m]))
  {
    OnlyAskUserIsLeft(db, cfg, now, member, score);
    EffectIs(db, cfg, now, member, score);
    hide Decide, AsksUser, ResolveEntry;
  }

  lemma OnlyAskUserIsLeft(db: Db, cfg: Config, now: int, member: string, score: int)
    ensures Decide(db, cfg, now, member, score).Leave? ==> AsksUser(member)
  {
    hide StandIn, FailureAnswer, Recovery, RenewalCeiling, BaseStatus, DecodeMember, CallerAgentType, IsTerminal,
         IsSuspended;
  }

  // ----- runs of passes -----

  /** A pass that won the shard: the store it starts from, its clock, its batch, and what else happens to the index
      before the next one. */
  datatype Pass = Pass(db: Db, now: int, clock: nat -> int, batch: seq<string>, between: seq<GateHistory.Event>)

  function Settled(p: Pass, cfg: Config): Db
    requires forall m :: m in p.batch ==> m in p.db.waits.index
  {
    ResolveAll(p.db, cfg, p.clock, p.batch, p.db.waits.index)
  }

  /** What the rest of the system does to the index between two passes over the shard: waits are registered with
      positive timeouts, claimed, dropped or pruned; nobody but a sweep postpones. `e` itself stays as it is. */
  ghost predicate Ordinary(w: Waits, event: GateHistory.Event, now: int, e: string) {
    match event
    case Register(wait, timeoutMs, at) => EncodeMember(wait) != e && timeoutMs > 0 && at >= now
    case Reply(h) => e in w.index ==> e in Gate(w, h).0.index
    case Remove(m) => m != e
    case Postpone(_, _) => false
  }

  function Moved(w: Waits, events: seq<GateHistory.Event>): Waits {
    if events == [] then w else GateHistory.After(Moved(w, events[..|events| - 1]), events[|events| - 1])
  }

  ghost predicate AllOrdinary(w: Waits, events: seq<GateHistory.Event>, now: int, e: string) {
    events == [] || (AllOrdinary(w, events[..|events| - 1], now, e) &&
                     Ordinary(Moved(w, events[..|events| - 1]), events[|events| - 1], now, e))
  }

  ghost predicate ProperPass(p: Pass) {
    && IsBatch(p.db.waits.index, p.now, SWEEP_BATCH_LIMIT, p.batch)
    && (forall m :: m in p.batch ==> m in p.db.waits.index)
    && forall i :: p.clock(i) >= p.now
  }

  ghost predicate Linked(p: Pass, q: Pass, cfg: Config, e: string)
    requires ProperPass(p)
  {
    && AllOrdinary(Settled(p, cfg).waits, p.between, p.now, e)
    && q.db.waits == Moved(Settled(p, cfg).waits, p.between) && p.now <= q.now
  }

  ghost predicate ProperRun(passes: seq<Pass>, cfg: Config, e: string) {
    && (forall k :: 0 <= k < |passes| ==> ProperPass(passes[k]))
    && (forall k, l :: 0 <= k && l == k + 1 && l < |passes| ==> Linked(passes[k], passes[l], cfg, e))
  }

  /** Between passes nothing comes ahead of a due entry. */
  lemma {:induction false} NothingOvertakes(w: Waits, events: seq<GateHistory.Event>, now: int, e: string)
    requires AllOrdinary(w, events, now, e) && IsDue(w.index, now, e)
    ensures var after := Moved(w, events).index;
            e in after && after[e] == w.index[e] && Ahead(after, e) <= Ahead(w.index, e)
  {
    if events != [] {
      var n := |events| - 1;
      NothingOvertakes(w, events[..n], now, e);
      NothingOvertakesInOneStep(Moved(w, events[..n]), events[n], now, e);
    }
  }

  lemma NothingOvertakesInOneStep(w: Waits, event: GateHistory.Event, now: int, e: string)
    requires Ordinary(w, event, now, e) && IsDue(w.index, now, e)
    ensures var after := GateHistory.After(w, event).index;
            e in after && after[e] == w.index[e] && Ahead(after, e) <= Ahead(w.index, e)
  {
    hide EncodeMember, Gate;
    match event
    case Register(_, _, _) =>
    case Reply(h) =>
      GateOnlyClaims(w, h);
    case Remove(_) =>
    case Postpone(_, _) =>
  }

  lemma GateOnlyClaims(w: Waits, h: Header)
    ensures forall m :: m in Gate(w, h).0.index ==> m in w.index && Gate(w, h).0.index[m] == w.index[m]
  {
    hide EncodeMember, Gate;
    GateCases(w, h);
  }

  /** A pass that does not reach a due entry leaves it in place and shrinks what is ahead of it by at least the part of
      its batch that does not wait on the user. */
  lemma PassShrinksTheBacklog(p: Pass, cfg: Config, e: string)
    requires ProperPass(p) && IsDue(p.db.waits.index, p.now, e) && e !in p.batch
    ensures var before, after := p.db.waits.index, Settled(p, cfg).waits.index;
            && e in after && after[e] == before[e]
            && AskUserAhead(after, e) <= AskUserAhead(before, e) && OthersAhead(after, e) <= OthersAhead(before, e)
            && |OthersAhead(after, e)| <= |OthersAhead(before, e)| - (SWEEP_BATCH_LIMIT - |AskUserAhead(before, e)|)
  {
    hide AsksUser, ResolveAll, IsBatch, Before;
    var before, after := p.db.waits.index, Settled(p, cfg).waits.index;
    BatchIsDistinct(before, p.now, SWEEP_BATCH_LIMIT, p.batch);
    ExaminedExactlyWhenNear(before, p.now, SWEEP_BATCH_LIMIT, p.batch, e);
    PassMovesItsBatch(p.db, cfg, p.clock, p.batch, before);
    var taken := Elements(p.batch);
    forall m | m in Ahead(after, e) ensures m in Ahead(before, e) && (m in taken ==> AsksUser(m)) {
      StaysAhead(p, cfg, e, m);
    }
    var handled := taken * OthersAhead(before, e);
    assert taken <= handled + AskUserAhead(before, e);
    SubsetSize(taken, handled + AskUserAhead(before, e));
    assert |handled + AskUserAhead(before, e)| <= |handled| + |AskUserAhead(before, e)|;
    assert OthersAhead(after, e) <= OthersAhead(before, e) - handled;
    SubsetSize(OthersAhead(after, e), OthersAhead(before, e) - handled);
    assert |OthersAhead(before, e) - handled| == |OthersAhead(before, e)| - |handled|;
  }

  lemma StaysAhead(p: Pass, cfg: Config, e: string, m: string)
    requires ProperPass(p) && IsDue(p.db.waits.index, p.now, e) && e !in p.batch
    requires e in Settled(p, cfg).waits.index && m in Ahead(Settled(p, cfg).waits.index, e)
    ensures m in Ahead(p.db.waits.index, e)
    ensures m in p.batch ==> AsksUser(m)
  {
    hide AsksUser, ResolveAll, IsBatch;
    BatchIsDistinct(p.db.waits.index, p.now, SWEEP_BATCH_LIMIT, p.batch);
    PassMovesItsBatch(p.db, cfg, p.clock, p.batch, p.db.waits.index);
    if m in p.batch {
      var i :| 0 <= i < |p.batch| && p.batch[i] == m;
      assert p.clock(i) >= p.now;
    }
  }

  /** After `n` passes that did not reach it, the entry is still due and at most so many others are ahead of it. */
  lemma {:induction false} BacklogAfter(passes: seq<Pass>, cfg: Config, e: string, n: nat)
    requires ProperRun(passes, cfg, e) && n < |passes| && IsDue(passes[0].db.waits.index, passes[0].now, e)
    requires forall k :: 0 <= k < n ==> e !in passes[k].batch
    ensures var first, here := passes[0].db.waits.index, passes[n].db.waits.index;
            && IsDue(here, passes[n].now, e) && AskUserAhead(here, e) <= AskUserAhead(first, e)
            && |OthersAhead(here, e)| <= |OthersAhead(first, e)| - n * (SWEEP_BATCH_LIMIT - |AskUserAhead(first, e)|)
  {
    hide AsksUser, ResolveAll, IsBatch, Before, AllOrdinary, Moved;
    if n > 0 {
      BacklogAfter(passes, cfg, e, n - 1);
      var p, q := passes[n - 1], passes[n];
      assert Linked(p, q, cfg, e);
      PassShrinksTheBacklog(p, cfg, e);
      var settled := Settled(p, cfg);
      NothingOvertakes(settled.waits, p.between, p.now, e);
      assert OthersAhead(q.db.waits.index, e) <= OthersAhead(settled.waits.index, e);
      SubsetSize(OthersAhead(q.db.waits.index, e), OthersAhead(settled.waits.index, e));
      SubsetSize(AskUserAhead(p.db.waits.index, e), AskUserAhead(passes[0].db.waits.index, e));
    }
  }

  /** Backlog progress: a due entry with `r` due entries ahead of it, fewer than a batch of them waiting on the user, is
      examined within one pass more than the others ahead fill what those leave of a batch. */
  lemma ExaminedInTime(passes: seq<Pass>, cfg: Config, e: string)
    requires passes != [] && ProperRun(passes, cfg, e) && IsDue(passes[0].db.waits.index, passes[0].now, e)
    requires var a, r := |AskUserAhead(passes[0].db.waits.index, e)|, |Ahead(passes[0].db.waits.index, e)|;
             a < SWEEP_BATCH_LIMIT && |passes| == (r - a) / (SWEEP_BATCH_LIMIT - a) + 1
    ensures exists k :: 0 <= k < |passes| && e in passes[k].batch
  {
    hide AsksUser, ResolveAll, Before, ProperRun;
    var first := passes[0].db.waits.index;
    var a, others, n := |AskUserAhead(first, e)|, |OthersAhead(first, e)|, |passes| - 1;
    assert Ahead(first, e) == AskUserAhead(first, e) + OthersAhead(first, e);
    assert |Ahead(first, e)| == a + others;
    if forall k :: 0 <= k < |passes| ==> e !in passes[k].batch {
      BacklogAfter(passes, cfg, e, n);
      StillTooFar(passes, cfg, e, n);
      SubsetSize(AskUserAhead(passes[n].db.waits.index, e), AskUserAhead(first, e));
      assert |OthersAhead(passes[n].db.waits.index, e)| >= SWEEP_BATCH_LIMIT - a;
      Division(others, SWEEP_BATCH_LIMIT - a, n);
    }
  }

  lemma StillTooFar(passes: seq<Pass>, cfg: Config, e: string, n: nat)
    requires ProperRun(passes, cfg, e) && n < |passes| && IsDue(passes[n].db.waits.index, passes[n].now, e) &&
             e !in passes[n].batch
    ensures var here := passes[n].db.waits.index;
            |OthersAhead(here, e)| + |AskUserAhead(here, e)| >= SWEEP_BATCH_LIMIT
  {
    hide AsksUser, ResolveAll, IsBatch, Before, Linked;
    var here := passes[n].db.waits.index;
    assert ProperPass(passes[n]);
    ExaminedExactlyWhenNear(here, passes[n].now, SWEEP_BATCH_LIMIT, passes[n].batch, e);
    assert Ahead(here, e) == AskUserAhead(here, e) + OthersAhead(here, e);
    assert |Ahead(here, e)| == |AskUserAhead(here, e)| + |OthersAhead(here, e)|;
  }

  lemma Division(x: int, d: int, n: int)
    requires d > 0 && n == x / d
    ensures x - n * d < d
  {
  }

  // ----- starvation -----

  /** A live wait on the user: a sweep skips it however late it is. */
  ghost predicate Skipped(db: Db, m: string) {
    && AsksUser(m)
    && var entry := DecodeMember(m).member;
       var caller := Lookup(db, entry.parentMessageId, entry.sessionId);
       caller.Some? && IsSuspended(BaseStatus(caller.value.status))
  }

  lemma SkippedIsLeft(db: Db, cfg: Config, now: int, m: string, score: int)
    requires Skipped(db, m)
    ensures Decide(db, cfg, now, m, score) == Leave(AskUserSkipped)
    ensures ResolveEntry(db, cfg, now, m, score) == db
  {
    hide BaseStatus, DecodeMember, IsSuspended, IsTerminal;
    SuspendedIsNotTerminal(BaseStatus(Lookup(db, DecodeMember(m).member.parentMessageId,
                                             DecodeMember(m).member.sessionId).value.status));
  }

  lemma {:induction false} SkippedStays(db: Db, cfg: Config, clock: nat -> int, batch: seq<string>, scores: Index,
                                        m: string)
    requires forall x :: x in batch ==> x in scores
    requires Skipped(db, m) && m in db.waits.index
    ensures var after := ResolveAll(db, cfg, clock, batch, scores);
            after.records == db.records && m in after.waits.index && after.waits.index[m] == db.waits.index[m]
  {
    hide ResolveEntry, AsksUser, BaseStatus, IsSuspended, DecodeMember;
    if batch != [] {
      var n := |batch| - 1;
      SkippedStays(db, cfg, clock, batch[..n], scores, m);
      var before := ResolveAll(db, cfg, clock, batch[..n], scores);
      assert Skipped(before, m);
      SweepFrame(before, cfg, clock(n), batch[n], scores[batch[n]]);
      if batch[n] == m {
        SkippedIsLeft(before, cfg, clock(n), m, scores[m]);
      } else {
        var after := ResolveEntry(before, cfg, clock(n), batch[n], scores[batch[n]]);
        assert m in before.waits.index - {batch[n]};
        assert (after.waits.index - {batch[n]})[m] == (before.waits.index - {batch[n]})[m];
      }
    }
  }

  /** Between the passes, `e` and the members of `a` keep their entries. */
  ghost predicate Kept(p: Pass, q: Pass, cfg: Config, m: string)
    requires ProperPass(p)
  {
    m in Settled(p, cfg).waits.index ==> m in q.db.waits.index && q.db.waits.index[m] == Settled(p, cfg).waits.index[m]
  }

  /** The bound needs its condition: while a whole batch of unanswered waits on the user stays ahead of an entry, no
      pass ever examines it. */
  lemma {:induction false} AskUserWaitsStarve(passes: seq<Pass>, cfg: Config, e: string, a: set<string>, n: nat)
    requires ProperRun(passes, cfg, e) && n < |passes| && IsDue(passes[0].db.waits.index, passes[0].now, e)
    requires |a| >= SWEEP_BATCH_LIMIT && a <= AskUserAhead(passes[0].db.waits.index, e)
    requires forall k, m :: 0 <= k < |passes| && m in a ==> Skipped(passes[k].db, m)
    requires forall k, l, m :: 0 <= k && l == k + 1 && l < |passes| && m in a ==> Kept(passes[k], passes[l], cfg, m)
    ensures IsDue(passes[n].db.waits.index, passes[n].now, e) && a <= Ahead(passes[n].db.waits.index, e)
    ensures e !in passes[n].batch
  {
    hide AsksUser, ResolveAll, IsBatch, Before, AllOrdinary, Moved, Skipped, Linked;
    assert ProperPass(passes[n]);
    if n > 0 {
      AskUserWaitsStarve(passes, cfg, e, a, n - 1);
      StarvedOnceMore(passes[n - 1], passes[n], cfg, e, a);
    }
    SubsetSize(a, Ahead(passes[n].db.waits.index, e));
    ExaminedExactlyWhenNear(passes[n].db.waits.index, passes[n].now, SWEEP_BATCH_LIMIT, passes[n].batch, e);
  }

  lemma StarvedOnceMore(p: Pass, q: Pass, cfg: Config, e: string, a: set<string>)
    requires ProperPass(p) && ProperPass(q) && Linked(p, q, cfg, e)
    requires IsDue(p.db.waits.index, p.now, e) && a <= Ahead(p.db.waits.index, e) && e !in p.batch
    requires forall m :: m in a ==> Skipped(p.db, m) && Kept(p, q, cfg, m)
    ensures IsDue(q.db.waits.index, q.now, e) && a <= Ahead(q.db.waits.index, e)
  {
    hide AsksUser, ResolveAll, IsBatch, AllOrdinary, Moved, Skipped;
    PassShrinksTheBacklog(p, cfg, e);
    NothingOvertakes(Settled(p, cfg).waits, p.between, p.now, e);
    forall m | m in a ensures m in Ahead(q.db.waits.index, e) {
      SkippedStays(p.db, cfg, p.clock, p.batch, p.db.waits.index, m);
      assert Kept(p, q, cfg, m);
    }
  }
}
