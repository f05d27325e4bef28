/** The runner's health machine (`src/runner.ts`): three signals folded, check by check, into normal, degraded or
    fatal. */
module Health {
  const LOOP_LAG_UNHEALTHY_MS := 5000
  const DEGRADED_RECOVERY_CHECKS := 3
  const DEGRADED_MAX_MS := 120_000

  datatype HealthState = Normal | Degraded | Fatal

  datatype State = State(health: HealthState, degradedSince: int, healthyStreak: nat)

  /** `Fenced` is the heartbeat's report that another process owns this worker id. */
  datatype Event = Check(healthy: bool, now: int) | Fenced

  const INITIAL := State(Normal, 0, 0)

  function Evaluated(s: State, healthy: bool, now: int): State {
    if s.health.Fatal? then s
    else if healthy then
      if s.health.Normal? then s
      else if s.healthyStreak + 1 >= DEGRADED_RECOVERY_CHECKS then INITIAL
      else s.(healthyStreak := s.healthyStreak + 1)
    else if s.health.Normal? then State(Degraded, now, 0)
    else if now - s.degradedSince >= DEGRADED_MAX_MS then State(Fatal, s.degradedSince, 0)
    else s.(healthyStreak := 0)
  }

  function Step(s: State, e: Event): State {
    match e
    case Check(healthy, now) => Evaluated(s, healthy, now)
    case Fenced => s.(health := Fatal)
  }

  function After(h: seq<Event>): State {
    if h == [] then INITIAL else Step(After(h[..|h| - 1]), h[|h| - 1])
  }

  // ----- the same, told from the whole history -----

  predicate Bad(h: seq<Event>, i: int) {
    0 <= i < |h| && h[i].Check? && !h[i].healthy
  }

  /** One of the last three of the first `n` checks was unhealthy. */
  predicate Recent(h: seq<Event>, n: int) {
    Bad(h, n - 1) || Bad(h, n - 2) || Bad(h, n - 3)
  }

  /** A spell starts at check `s` and still lasts after the first `n`. */
  ghost predicate Spell(h: seq<Event>, s: int, n: int) {
    0 <= s < n && Bad(h, s) && !Recent(h, s) && forall t :: s < t <= n ==> Recent(h, t)
  }

  function Time(h: seq<Event>, i: int): int {
    if 0 <= i < |h| && h[i].Check? then h[i].now else 0
  }

  /** An unhealthy check that comes too long after the start of its spell. */
  ghost predicate Escalates(h: seq<Event>, i: int) {
    Bad(h, i) && exists s :: Spell(h, s, i) && Time(h, i) - Time(h, s) >= DEGRADED_MAX_MS
  }

  ghost predicate EndsFatally(h: seq<Event>) {
    exists i :: 0 <= i < |h| && (h[i].Fenced? || Escalates(h, i))
  }

  /** The state a history prescribes while nothing has been fatal. */
  ghost predicate Prescribed(h: seq<Event>, s: State) {
    && s.health == (if Recent(h, |h|) then Degraded else Normal)
    && (s.health.Normal? ==> s == INITIAL)
    && (s.health.Degraded? ==>
          && (exists start :: Spell(h, start, |h|) && s.degradedSince == Time(h, start))
          && s.healthyStreak < DEGRADED_RECOVERY_CHECKS && Bad(h, |h| - 1 - s.healthyStreak)
          && forall j :: |h| - 1 - s.healthyStreak < j < |h| ==> !Bad(h, j))
  }

  /** Longer histories tell the same of their beginnings. */
  lemma PrefixAgrees(h: seq<Event>, e: Event)
    ensures forall i :: i < |h| ==> (Bad(h + [e], i) <==> Bad(h, i)) && Time(h + [e], i) == Time(h, i)
    ensures forall n :: n <= |h| ==> (Recent(h + [e], n) <==> Recent(h, n))
    ensures forall s, n :: n <= |h| ==> (Spell(h + [e], s, n) <==> Spell(h, s, n))
    ensures forall i :: i < |h| ==> (Escalates(h + [e], i) <==> Escalates(h, i))
  {
    var g := h + [e];
    assert forall i :: 0 <= i < |h| ==> g[i] == h[i];
    assert forall n :: n <= |h| ==> (Recent(g, n) <==> Recent(h, n));
    hide Bad, Recent;
    forall s, n | n <= |h| ensures Spell(g, s, n) <==> Spell(h, s, n) {
      forall t | s < t <= n ensures Recent(g, t) <==> Recent(h, t) {
      }
      assert s < |h| ==> (Bad(g, s) <==> Bad(h, s)) && (Recent(g, s) <==> Recent(h, s));
    }
    forall i | i < |h| ensures Escalates(g, i) <==> Escalates(h, i) {
    }
  }

  /** There is at most one spell at a time. */
  lemma OneSpell(h: seq<Event>, a: int, b: int, n: int)
    requires Spell(h, a, n) && Spell(h, b, n)
    ensures a == b
  {
    assert a < b ==> Recent(h, b);
    assert b < a ==> Recent(h, a);
  }

  lemma FatalitySpreads(h: seq<Event>, e: Event)
    ensures EndsFatally(h + [e]) <==> EndsFatally(h) || e.Fenced? || Escalates(h + [e], |h|)
  {
    PrefixAgrees(h, e);
    hide Escalates;
    var g := h + [e];
    assert g[|h|] == e && forall i :: 0 <= i < |h| ==> g[i] == h[i];
    if EndsFatally(h) {
      var i :| 0 <= i < |h| && (h[i].Fenced? || Escalates(h, i));
      assert g[i].Fenced? || Escalates(g, i);
    }
    if EndsFatally(g) {
      var i :| 0 <= i < |g| && (g[i].Fenced? || Escalates(g, i));
      assert i < |h| ==> h[i].Fenced? || Escalates(h, i);
    }
  }

  /** The next check of a history that has not been fatal. */
  lemma CheckFollowsHistory(h: seq<Event>, s: State, healthy: bool, now: int)
    requires Prescribed(h, s)
    ensures var g := h + [Check(healthy, now)];
            var s' := Evaluated(s, healthy, now);
            if Escalates(g, |h|) then s'.health.Fatal? else Prescribed(g, s')
  {
    var e := Check(healthy, now);
    var g := h + [e];
    PrefixAgrees(h, e);
    assert g[|h|] == e;
    assert Bad(g, |h|) <==> !healthy;
    hide Bad, Recent;
    assert Recent(g, |g|) <==> !healthy || Bad(h, |h| - 1) || Bad(h, |h| - 2) by {
      RecentIs(g, |g|);
    }
    RecentIs(h, |h|);
    if s.health.Degraded? {
      var start :| Spell(h, start, |h|) && s.degradedSince == Time(h, start);
      forall other | Spell(g, other, |h|) ensures other == start {
        OneSpell(h, start, other, |h|);
      }
      assert Spell(g, start, |h|);
      if Recent(g, |g|) {
        assert Spell(g, start, |g|);
      }
    } else if !healthy {
      forall other ensures !Spell(g, other, |h|) {
      }
      assert Spell(g, |h|, |g|) by {
        RecentIs(g, |h|);
      }
      assert Time(g, |h|) == now;
    }
  }

  lemma RecentIs(h: seq<Event>, n: int)
    ensures Recent(h, n) <==> Bad(h, n - 1) || Bad(h, n - 2) || Bad(h, n - 3)
  {
  }

  /** Over every history the stored state is what the history prescribes: fatal exactly when it was fenced or some
      unhealthy check came 120 seconds or more into its spell; otherwise degraded exactly while one of the last three
      checks was unhealthy, since the check that started the spell. */
  lemma {:induction false} StateFollowsHistory(h: seq<Event>)
    ensures After(h).health.Fatal? <==> EndsFatally(h)
    ensures !After(h).health.Fatal? ==> Prescribed(h, After(h))
  {
    if h != [] {
      var n := |h| - 1;
      var before, e := h[..n], h[n];
      assert h == before + [e];
      StateFollowsHistory(before);
      FatalitySpreads(before, e);
      hide Escalates, EndsFatally, Prescribed;
      match e
      case Fenced =>
      case Check(healthy, now) =>
        if !After(before).health.Fatal? {
          CheckFollowsHistory(before, After(before), healthy, now);
          PrescribedIsNotFatal(h, After(h));
        }
    }
  }

  lemma PrescribedIsNotFatal(h: seq<Event>, s: State)
    ensures Prescribed(h, s) ==> !s.health.Fatal?
  {
  }

  /** Fatal is for good. */
  lemma {:induction false} FatalIsAbsorbing(h: seq<Event>, more: seq<Event>)
    requires After(h).health.Fatal?
    ensures After(h + more).health.Fatal?
  {
    if more == [] {
      assert h + more == h;
    } else {
      var n := |more| - 1;
      FatalIsAbsorbing(h, more[..n]);
      assert (h + more)[..|h + more| - 1] == h + more[..n];
    }
  }

  /** A spell starts at an unhealthy check, and ends, short of the worst, only with three healthy checks in a row. */
  lemma SpellsStartAndEnd(h: seq<Event>, e: Event)
    ensures After(h).health.Normal? && After(h + [e]).health.Degraded? ==>
            e.Check? && !e.healthy && After(h + [e]).degradedSince == e.now
    ensures After(h).health.Degraded? && After(h + [e]).health.Normal? ==>
              && |h| >= 2 && e.Check? && e.healthy && h[|h| - 1].Check? && h[|h| - 1].healthy && h[|h| - 2].Check? &&
                  h[|h| - 2].healthy
    ensures !After(h).health.Fatal? && After(h + [e]).health.Fatal? ==> e.Fenced? || !e.healthy
  {
    assert (h + [e])[..|h|] == h;
    StateFollowsHistory(h);
    StateFollowsHistory(h + [e]);
    if After(h).health.Degraded? && After(h + [e]).health.Normal? {
      assert e.Check? && !Recent(h + [e], |h| + 1) && !Bad(h + [e], |h|) && !Bad(h + [e], |h| - 1) &&
             !Bad(h + [e], |h| - 2);
      ChecksOnly(h);
    }
  }

  /** A history that has not been fatal consists of checks. */
  lemma ChecksOnly(h: seq<Event>)
    requires !After(h).health.Fatal?
    ensures forall i :: 0 <= i < |h| ==> h[i].Check?
  {
    hide Escalates;
    StateFollowsHistory(h);
  }

  /** A runner that stays unhealthy is fatal two minutes later at the latest, whatever came before. */
  lemma StuckRunnerGoesFatal(h: seq<Event>, s: nat)
    requires s < |h| && forall i :: s <= i < |h| ==> Bad(h, i)
    requires forall i, j :: 0 <= i <= j < |h| ==> Time(h, i) <= Time(h, j)
    requires Time(h, |h| - 1) - Time(h, s) >= 120_000
    ensures After(h).health.Fatal?
  {
    var n := |h| - 1;
    var before := h[..s];
    StateFollowsHistory(h);
    StateFollowsHistory(before);
    if After(before).health.Fatal? {
      FatalIsAbsorbing(before, h[s..]);
      assert before + h[s..] == h;
    } else {
      hide After;
      assert forall i :: i < s ==> (Bad(before, i) <==> Bad(h, i));
      var start := s;
      if Recent(before, s) {
        start :| Spell(before, start, s);
      }
      assert Bad(h, start) && !Recent(h, start);
      forall t | start < t <= n ensures Recent(h, t) {
        assert t > s ==> Bad(h, t - 1);
        assert t <= s ==> Recent(before, t);
      }
      assert Spell(h, start, n) && Escalates(h, n);
    }
  }

  // ----- the runner -----

  /** Staleness is four fifths of the lease, compared without fractions. */
  predicate RenewalStale(lastRenewOkAt: int, leaseTtlSeconds: nat, now: int) {
    lastRenewOkAt != 0 && 5 * (now - lastRenewOkAt) > 4 * (leaseTtlSeconds * 1000)
  }

  predicate ConsumerStalled(lastConsumerTick: int, timeoutMs: int, now: int, inFlight: nat, maxConcurrency: nat) {
    lastConsumerTick != 0 && now - lastConsumerTick >= timeoutMs && inFlight < maxConcurrency
  }

  /** A stale renewal and a stalled consumer stay what they are until the next renewal or tick, and the renewal is stale
      from the first moment beyond four fifths of the lease on. */
  lemma SignalsLast(lastRenewOkAt: int, leaseTtlSeconds: nat, lastConsumerTick: int, timeoutMs: int, now: int,
                    later: int,
                    inFlight: nat, maxConcurrency: nat)
    requires now <= later
    ensures RenewalStale(lastRenewOkAt, leaseTtlSeconds, now) ==> RenewalStale(lastRenewOkAt, leaseTtlSeconds, later)
    ensures ConsumerStalled(lastConsumerTick, timeoutMs, now, inFlight, maxConcurrency) ==>
              ConsumerStalled(lastConsumerTick, timeoutMs, later, inFlight, maxConcurrency)
    ensures lastRenewOkAt != 0 ==>
              (RenewalStale(lastRenewOkAt, leaseTtlSeconds, now) <==> now > lastRenewOkAt + leaseTtlSeconds * 800)
  {
  }

  class RunnerHealth {
    const leaseTtlSeconds: nat
    const maxConcurrency: nat
    const consumerHealthTimeoutMs: int
    var healthState: HealthState
    var degradedSince: int
    var healthyStreak: nat
    var peakLoopLagMs: int
    var lastRenewOkAt: int
    var lastConsumerTick: int
    var inFlight: nat
    var running: bool
    ghost var history: seq<Event>

    ghost function Snapshot(): State
      reads this
    {
      State(healthState, degradedSince, healthyStreak)
    }

    /** The fields are a function of everything that was checked so far. */
    ghost predicate Valid()
      reads this
    {
      Snapshot() == After(history)
    }

    ghost predicate Healthy(now: int)
      reads this
    {
      && !RenewalStale(lastRenewOkAt, leaseTtlSeconds, now) && peakLoopLagMs <= LOOP_LAG_UNHEALTHY_MS
      && !ConsumerStalled(lastConsumerTick, consumerHealthTimeoutMs, now, inFlight, maxConcurrency)
    }

    constructor (leaseTtlSeconds: nat, maxConcurrency: nat, consumerHealthTimeoutMs: int)
      ensures Valid() && history == [] && running
    {
      this.leaseTtlSeconds, this.maxConcurrency := leaseTtlSeconds, maxConcurrency;
      this.consumerHealthTimeoutMs := consumerHealthTimeoutMs;
      healthState, degradedSince, healthyStreak := Normal, 0, 0;
      peakLoopLagMs, lastRenewOkAt, lastConsumerTick, inFlight, running := 0, 0, 0, 0, true;
      history := [];
    }

    method Probe(lagMs: int)
      requires Valid()
      modifies this`peakLoopLagMs
      ensures Valid() && peakLoopLagMs >= lagMs && peakLoopLagMs >= old(peakLoopLagMs) &&
              peakLoopLagMs in {lagMs, old(peakLoopLagMs)}
    {
      if lagMs > peakLoopLagMs {
        peakLoopLagMs := lagMs;
      }
    }

    /** Three signals, each with its own way to say nothing: no renewal yet, no lag above five seconds, no tick of the
        consumer yet or no room for it to take more. */
    method IsHealthy(now: int) returns (healthy: bool)
      ensures healthy == Healthy(now)
      ensures healthy <==>
              && (lastRenewOkAt == 0 || 5 * (now - lastRenewOkAt) <= 4000 * leaseTtlSeconds)
              && peakLoopLagMs <= 5000
              && (lastConsumerTick == 0 || now - lastConsumerTick < consumerHealthTimeoutMs ||
                  inFlight >= maxConcurrency)
    {
      var leaseTtlMs := leaseTtlSeconds * 1000;
      if lastRenewOkAt != 0 && 5 * (now - lastRenewOkAt) > 4 * leaseTtlMs {
        return false;
      }
      if peakLoopLagMs > LOOP_LAG_UNHEALTHY_MS {
        return false;
      }
      if lastConsumerTick == 0 {
        return true;
      }
      if now - lastConsumerTick < consumerHealthTimeoutMs {
        return true;
      }
      return inFlight >= maxConcurrency;
    }

    /** `evaluateHealth`: whether the heartbeat may go on renewing. The lag peak is consumed by the check that judged
        it. */
    method EvaluateHealth(checkedAt: int, now: int) returns (renew: bool)
      requires Valid()
      modifies `healthState, `degradedSince, `healthyStreak, `peakLoopLagMs, `history
      ensures Valid() && history == old(history) + [Check(old(Healthy(checkedAt)), now)]
      ensures renew <==> !EndsFatally(history)
      ensures !EndsFatally(old(history)) ==> peakLoopLagMs == 0
    {
      hide EndsFatally;
      ghost var healthyNow := Healthy(checkedAt);
      history := history + [Check(healthyNow, now)];
      assert history[..|history| - 1] == old(history);
      StateFollowsHistory(old(history));
      StateFollowsHistory(history);
      if healthState == Fatal {
        return false;
      }
      var healthy := IsHealthy(checkedAt);
      peakLoopLagMs := 0;
      if healthy {
        if healthState == Degraded {
          healthyStreak := healthyStreak + 1;
          if healthyStreak >= DEGRADED_RECOVERY_CHECKS {
            healthState, degradedSince, healthyStreak := Normal, 0, 0;
          }
        }
        return true;
      }
      healthyStreak := 0;
      if healthState == Normal {
        healthState, degradedSince := Degraded, now;
        return true;
      }
      if now - degradedSince >= DEGRADED_MAX_MS {
        healthState := Fatal;
        return false;
      }
      return true;
    }

    method OnFenced()
      requires Valid()
      modifies `healthState, `running, `history
      ensures Valid() && history == old(history) + [Fenced] && healthState == Fatal && !running
    {
      history := history + [Fenced];
      assert history[..|history| - 1] == old(history);
      healthState, running := Fatal, false;
    }

    method OnRenewOk(at: int)
      requires Valid()
      modifies `lastRenewOkAt
      ensures Valid() && lastRenewOkAt == at
    {
      lastRenewOkAt := at;
    }

    /** The heartbeat stopped for this runner's health. */
    method OnUnhealthy()
      requires Valid()
      modifies `running
      ensures Valid() && !running
    {
      running := false;
    }
  }
}
