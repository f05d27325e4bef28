/** The presence lease of one worker id and the processes that contend for it (`src/registry.ts`), and the heartbeat
    that renews it (`src/heartbeat.ts`). Each registry method is one step. */
module Lease {
  import opened Protocol
  import Health

  /** What the lease key holds: whose it is, if anybody's, and when it was last renewed. */
  datatype Presence = Presence(token: Option<string>, lastSeen: int)

  type Held = Option<Presence>

  function TokenOf(lease: Held): Option<string> {
    if lease.Some? then lease.value.token else None
  }

  // ----- the registry methods, on the lease and the caller's token -----

  /** SET NX under a newly minted token. */
  function Claim(lease: Held, token: string): (Held, bool) {
    if lease.None? then (Some(Presence(Some(token), 0)), true) else (lease, false)
  }

  function Heartbeat(lease: Held, token: Option<string>, now: int): (Held, bool) {
    if token.Some? then
      if lease.None? || lease.value.token == token then (Some(Presence(token, now)), true) else (lease, false)
    else if TokenOf(lease).Some? then (lease, false)
    else (Some(Presence(None, now)), true)
  }

  function Refresh(lease: Held, token: Option<string>): bool {
    token.Some? && TokenOf(lease) == token
  }

  function Release(lease: Held, expected: Option<string>): (Held, bool) {
    if expected.None? || TokenOf(lease) != expected then (lease, false) else (None, true)
  }

  /** Without a token to compare, the lease is removed whosever it is. */
  function MarkInactive(lease: Held, expected: Option<string>): (Held, bool) {
    if expected.Some? && TokenOf(lease) != expected then (lease, false) else (None, true)
  }

  /** A token given explicitly, or else the one remembered from the claim. */
  function Expected(given: string, locks: map<string, string>, workerId: string): Option<string> {
    if given != "" then Some(given) else if workerId in locks then Some(locks[workerId]) else None
  }

  // ----- what a token protects -----

  /** A renewal succeeds for a token holder exactly when nobody else holds the lease, and then it is theirs. */
  lemma RenewalMeansOwnership(lease: Held, token: string, now: int)
    ensures var (after, ok) := Heartbeat(lease, Some(token), now);
            && (ok <==> lease.None? || TokenOf(lease) == Some(token))
            && (ok <==> TokenOf(after) == Some(token))
            && (ok ==> after.Some? && after.value.lastSeen == now)
    ensures Refresh(lease, Some(token)) <==> TokenOf(lease) == Some(token)
  {
  }

  /** A stale token neither overwrites nor deletes whoever holds the lease. */
  lemma StaleTokenChangesNothing(lease: Held, token: string, now: int)
    requires lease.Some? && TokenOf(lease) != Some(token)
    ensures Claim(lease, token) == (lease, false) && Heartbeat(lease, Some(token), now) == (lease, false) &&
            !Refresh(lease, Some(token))
    ensures Release(lease, Some(token)) == (lease, false) && MarkInactive(lease, Some(token)) == (lease, false)
  {
  }

  /** `markWorkerInactive` takes a foreign lease away exactly when its caller has no token to compare. */
  lemma InactiveEvictsExactly(lease: Held, expected: Option<string>)
    requires lease.Some? && (expected.Some? ==> TokenOf(lease) != expected)
    ensures MarkInactive(lease, expected).0.None? <==> expected.None?
  {
  }

  /** What each method answers, and that it answers truly: a refusal leaves the lease alone, and a success leaves it
      held by the claimant or the renewer, or by nobody once it was given up. */
  lemma AnswersAreTrue(lease: Held, token: Option<string>, minted: string, now: int)
    ensures var (after, ok) := Claim(lease, minted);
            (ok <==> lease.None?) && (if ok then TokenOf(after) == Some(minted) else after == lease)
    ensures var (after, ok) := Heartbeat(lease, token, now);
            && (ok <==> TokenOf(lease) == token || lease.None?)
            && (if ok then after.Some? && after.value.token == token && after.value.lastSeen == now else after == lease)
    ensures var (after, ok) := Release(lease, token);
            (ok <==> token.Some? && TokenOf(lease) == token) && after == if ok then None else lease
    ensures var (after, ok) := MarkInactive(lease, token);
            (ok <==> token.None? || TokenOf(lease) == token) && after == if ok then None else lease
  {
  }

  // ----- any number of processes -----

  /** The lease, the token each process remembers, every token ever minted and who minted it. */
  datatype World = World(lease: Held, locks: map<nat, string>, minted: map<string, nat>)

  datatype Event =
    | ClaimBy(p: nat, token: string)
    | HeartbeatBy(p: nat, now: int)
    | RefreshBy(p: nat)
    | ReleaseBy(p: nat, given: string)
    | InactiveBy(p: nat, given: string)
    | Expire

  function TokenAt(w: World, p: nat): Option<string> {
    if p in w.locks then Some(w.locks[p]) else None
  }

  function ExpectedBy(w: World, p: nat, given: string): Option<string> {
    if given != "" then Some(given) else TokenAt(w, p)
  }

  /** Minted tokens are new; a process hands out only tokens it minted itself. */
  ghost predicate Possible(w: World, e: Event) {
    match e
    case ClaimBy(_, token) => token != "" && token !in w.minted
    case HeartbeatBy(_, _) => true
    case RefreshBy(_) => true
    case ReleaseBy(p, given) => given == "" || (given in w.minted && w.minted[given] == p)
    case InactiveBy(p, given) => given == "" || (given in w.minted && w.minted[given] == p)
    case Expire => true
  }

  /** The world after an event, and what the method returned. */
  function Step(w: World, e: Event): (World, bool) {
    match e
    case ClaimBy(p, token) =>
      var (lease, ok) := Claim(w.lease, token);
      (World(lease, if ok then w.locks[p := token] else w.locks, w.minted[token := p]), ok)
    case HeartbeatBy(p, now) =>
      var (lease, ok) := Heartbeat(w.lease, TokenAt(w, p), now);
      (w.(lease := lease), ok)
    case RefreshBy(p) => (w, Refresh(w.lease, TokenAt(w, p)))
    case ReleaseBy(p, given) =>
      var (lease, ok) := Release(w.lease, ExpectedBy(w, p, given));
      (w.(lease := lease, locks := if ok then w.locks - {p} else w.locks), ok)
    case InactiveBy(p, given) =>
      var (lease, ok) := MarkInactive(w.lease, ExpectedBy(w, p, given));
      (w.(lease := lease), ok)
    case Expire => (w.(lease := None), true)
  }

  /** Every remembered or stored token was minted, remembered ones by the process that remembers them. */
  ghost predicate Sound(w: World) {
    && (forall p :: p in w.locks ==> w.locks[p] in w.minted && w.minted[w.locks[p]] == p)
    && (TokenOf(w.lease).Some? ==> TokenOf(w.lease).value in w.minted)
  }

  ghost predicate Run(worlds: seq<World>, events: seq<Event>) {
    && |worlds| == |events| + 1 && worlds[0] == World(None, map[], map[])
    && forall i :: 0 <= i < |events| ==> Possible(worlds[i], events[i]) && worlds[i + 1] == Step(worlds[i], events[i]).0
  }

  lemma {:induction false} RunsAreSound(worlds: seq<World>, events: seq<Event>, i: nat)
    requires Run(worlds, events) && i <= |events|
    ensures Sound(worlds[i])
  {
    if i > 0 {
      RunsAreSound(worlds, events, i - 1);
    }
  }

  /** The process whose token the lease carries. */
  ghost predicate Holds(w: World, p: nat) {
    TokenOf(w.lease).Some? && TokenOf(w.lease).value in w.minted && w.minted[TokenOf(w.lease).value] == p
  }

  /** In every run a renewal by a process that remembers a token succeeds exactly if the lease is then its own. */
  lemma OnlyTheHolderRenews(worlds: seq<World>, events: seq<Event>, i: nat)
    requires Run(worlds, events) && i < |events| && (events[i].HeartbeatBy? || events[i].RefreshBy?) &&
             events[i].p in worlds[i].locks
    ensures Step(worlds[i], events[i]).1 <==> TokenOf(worlds[i + 1].lease) == Some(worlds[i].locks[events[i].p])
    ensures var next, p := worlds[i + 1], events[i].p;
            Step(worlds[i], events[i]).1 ==> forall q :: Holds(next, q) <==> q == p
  {
    RunsAreSound(worlds, events, i);
  }

  /** A claim on a free id lasts: its claimant renews it as often as it likes, and whoever else tries is refused, until
      the claimant gives it up and forgets its token. */
  lemma ClaimantKeepsTheLease(w: World, p: nat, q: nat, token: string, other: string, now: int, later: int)
    requires w.lease.None? && p != q && q !in w.locks && token != other
    ensures var (claimed, ok) := Step(w, ClaimBy(p, token));
            var (renewed, again) := Step(claimed, HeartbeatBy(p, now));
            var (released, freed) := Step(renewed, ReleaseBy(p, ""));
            && ok && Holds(claimed, p) && Step(claimed, RefreshBy(p)).1
            && again && Holds(renewed, p) && renewed.lease.value.lastSeen == now
            && !Step(renewed, ClaimBy(q, other)).1 && !Step(renewed, HeartbeatBy(q, later)).1
            && !Step(renewed, ReleaseBy(q, "")).1 && Step(renewed, HeartbeatBy(p, later)).1
            && freed && released.lease.None? && TokenAt(released, p).None? && Step(released, ClaimBy(q, other)).1
  {
  }

  /** The event ends `p`'s tenure: the lease runs out, `p` gives it up, or a process without any token removes it. */
  ghost predicate GivesUp(w: World, e: Event, p: nat) {
    match e
    case ClaimBy(_, _) => false
    case HeartbeatBy(_, _) => false
    case RefreshBy(_) => false
    case ReleaseBy(q, _) => q == p
    case InactiveBy(q, given) => q == p || ExpectedBy(w, q, given).None?
    case Expire => true
  }

  /** One step takes the lease away from its holder only by giving it up. */
  lemma TenureStep(w: World, e: Event, p: nat)
    requires Sound(w) && Possible(w, e) && Holds(w, p) && !GivesUp(w, e, p)
    ensures Holds(Step(w, e).0, p) && TokenOf(Step(w, e).0.lease) == TokenOf(w.lease)
  {
  }

  /** Mutual exclusion over whole runs: if one process holds the lease and later another does, the first lost it in
      between by expiry, by its own release, or to a process without a token. */
  lemma {:induction false} LeaseChangesHandsOnlyWhenGivenUp(worlds: seq<World>, events: seq<Event>, i: nat, j: nat,
                                                            p: nat, q: nat)
    requires Run(worlds, events) && i <= j <= |events| && Holds(worlds[i], p) && Holds(worlds[j], q) && p != q
    ensures exists k :: i <= k < j && GivesUp(worlds[k], events[k], p)
  {
    if forall k :: i <= k < j ==> !GivesUp(worlds[k], events[k], p) {
      TenureLasts(worlds, events, i, j, p);
    }
  }

  lemma {:induction false} TenureLasts(worlds: seq<World>, events: seq<Event>, i: nat, j: nat, p: nat)
    requires Run(worlds, events) && i <= j <= |events| && Holds(worlds[i], p)
    requires forall k :: i <= k < j ==> !GivesUp(worlds[k], events[k], p)
    ensures Holds(worlds[j], p) && TokenOf(worlds[j].lease) == TokenOf(worlds[i].lease)
    decreases j
  {
    if i < j {
      TenureLasts(worlds, events, i, j - 1, p);
      RunsAreSound(worlds, events, j - 1);
      TenureStep(worlds[j - 1], events[j - 1], p);
    }
  }

  /** A process that released its id and no longer remembers a token still removes its successor's lease. */
  lemma ForgottenTokenEvictsTheSuccessor(w: World, p: nat, q: nat, token: string)
    requires p != q && p in w.locks && TokenOf(w.lease) == Some(w.locks[p]) && token != "" && token !in w.minted
    ensures var released := Step(w, ReleaseBy(p, "")).0;
            var taken := Step(released, ClaimBy(q, token)).0;
            Holds(taken, q) && Step(taken, InactiveBy(p, "")).0.lease.None?
  {
  }

  // ----- the registry -----

  /** The lease keys, shared by every process. */
  class LeaseStore {
    var leases: map<string, Presence>

    constructor ()
      ensures leases == map[]
    {
      leases := map[];
    }

    ghost function At(workerId: string): Held
      reads this
    {
      if workerId in leases then Some(leases[workerId]) else None
    }
  }

  class WorkerRegistry {
    const store: LeaseStore
    var lockTokens: map<string, string>

    constructor (store: LeaseStore)
      ensures this.store == store && lockTokens == map[]
    {
      this.store, this.lockTokens := store, map[];
    }

    ghost function Remembered(workerId: string): Option<string>
      reads this
    {
      Expected("", lockTokens, workerId)
    }

    /** `claimWorkerId`; a refused claim is the source's exception. */
    method ClaimWorkerId(workerId: string, token: string) returns (ok: bool)
      modifies this`lockTokens, store
      ensures (store.At(workerId), ok) == Claim(old(store.At(workerId)), token)
      ensures store.leases - {workerId} == old(store.leases) - {workerId}
      ensures lockTokens == if ok then old(lockTokens)[workerId := token] else old(lockTokens)
    {
      if workerId in store.leases {
        return false;
      }
      store.leases := store.leases[workerId := Presence(Some(token), 0)];
      lockTokens := lockTokens[workerId := token];
      return true;
    }

    method HeartbeatWorker(workerId: string, now: int) returns (ok: bool)
      modifies store
      ensures (store.At(workerId), ok) == Heartbeat(old(store.At(workerId)), Remembered(workerId), now)
      ensures store.leases - {workerId} == old(store.leases) - {workerId}
    {
      if workerId in lockTokens {
        var token := lockTokens[workerId];
        if workerId in store.leases && store.leases[workerId].token != Some(token) {
          return false;
        }
        store.leases := store.leases[workerId := Presence(Some(token), now)];
      } else {
        if workerId in store.leases && store.leases[workerId].token.Some? {
          return false;
        }
        store.leases := store.leases[workerId := Presence(None, now)];
      }
      return true;
    }

    method RefreshWorkerIdLock(workerId: string) returns (ok: bool)
      ensures ok == Refresh(store.At(workerId), Remembered(workerId))
    {
      return workerId in lockTokens && workerId in store.leases &&
          store.leases[workerId].token == Some(lockTokens[workerId]);
    }

    method ReleaseWorkerId(workerId: string, given: string) returns (ok: bool)
      modifies this`lockTokens, store
      ensures (store.At(workerId), ok) == Release(old(store.At(workerId)), Expected(given, old(lockTokens), workerId))
      ensures store.leases - {workerId} == old(store.leases) - {workerId}
      ensures lockTokens == if ok then old(lockTokens) - {workerId} else old(lockTokens)
    {
      var expected := Expected(given, lockTokens, workerId);
      if expected.None? || workerId !in store.leases || store.leases[workerId].token != expected {
        return false;
      }
      store.leases := store.leases - {workerId};
      lockTokens := lockTokens - {workerId};
      return true;
    }

    method MarkWorkerInactive(workerId: string, given: string) returns (ok: bool)
      modifies store
      ensures (store.At(workerId), ok) == MarkInactive(old(store.At(workerId)), Expected(given, lockTokens, workerId))
      ensures store.leases - {workerId} == old(store.leases) - {workerId}
    {
      var expected := Expected(given, lockTokens, workerId);
      if expected.Some? && (workerId !in store.leases || store.leases[workerId].token != expected) {
        return false;
      }
      store.leases := store.leases - {workerId};
      return true;
    }
  }

  // ----- the heartbeat -----

  datatype RenewOutcome = Renewed | FencedOff | Failed

  /** One attempt as the heartbeat experienced it. */
  datatype Attempt = Attempt(outcome: RenewOutcome, at: int)

  /** How many attempts have failed since the last success; a fence counts as neither. */
  function FailuresSince(history: seq<Attempt>): nat {
    if history == [] then 0
    else
      match history[|history| - 1].outcome
      case Renewed => 0
      case FencedOff => FailuresSince(history[..|history| - 1])
      case Failed => FailuresSince(history[..|history| - 1]) + 1
  }

  function LastSuccess(history: seq<Attempt>): int {
    if history == [] then 0
    else if history[|history| - 1].outcome.Renewed? then history[|history| - 1].at
    else LastSuccess(history[..|history| - 1])
  }

  /** The heartbeat of one worker, observed by its runner. */
  class WorkerHeartbeat {
    const workerId: string
    const registry: WorkerRegistry
    const runner: Health.RunnerHealth
    var interval: bool
    var retryTimer: bool
    var consecutiveFailures: nat
    var lastRenewOkAt: int
    ghost var history: seq<Attempt>

    /** The counters are functions of the attempts so far, and a fence silences every timer. */
    ghost predicate Valid()
      reads this
    {
      && consecutiveFailures == FailuresSince(history) && lastRenewOkAt == LastSuccess(history)
      && (history != [] && history[|history| - 1].outcome.FencedOff? ==> !interval && !retryTimer)
      && (retryTimer ==> interval)
    }

    constructor (workerId: string, registry: WorkerRegistry, runner: Health.RunnerHealth)
      ensures Valid() && this.workerId == workerId && this.registry == registry && this.runner == runner
      ensures history == [] && !interval
    {
      this.workerId, this.registry, this.runner := workerId, registry, runner;
      interval, retryTimer, consecutiveFailures, lastRenewOkAt, history := false, false, 0, 0, [];
    }

    method Stop()
      requires Valid()
      modifies `interval, `retryTimer
      ensures Valid() && !interval && !retryTimer
    {
      interval, retryTimer := false, false;
    }

    /** Redis did not answer: one retry is armed, by the first failure in a row. */
    method NoteFailure(now: int)
      requires Valid()
      modifies `consecutiveFailures, `retryTimer, `history
      ensures Valid() && history == old(history) + [Attempt(Failed, now)]
      ensures retryTimer <==> old(retryTimer) || (interval && FailuresSince(old(history)) == 0)
    {
      consecutiveFailures := consecutiveFailures + 1;
      if consecutiveFailures == 1 && !retryTimer && interval {
        retryTimer := true;
      }
      history := history + [Attempt(Failed, now)];
      assert history[..|history| - 1] == old(history);
    }

    method NoteFence(now: int)
      requires Valid()
      modifies `interval, `retryTimer, `history
      ensures Valid() && history == old(history) + [Attempt(FencedOff, now)] && !interval && !retryTimer
    {
      Stop();
      history := history + [Attempt(FencedOff, now)];
      assert history[..|history| - 1] == old(history);
    }

    method NoteSuccess(now: int)
      requires Valid()
      modifies `consecutiveFailures, `lastRenewOkAt, `history
      ensures Valid() && history == old(history) + [Attempt(Renewed, now)]
    {
      consecutiveFailures, lastRenewOkAt := 0, now;
      history := history + [Attempt(Renewed, now)];
    }

    /** `renewLease`: one attempt, classified, and reported to the runner. `reachable` says whether Redis answers. */
    method RenewLease(reachable: bool, now: int) returns (outcome: RenewOutcome)
      requires Valid() && runner.Valid()
      modifies this, registry.store, runner
      ensures Valid() && runner.Valid() && history == old(history) + [Attempt(outcome, now)]
      ensures var (lease, ok) := Heartbeat(old(registry.store.At(workerId)), registry.Remembered(workerId), now);
              if !reachable then outcome == Failed && registry.store.leases == old(registry.store.leases)
              else registry.store.At(workerId) == lease && outcome == if ok then Renewed else FencedOff
      ensures match outcome
              case Renewed => runner.lastRenewOkAt == now && unchanged(runner`history, runner`running)
              case FencedOff => !runner.running && runner.history == old(runner.history) + [Health.Fenced]
              case Failed => unchanged(runner)
      ensures outcome.FencedOff? ==> !interval && !retryTimer
      ensures !outcome.FencedOff? ==> interval == old(interval)
      ensures outcome.Renewed? ==> retryTimer == old(retryTimer)
      ensures outcome.Failed? ==> (retryTimer <==> old(retryTimer) ||
                                                   (old(interval) && FailuresSince(old(history)) == 0))
    {
      hide FailuresSince, LastSuccess, Heartbeat;
      if !reachable {
        NoteFailure(now);
        return Failed;
      }
      var renewed := registry.HeartbeatWorker(workerId, now);
      if !renewed {
        NoteFence(now);
        runner.OnFenced();
        return FencedOff;
      }
      NoteSuccess(now);
      runner.OnRenewOk(now);
      return Renewed;
    }

    /** The retry timer fires: it is spent before the attempt it makes. */
    method RetryFires(reachable: bool, now: int) returns (outcome: RenewOutcome)
      requires Valid() && retryTimer && runner.Valid()
      modifies this, registry.store, runner
      ensures Valid() && runner.Valid() && history == old(history) + [Attempt(outcome, now)]
      ensures outcome.Failed? ==> (retryTimer <==> FailuresSince(old(history)) == 0)
    {
      retryTimer := false;
      outcome := RenewLease(reachable, now);
    }

    /** `start`: the first attempt decides whether the interval is set at all. */
    method Start(reachable: bool, now: int)
      requires Valid() && runner.Valid()
      modifies this, registry.store, runner
      ensures Valid() && runner.Valid()
      ensures if old(interval) then history == old(history) && interval
              else exists outcome :: history == old(history) + [Attempt(outcome, now)] &&
                                     (interval <==> outcome != FencedOff)
    {
      if interval {
        return;
      }
      var outcome := RenewLease(reachable, now);
      assert history == old(history) + [Attempt(outcome, now)];
      if outcome == FencedOff {
        return;
      }
      interval := true;
    }

    /** One heartbeat cycle: the runner's health decides first. Refused, the heartbeat stops with every timer, the
        runner stops, and the lease is left to expire; otherwise one renewal is attempted. */
    method Tick(reachable: bool, checkedAt: int, now: int) returns (outcome: Option<RenewOutcome>)
      requires Valid() && runner.Valid()
      modifies this, registry.store, runner
      ensures Valid() && runner.Valid()
      ensures var checked := old(runner.history) + [Health.Check(old(runner.Healthy(checkedAt)), now)];
              if Health.EndsFatally(checked) then
                && outcome == None && history == old(history) && runner.history == checked
                && !interval && !retryTimer && !runner.running && registry.store.leases == old(registry.store.leases)
              else
                && outcome.Some? && history == old(history) + [Attempt(outcome.value, now)]
                && runner.history == checked + if outcome.value.FencedOff? then [Health.Fenced] else []
    {
      hide FailuresSince, LastSuccess, Heartbeat, Health.EndsFatally;
      var renew := runner.EvaluateHealth(checkedAt, now);
      if !renew {
        Stop();
        runner.OnUnhealthy();
        return None;
      }
      var attempt := RenewLease(reachable, now);
      assert runner.history == runner.history + [];
      return Some(attempt);
    }
  }

  ghost function FailuresIn(attempts: seq<Attempt>): set<int> {
    set i | 0 <= i < |attempts| && attempts[i].outcome == Failed
  }

  /** The counter counts the failures since the last success, whatever fences came between them, and the last success is
      when it was. */
  lemma {:induction false} StreakLength(history: seq<Attempt>, streak: seq<Attempt>, at: int)
    requires forall a :: a in streak ==> a.outcome != Renewed
    ensures FailuresSince(history + [Attempt(Renewed, at)] + streak) == |FailuresIn(streak)|
    ensures LastSuccess(history + [Attempt(Renewed, at)] + streak) == at
  {
    var h := history + [Attempt(Renewed, at)];
    if streak == [] {
      assert h + streak == h;
    } else {
      var n := |streak| - 1;
      assert streak[n] in streak && forall a :: a in streak[..n] ==> a in streak;
      assert FailuresIn(streak) == FailuresIn(streak[..n]) + if streak[n].outcome == Failed then {n} else {};
      StreakLength(history, streak[..n], at);
      assert (h + streak)[..|h + streak| - 1] == h + streak[..n];
      assert (h + streak)[|h + streak| - 1] == streak[n];
    }
  }
}
