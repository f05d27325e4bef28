/** `consumeWaitEntry` command by command (`src/liveness/wait_gate.ts`): any number of calls on copies of one
    reply, whose ZREM, SET and EXISTS commands interleave freely. */
module GateInterleaving {
  import opened Store
  import opened WaitGate

  /** Where a call stands: about to ZREM candidate `k`, about to SET its marker, about to ask for its marker. */
  datatype Call = Removing(k: nat) | Marking(k: nat) | Checking(k: nat) | Returned(decision: Decision)

  datatype System = System(index: set<string>, markers: set<string>, calls: seq<Call>)

  /** One Redis command of call `p`; a returned call has none left. */
  function Command(candidates: seq<string>, s: System, p: nat): System
    requires p < |s.calls| && Valid(candidates, s)
  {
    match s.calls[p]
    case Removing(k) =>
      if candidates[k] in s.index
      then System(s.index - {candidates[k]}, s.markers, s.calls[p := Marking(k)])
      else s.(calls := s.calls[p := Checking(k)])
    case Marking(k) =>
      System(s.index, s.markers + {candidates[k]}, s.calls[p := Returned(Claimed(candidates[k]))])
    case Checking(k) =>
      if candidates[k] in s.markers then s.(calls := s.calls[p := Returned(AlreadyConsumed(candidates[k]))])
      else if k + 1 < |candidates| then s.(calls := s.calls[p := Removing(k + 1)])
      else s.(calls := s.calls[p := Returned(Unregistered)])
    case Returned(_) => s
  }

  ghost predicate Valid(candidates: seq<string>, s: System) {
    forall p :: 0 <= p < |s.calls| ==> s.calls[p].Returned? || s.calls[p].k < |candidates|
  }

  /** The state after a schedule of commands; entries that name no call do nothing. */
  ghost function Run(candidates: seq<string>, s: System, schedule: seq<nat>): (t: System)
    requires Valid(candidates, s)
    ensures Valid(candidates, t) && |t.calls| == |s.calls|
    decreases |schedule|
  {
    if schedule == [] then s
    else if schedule[0] < |s.calls| then Run(candidates, Command(candidates, s, schedule[0]), schedule[1..])
    else Run(candidates, s, schedule[1..])
  }

  /** Every call is about to issue its first command, and no candidate has been consumed yet. */
  ghost predicate Fresh(candidates: seq<string>, s: System) {
    && 1 <= |candidates|
    && (forall i, j :: 0 <= i < j < |candidates| ==> candidates[i] != candidates[j])
    && (forall p :: 0 <= p < |s.calls| ==> s.calls[p] == Removing(0))
    && (forall i :: 0 <= i < |candidates| ==> candidates[i] !in s.markers)
  }

  ghost predicate AtMostOneLive(candidates: seq<string>, s: System) {
    forall i, j :: 0 <= i < j < |candidates| ==> candidates[i] !in s.index || candidates[j] !in s.index
  }

  /** The call has won the ZREM of some candidate. */
  predicate Won(c: Call) {
    c.Marking? || (c.Returned? && c.decision.Claimed?)
  }

  ghost predicate OneWinner(candidates: seq<string>, s: System) {
    && (forall p, q :: 0 <= p < |s.calls| && 0 <= q < |s.calls| && Won(s.calls[p]) && Won(s.calls[q]) ==> p == q)
    && ((exists p :: 0 <= p < |s.calls| && Won(s.calls[p])) ==> forall i :: 0 <= i < |candidates| ==>
        candidates[i] !in s.index)
    && AtMostOneLive(candidates, s)
  }

  lemma {:induction false} OneWinnerKept(candidates: seq<string>, s: System, schedule: seq<nat>)
    requires Valid(candidates, s) && OneWinner(candidates, s)
    ensures OneWinner(candidates, Run(candidates, s, schedule))
    decreases |schedule|
  {
    if schedule != [] {
      if schedule[0] < |s.calls| {
        var t := Command(candidates, s, schedule[0]);
        assert forall q :: 0 <= q < |s.calls| && q != schedule[0] ==> t.calls[q] == s.calls[q];
        OneWinnerKept(candidates, t, schedule[1..]);
      } else {
        OneWinnerKept(candidates, s, schedule[1..]);
      }
    }
  }

  ghost predicate TwoClaims(s: System) {
    exists p, q :: 0 <= p < q < |s.calls| && Won(s.calls[p]) && Won(s.calls[q])
  }

  /** With one live entry among the candidates, no schedule makes two calls return `claimed`. */
  lemma AtMostOneClaims(candidates: seq<string>, s: System, schedule: seq<nat>)
    requires Fresh(candidates, s) && AtMostOneLive(candidates, s)
    ensures !TwoClaims(Run(candidates, s, schedule))
  {
    OneWinnerKept(candidates, s, schedule);
  }

  /** Runs a two-call schedule of explicit length. */
  lemma RunCons(candidates: seq<string>, s: System, p: nat, rest: seq<nat>)
    requires Valid(candidates, s) && p < |s.calls|
    ensures Run(candidates, s, [p] + rest) == Run(candidates, Command(candidates, s, p), rest)
  {
    assert ([p] + rest)[1..] == rest;
  }

  /** Two calls overtake each other between a ZREM and its marker: one takes the first candidate, the other
      falls through and takes the second. */
  lemma BothCandidatesClaimed(candidates: seq<string>, s: System)
    requires Fresh(candidates, s) && |candidates| == 2 && |s.calls| >= 2
    requires candidates[0] in s.index && candidates[1] in s.index
    ensures TwoClaims(Run(candidates, s, [0, 1, 1, 1]))
  {
    var s1 := Command(candidates, s, 0);
    var s2 := Command(candidates, s1, 1);
    var s3 := Command(candidates, s2, 1);
    var s4 := Command(candidates, s3, 1);
    assert [0] + [1, 1, 1] == [0, 1, 1, 1];
    assert [1] + [1, 1] == [1, 1, 1];
    assert [1] + [1] == [1, 1];
    assert [1] + [] == [1];
    RunCons(candidates, s, 0, [1, 1, 1]);
    RunCons(candidates, s1, 1, [1, 1]);
    RunCons(candidates, s2, 1, [1]);
    RunCons(candidates, s3, 1, []);
    assert s4.calls[0] == Marking(0) && s4.calls[1] == Marking(1);
  }

  /** Two copies of a reply can both be claimed in some interleaving exactly when its caller has both of the
      entries it may clear live at once: the sub-task's and an askUser one. */
  lemma DoubleClaimExactly(candidates: seq<string>, s: System)
    requires Fresh(candidates, s) && |candidates| <= 2 && |s.calls| >= 2
    ensures (exists schedule: seq<nat> :: TwoClaims(Run(candidates, s, schedule))) <==>
            |candidates| == 2 && candidates[0] in s.index && candidates[1] in s.index
  {
    if |candidates| == 2 && candidates[0] in s.index && candidates[1] in s.index {
      BothCandidatesClaimed(candidates, s);
      var schedule: seq<nat> := [0, 1, 1, 1];
      assert TwoClaims(Run(candidates, s, schedule));
      assert exists x: seq<nat> :: TwoClaims(Run(candidates, s, x));
    } else {
      forall schedule: seq<nat> ensures !TwoClaims(Run(candidates, s, schedule)) {
        AtMostOneClaims(candidates, s, schedule);
      }
    }
  }

  // ----- one call alone is the atomic gate -----

  function Alone(p: nat, n: nat): (schedule: seq<nat>)
    ensures |schedule| == n
  {
    if n == 0 then [] else [p] + Alone(p, n - 1)
  }

  lemma {:induction false} ReturnedIdles(candidates: seq<string>, s: System, p: nat, n: nat)
    requires Valid(candidates, s) && p < |s.calls| && s.calls[p].Returned?
    ensures Run(candidates, s, Alone(p, n)) == s
  {
    if n > 0 {
      RunCons(candidates, s, p, Alone(p, n - 1));
      ReturnedIdles(candidates, s, p, n - 1);
    }
  }

  /** A call whose commands no other call interrupts answers as the atomic gate does, from any candidate on. */
  lemma {:induction false} AloneIsAtomic(candidates: seq<string>, s: System, p: nat, k: nat, w: Waits)
    requires Valid(candidates, s) && p < |s.calls| && k < |candidates| && s.calls[p] == Removing(k)
    requires w.index.Keys == s.index && w.markers == s.markers
    ensures var t := Run(candidates, s, Alone(p, 2 * (|candidates| - k)));
            var (w', d) := GateOn(w, candidates[k..]);
            && t.calls[p] == Returned(d) && t.index == w'.index.Keys && t.markers == w'.markers
            && forall q :: 0 <= q < |s.calls| && q != p ==> t.calls[q] == s.calls[q]
    decreases |candidates| - k
  {
    var n := 2 * (|candidates| - k) - 2;
    var s1 := Command(candidates, s, p);
    var s2 := Command(candidates, s1, p);
    assert Alone(p, n + 2) == [p] + Alone(p, n + 1);
    RunCons(candidates, s, p, Alone(p, n + 1));
    RunCons(candidates, s1, p, Alone(p, n));
    if candidates[k] in s.index || candidates[k] in s.markers {
      ReturnedIdles(candidates, s2, p, n);
      assert (w.index - {candidates[k]}).Keys == s.index - {candidates[k]};
    } else {
      assert candidates[k..][1..] == candidates[k + 1..];
      if k + 1 < |candidates| {
        AloneIsAtomic(candidates, s2, p, k + 1, w);
      } else {
        ReturnedIdles(candidates, s2, p, n);
      }
    }
  }

  // ----- copies that are let through -----

  /** No candidate that `p` has finished asking about is live any more, and what it claimed or met it did meet. */
  ghost predicate Passed(candidates: seq<string>, s: System, p: nat)
    requires p < |s.calls|
  {
    match s.calls[p]
    case Removing(k) => GoneBefore(candidates, s, k)
    case Checking(k) => GoneBefore(candidates, s, k + 1)
    case Marking(k) => GoneBefore(candidates, s, k + 1)
    case Returned(Claimed(m)) =>
      m in s.markers && exists k :: 0 <= k < |candidates| && candidates[k] == m && GoneBefore(candidates, s, k + 1)
    case Returned(AlreadyConsumed(_)) => true
    case Returned(Unregistered) => GoneBefore(candidates, s, |candidates|)
  }

  ghost predicate GoneBefore(candidates: seq<string>, s: System, k: int) {
    forall i :: 0 <= i < k && i < |candidates| ==> candidates[i] !in s.index
  }

  ghost predicate AllPassed(candidates: seq<string>, s: System) {
    forall p :: 0 <= p < |s.calls| ==> Passed(candidates, s, p)
  }

  lemma {:induction false} AllPassedKept(candidates: seq<string>, s: System, schedule: seq<nat>)
    requires Valid(candidates, s) && AllPassed(candidates, s)
    ensures AllPassed(candidates, Run(candidates, s, schedule))
    decreases |schedule|
  {
    if schedule != [] {
      if schedule[0] < |s.calls| {
        CommandKeepsPassed(candidates, s, schedule[0]);
        AllPassedKept(candidates, Command(candidates, s, schedule[0]), schedule[1..]);
      } else {
        AllPassedKept(candidates, s, schedule[1..]);
      }
    }
  }

  lemma CommandKeepsPassed(candidates: seq<string>, s: System, p: nat)
    requires Valid(candidates, s) && AllPassed(candidates, s) && p < |s.calls|
    ensures AllPassed(candidates, Command(candidates, s, p))
  {
    var t := Command(candidates, s, p);
    assert Passed(candidates, s, p);
    forall q | 0 <= q < |t.calls| ensures Passed(candidates, t, q) {
      assert Passed(candidates, s, q);
      if q == p && s.calls[p].Marking? {
        assert candidates[s.calls[p].k] == t.calls[p].decision.member;
      }
    }
  }

  /** `p` can now only be denied: the marker of candidate `w` is set, no candidate up to `w` is live, and `p` has not
      moved past `w`. */
  ghost predicate Doomed(candidates: seq<string>, s: System, p: nat, w: nat) {
    && p < |s.calls| && w < |candidates| && candidates[w] in s.markers && GoneBefore(candidates, s, w + 1)
    && match s.calls[p]
       case Removing(k) => k <= w
       case Checking(k) => k <= w
       case Marking(_) => false
       case Returned(d) => d.AlreadyConsumed?
  }

  lemma {:induction false} DoomedStaysDoomed(candidates: seq<string>, s: System, schedule: seq<nat>, p: nat, w: nat)
    requires Valid(candidates, s) && Doomed(candidates, s, p, w)
    ensures Doomed(candidates, Run(candidates, s, schedule), p, w)
    decreases |schedule|
  {
    if schedule != [] {
      if schedule[0] < |s.calls| {
        DoomedStaysDoomed(candidates, Command(candidates, s, schedule[0]), schedule[1..], p, w);
      } else {
        DoomedStaysDoomed(candidates, s, schedule[1..], p, w);
      }
    }
  }

  /** The call has yet to ask for the marker of candidate `w`. */
  predicate YetToAsk(c: Call, w: nat) {
    (c.Removing? || c.Checking?) && c.k <= w
  }

  /** Once some call has returned `claimed` for candidate `w`, a copy that has not asked for that candidate's marker
      yet, or not started at all, can only be denied, under every schedule: so a copy is let through only if it asked
      before the winner's marker was set. */
  lemma LateCallsAreDenied(candidates: seq<string>, s: System, before: seq<nat>, after: seq<nat>, p: nat, q: nat,
                           w: nat)
    requires Fresh(candidates, s) && w < |candidates|
    requires var t := Run(candidates, s, before);
             && p < |t.calls| && q < |t.calls|
             && t.calls[q] == Returned(Claimed(candidates[w])) && YetToAsk(t.calls[p], w)
    ensures var c := Run(candidates, Run(candidates, s, before), after).calls[p];
            c.Returned? ==> c.decision.AlreadyConsumed?
  {
    AllPassedKept(candidates, s, before);
    var t := Run(candidates, s, before);
    assert Passed(candidates, t, q);
    DoomedStaysDoomed(candidates, t, after, p, w);
  }

  /** The live candidates and the calls that won one, by position. */
  function Live(candidates: seq<string>, s: System): set<nat> {
    set i: nat | i < |candidates| && candidates[i] in s.index
  }

  function Winners(s: System): set<nat> {
    set p: nat | p < |s.calls| && Won(s.calls[p])
  }

  /** A command that takes a live candidate makes its call a winner; no other command changes either. */
  lemma CommandTakesOne(candidates: seq<string>, s: System, p: nat)
    requires Valid(candidates, s) && p < |s.calls|
    requires forall i, j :: 0 <= i < j < |candidates| ==> candidates[i] != candidates[j]
    ensures var t := Command(candidates, s, p);
            |Winners(t)| + |Live(candidates, t)| == |Winners(s)| + |Live(candidates, s)|
  {
    var t := Command(candidates, s, p);
    assert forall q :: 0 <= q < |s.calls| && q != p ==> t.calls[q] == s.calls[q];
    if s.calls[p].Removing? && candidates[s.calls[p].k] in s.index {
      assert Winners(t) == Winners(s) + {p} && p !in Winners(s);
      LosesOne(candidates, s, t, s.calls[p].k);
    } else {
      assert Winners(t) == Winners(s);
      assert Live(candidates, t) == Live(candidates, s);
    }
  }

  lemma LosesOne(candidates: seq<string>, s: System, t: System, k: nat)
    requires k < |candidates| && candidates[k] in s.index && t.index == s.index - {candidates[k]}
    requires forall i, j :: 0 <= i < j < |candidates| ==> candidates[i] != candidates[j]
    ensures Live(candidates, t) == Live(candidates, s) - {k} && |Live(candidates, t)| == |Live(candidates, s)| - 1
  {
    assert k in Live(candidates, s);
    forall i: nat | i < |candidates| && i != k ensures candidates[i] != candidates[k] {
      assert i < k || k < i;
    }
  }

  /** Each live candidate is won by one call. */
  lemma {:induction false} WinnersTakeTheLive(candidates: seq<string>, s: System, schedule: seq<nat>)
    requires Valid(candidates, s)
    requires forall i, j :: 0 <= i < j < |candidates| ==> candidates[i] != candidates[j]
    ensures var t := Run(candidates, s, schedule);
            |Winners(t)| + |Live(candidates, t)| == |Winners(s)| + |Live(candidates, s)|
    decreases |schedule|
  {
    hide Winners, Live, Command;
    if schedule != [] {
      var p := schedule[0];
      if p < |s.calls| {
        CommandTakesOne(candidates, s, p);
        CommandKeepsValid(candidates, s, p);
        WinnersTakeTheLive(candidates, Command(candidates, s, p), schedule[1..]);
      } else {
        WinnersTakeTheLive(candidates, s, schedule[1..]);
      }
    }
  }

  lemma CommandKeepsValid(candidates: seq<string>, s: System, p: nat)
    requires Valid(candidates, s) && p < |s.calls|
    ensures Valid(candidates, Command(candidates, s, p)) && |Command(candidates, s, p).calls| == |s.calls|
  {
  }

  /** One copy is claimed while another is let through as unregistered. */
  ghost predicate Slips(s: System) {
    exists p, q :: 0 <= p < |s.calls| && 0 <= q < |s.calls| &&
                   s.calls[p].Returned? && s.calls[p].decision.Claimed? && s.calls[q] == Returned(Unregistered)
  }

  lemma {:induction false} RunAppend(candidates: seq<string>, s: System, a: seq<nat>, b: seq<nat>)
    requires Valid(candidates, s)
    ensures Run(candidates, s, a + b) == Run(candidates, Run(candidates, s, a), b)
    decreases |a|
  {
    if a == [] {
      assert a + b == b;
    } else {
      assert (a + b)[1..] == a[1..] + b;
      if a[0] < |s.calls| {
        RunAppend(candidates, Command(candidates, s, a[0]), a[1..], b);
      } else {
        RunAppend(candidates, s, a[1..], b);
      }
    }
  }

  ghost predicate Unmarked(candidates: seq<string>, s: System) {
    forall i :: 0 <= i < |candidates| ==> candidates[i] !in s.markers
  }

  /** While nothing is marked, a call can be led to win the next live candidate. */
  lemma {:induction false} WinNext(candidates: seq<string>, s: System, p: nat, k: nat, i: nat)
      returns (schedule: seq<nat>)
    requires Valid(candidates, s) && Unmarked(candidates, s) && p < |s.calls| && s.calls[p] == Removing(k)
    requires k <= i < |candidates| && candidates[i] in s.index
    ensures var t := Run(candidates, s, schedule);
            && t.markers == s.markers
            && exists j :: k <= j < |candidates| && candidates[j] in s.index &&
                           t.index == s.index - {candidates[j]} && t.calls == s.calls[p := Marking(j)]
    decreases i - k
  {
    var s1 := Command(candidates, s, p);
    if candidates[k] in s.index {
      schedule := [p];
      assert [p] + [] == [p];
      RunCons(candidates, s, p, []);
      assert Run(candidates, s, schedule) == s1;
    } else {
      var s2 := Command(candidates, s1, p);
      var rest := WinNext(candidates, s2, p, k + 1, i);
      schedule := [p] + ([p] + rest);
      RunCons(candidates, s, p, [p] + rest);
      RunCons(candidates, s1, p, rest);
      var j :| k + 1 <= j < |candidates| && candidates[j] in s2.index &&
               Run(candidates, s2, rest).index == s2.index - {candidates[j]} &&
               Run(candidates, s2, rest).calls == s2.calls[p := Marking(j)];
      assert s2.calls[p := Marking(j)] == s.calls[p := Marking(j)];
    }
  }

  /** While nothing is marked, as many calls as there are live candidates can be led to win one each. */
  lemma {:induction false} WinAll(candidates: seq<string>, s: System, p: nat) returns (schedule: seq<nat>)
    requires Valid(candidates, s) && Unmarked(candidates, s)
    requires forall i, j :: 0 <= i < j < |candidates| ==> candidates[i] != candidates[j]
    requires p + |Live(candidates, s)| < |s.calls|
    requires forall q :: p <= q < |s.calls| ==> s.calls[q] == Removing(0)
    requires forall q :: 0 <= q < p ==> s.calls[q].Marking?
    ensures var t := Run(candidates, s, schedule);
            && t.markers == s.markers && Live(candidates, t) == {} && t.calls[|t.calls| - 1] == Removing(0)
            && (p > 0 || Live(candidates, s) != {} ==> t.calls[0].Marking?)
    decreases |Live(candidates, s)|
  {
    hide Won, Command;
    if Live(candidates, s) == {} {
      schedule := [];
    } else {
      var i :| i in Live(candidates, s);
      var first := WinNext(candidates, s, p, 0, i);
      var t := Run(candidates, s, first);
      var j :| 0 <= j < |candidates| && candidates[j] in s.index && t.index == s.index - {candidates[j]} &&
               t.calls == s.calls[p := Marking(j)];
      LosesOne(candidates, s, t, j);
      var rest := WinAll(candidates, t, p + 1);
      schedule := first + rest;
      RunAppend(candidates, s, first, rest);
    }
  }

  lemma SomeScheduleSlips(candidates: seq<string>, s: System) returns (schedule: seq<nat>)
    requires Fresh(candidates, s) && 0 < |Live(candidates, s)| < |s.calls|
    ensures Slips(Run(candidates, s, schedule))
  {
    var winning := WinAll(candidates, s, 0);
    var t := Run(candidates, s, winning);
    var last := |t.calls| - 1;
    var looking := Alone(last, 2 * |candidates|);
    var w := Waits(map m | m in t.index :: 0, t.markers);
    forall i: nat | i < |candidates| ensures candidates[i] !in w.index {
      assert i !in Live(candidates, t);
    }
    assert w.index.Keys == t.index;
    AloneIsAtomic(candidates, t, last, 0, w);
    assert candidates[0..] == candidates;
    NothingToClaim(w, candidates);
    var u := Run(candidates, t, looking);
    var finish: seq<nat> := [0];
    assert [0] + [] == finish;
    RunCons(candidates, u, 0, []);
    schedule := winning + (looking + finish);
    RunAppend(candidates, s, winning, looking + finish);
    RunAppend(candidates, t, looking, finish);
    var v := Run(candidates, s, schedule);
    assert v == Command(candidates, u, 0);
    assert v.calls[0].Returned? && v.calls[0].decision.Claimed? && v.calls[last] == Returned(Unregistered);
  }

  /** The shortest such schedule: between the winner's ZREM and its marker a copy sees neither entry nor marker. */
  lemma CopyInTheGapIsAdmitted(member: string, s: System)
    requires Fresh([member], s) && |s.calls| >= 2 && member in s.index
    ensures var t := Run([member], s, [0, 1, 1, 0]);
            t.calls[0] == Returned(Claimed(member)) && t.calls[1] == Returned(Unregistered)
  {
    var c := [member];
    var s1 := Command(c, s, 0);
    var s2 := Command(c, s1, 1);
    var s3 := Command(c, s2, 1);
    var s4 := Command(c, s3, 0);
    assert [0] + [1, 1, 0] == [0, 1, 1, 0];
    assert [1] + [1, 0] == [1, 1, 0];
    assert [1] + [0] == [1, 0];
    assert [0] + [] == [0];
    RunCons(c, s, 0, [1, 1, 0]);
    RunCons(c, s1, 1, [1, 0]);
    RunCons(c, s2, 1, [0]);
    RunCons(c, s3, 0, []);
    assert s2.calls[1] == Checking(0);
    assert s3.calls[1] == Returned(Unregistered);
  }

  lemma {:induction false} NothingToClaim(w: Waits, candidates: seq<string>)
    requires forall i :: 0 <= i < |candidates| ==> candidates[i] !in w.index && candidates[i] !in w.markers
    ensures GateOn(w, candidates) == (w, Unregistered)
  {
    if candidates != [] {
      NothingToClaim(w, candidates[1..]);
    }
  }

  /** A copy can slip through beside a claimed one, in some interleaving, exactly when there is a live candidate and
      there are more copies than live candidates: with one registered wait, as soon as there are two copies. */
  lemma CopySlipsThroughExactly(candidates: seq<string>, s: System)
    requires Fresh(candidates, s)
    ensures (exists schedule: seq<nat> :: Slips(Run(candidates, s, schedule))) <==>
            0 < |Live(candidates, s)| < |s.calls|
  {
    if 0 < |Live(candidates, s)| < |s.calls| {
      var schedule := SomeScheduleSlips(candidates, s);
      assert exists x: seq<nat> :: Slips(Run(candidates, s, x));
    }
    if schedule: seq<nat> :| Slips(Run(candidates, s, schedule)) {
      SlippingNeedsMoreCopies(candidates, s, schedule);
    }
  }

  lemma SlippingNeedsMoreCopies(candidates: seq<string>, s: System, schedule: seq<nat>)
    requires Fresh(candidates, s) && Slips(Run(candidates, s, schedule))
    ensures 0 < |Live(candidates, s)| < |s.calls|
  {
    var t := Run(candidates, s, schedule);
    AllPassedKept(candidates, s, schedule);
    WinnersTakeTheLive(candidates, s, schedule);
    assert Winners(s) == {};
    var p, q :| 0 <= p < |t.calls| && 0 <= q < |t.calls| && t.calls[p].Returned? && t.calls[p].decision.Claimed? &&
                t.calls[q] == Returned(Unregistered);
    assert Passed(candidates, t, q);
    assert Live(candidates, t) == {};
    assert p in Winners(t);
    SubsetSize(Winners(t), UpTo(|t.calls|) - {q});
  }

  function UpTo(n: nat): (r: set<nat>)
    ensures |r| == n && forall c: nat :: c in r <==> c < n
  {
    if n == 0 then {} else UpTo(n - 1) + {n - 1}
  }
}
