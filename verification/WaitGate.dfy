/** The idempotency gate (`src/liveness/wait_gate.ts`) and the registration it undoes
    (`src/liveness/wait_registration.ts`), as functions on the wait index and the markers. */
module WaitGate {
  import opened Protocol
  import opened WaitIndex

  /** `index` maps a member to its deadline; `markers` holds the members whose consumed marker is set.
      A session's shard and marker keys are functions of the member, so both are keyed by it. */
  datatype Waits = Waits(index: map<string, int>, markers: set<string>)

  datatype Decision = Claimed(member: string) | Unregistered | AlreadyConsumed(member: string)

  predicate Allows(d: Decision) {
    !d.AlreadyConsumed?
  }

  function Max(a: int, b: int): int {
    if a < b then b else a
  }

  /** The member a reply is meant to clear: a reply's own message id is the caller's and its
      parent message id is the sub-task's. */
  function ResumedMember(h: Header): Member {
    Member(h.sessionId, h.messageId, h.parentMessageId, h.taskGroupId)
  }

  function MemberFromResume(h: Header): string {
    EncodeMember(ResumedMember(h))
  }

  function AskUserMember(h: Header): string {
    EncodeMember(Member(h.sessionId, h.messageId, "", ""))
  }

  function CandidateMembers(h: Header): seq<string> {
    if h.taskGroupId == "" && AskUserMember(h) != MemberFromResume(h)
    then [MemberFromResume(h), AskUserMember(h)]
    else [MemberFromResume(h)]
  }

  function Registered(w: Waits, m: Member, timeoutMs: int, now: int): Waits {
    var key := EncodeMember(m);
    Waits(w.index[key := now + Max(0, timeoutMs)], w.markers - {key})
  }

  /** Candidates are resolved one at a time: claim, then look for the candidate's own marker. */
  function GateOn(w: Waits, candidates: seq<string>): (Waits, Decision) {
    if candidates == [] then (w, Unregistered)
    else
      var member := candidates[0];
      if member in w.index then (Waits(w.index - {member}, w.markers + {member}), Claimed(member))
      else if member in w.markers then (w, AlreadyConsumed(member))
      else GateOn(w, candidates[1..])
  }

  function Gate(w: Waits, h: Header): (Waits, Decision) {
    GateOn(w, CandidateMembers(h))
  }

  /** A reply names the askUser wait of its caller only when it carries neither a sub-task nor a group. */
  lemma AskUserCandidate(h: Header)
    ensures AskUserMember(h) == MemberFromResume(h) <==> h.parentMessageId == "" && h.taskGroupId == ""
    ensures CandidateMembers(h)[0] == MemberFromResume(h)
    ensures |CandidateMembers(h)| == 2 <==> h.taskGroupId == "" && h.parentMessageId != ""
    ensures |CandidateMembers(h)| == 2 ==> CandidateMembers(h) == [MemberFromResume(h), AskUserMember(h)]
  {
    if AskUserMember(h) == MemberFromResume(h) {
      EncodingIsInjective(Member(h.sessionId, h.messageId, "", ""), ResumedMember(h));
    }
  }

  /** The gate, spelled out for its one or two candidates. */
  lemma GateCases(w: Waits, h: Header)
    ensures var first, second := MemberFromResume(h), AskUserMember(h);
            var (w', d) := Gate(w, h);
            if first in w.index then d == Claimed(first) && w' == Waits(w.index - {first}, w.markers + {first})
            else if first in w.markers then d == AlreadyConsumed(first) && w' == w
            else if h.taskGroupId == "" && second in w.index then
              d == Claimed(second) && w' == Waits(w.index - {second}, w.markers + {second})
            else if h.taskGroupId == "" && second in w.markers then d == AlreadyConsumed(second) && w' == w
            else d == Unregistered && w' == w
  {
    AskUserCandidate(h);
    hide EncodeMember;
    var c := CandidateMembers(h);
    assert GateOn(w, []) == (w, Unregistered);
    if |c| == 2 {
      assert c[1..] == [AskUserMember(h)];
      assert c[1..][1..] == [];
      assert GateOn(w, c[1..]) ==
             if c[1] in w.index then (Waits(w.index - {c[1]}, w.markers + {c[1]}), Claimed(c[1]))
             else if c[1] in w.markers then (w, AlreadyConsumed(c[1])) else (w, Unregistered);
    } else {
      assert c == [MemberFromResume(h)];
      assert c[1..] == [];
    }
  }
}

/** What the gate guarantees over whole histories, each gate call being one step. */
module GateHistory {
  import opened Protocol
  import opened WaitIndex
  import opened WaitGate

  /** `Remove` is a prune or a sweeper drop; `Postpone` is a sweeper's new deadline for a present entry. */
  datatype Event =
    | Register(wait: Member, timeoutMs: int, now: int)
    | Reply(header: Header)
    | Remove(member: string)
    | Postpone(member: string, deadline: int)

  function After(w: Waits, e: Event): Waits {
    match e
    case Register(m, timeoutMs, now) => Registered(w, m, timeoutMs, now)
    case Reply(h) => Gate(w, h).0
    case Remove(m) => w.(index := w.index - {m})
    case Postpone(m, deadline) => if m in w.index then w.(index := w.index[m := deadline]) else w
  }

  const NO_WAITS := Waits(map[], {})

  function State(events: seq<Event>): Waits {
    if events == [] then NO_WAITS else After(State(events[..|events| - 1]), events[|events| - 1])
  }

  /** The gate's answer to the reply at position `i`. */
  function Answer(events: seq<Event>, i: nat): Decision
    requires i < |events| && events[i].Reply?
  {
    Gate(State(events[..i]), events[i].header).1
  }

  predicate Registers(e: Event, m: string) {
    e.Register? && EncodeMember(e.wait) == m
  }

  ghost predicate Claims(events: seq<Event>, i: nat, m: string)
    requires i < |events|
  {
    events[i].Reply? && Answer(events, i) == Claimed(m)
  }

  /** Since its registration at `r`, `m` was neither registered again nor removed without a reply. */
  ghost predicate Window(events: seq<Event>, r: nat, m: string) {
    && r < |events| && Registers(events[r], m)
    && forall i :: r < i < |events| ==> !Registers(events[i], m) && events[i] != Remove(m)
  }

  ghost predicate ClaimedSince(events: seq<Event>, r: nat, m: string) {
    exists i :: r < i < |events| && Claims(events, i, m)
  }

  ghost predicate ClaimedUnregistered(events: seq<Event>, m: string) {
    exists i :: 0 <= i < |events| && Claims(events, i, m) && forall k :: i < k < |events| ==> !Registers(events[k], m)
  }

  /** One event's effect on one member. */
  lemma OneEvent(w: Waits, e: Event, m: string)
    ensures Registers(e, m) ==> m in After(w, e).index && m !in After(w, e).markers
    ensures !Registers(e, m) && e != Remove(m) && !(e.Reply? && Gate(w, e.header).1 == Claimed(m)) ==>
              (m in After(w, e).index <==> m in w.index)
    ensures !Registers(e, m) && !(e.Reply? && Gate(w, e.header).1 == Claimed(m)) ==>
              (m in After(w, e).markers <==> m in w.markers)
    ensures e.Reply? && Gate(w, e.header).1 == Claimed(m) ==>
              m in w.index && m !in After(w, e).index && m in After(w, e).markers
    ensures !Registers(e, m) && m !in w.index ==> m !in After(w, e).index
  {
    hide EncodeMember;
    if e.Reply? {
      GateCases(w, e.header);
    }
  }

  lemma PrefixAnswers(events: seq<Event>, n: nat, i: nat)
    requires i < n <= |events| && events[i].Reply?
    ensures Answer(events[..n], i) == Answer(events, i)
  {
    assert events[..n][..i] == events[..i];
  }

  /** How one more event changes whether a member counts as claimed since its last registration. */
  lemma ClaimedOneMore(events: seq<Event>, m: string)
    requires events != []
    ensures var n := |events| - 1;
            ClaimedUnregistered(events, m) <==>
            Claims(events, n, m) || (ClaimedUnregistered(events[..n], m) && !Registers(events[n], m))
  {
    hide EncodeMember;
    var n := |events| - 1;
    var before := events[..n];
    if ClaimedUnregistered(before, m) && !Registers(events[n], m) {
      var i :| 0 <= i < n && Claims(before, i, m) && forall k :: i < k < n ==> !Registers(before[k], m);
      PrefixAnswers(events, n, i);
      assert Claims(events, i, m);
      assert forall k :: i < k < n ==> events[k] == before[k];
    }
    if ClaimedUnregistered(events, m) {
      var i :| 0 <= i < |events| && Claims(events, i, m) && forall k :: i < k < |events| ==> !Registers(events[k], m);
      if i < n {
        PrefixAnswers(events, n, i);
        assert Claims(before, i, m);
        assert forall k :: i < k < n ==> before[k] == events[k];
      }
    }
  }

  /** A marker is present exactly when some call claimed the member and nothing registered it since. */
  lemma {:induction false} MarkerMeansClaimed(events: seq<Event>, m: string)
    ensures m in State(events).markers <==> ClaimedUnregistered(events, m)
  {
    hide EncodeMember;
    if events != [] {
      var n := |events| - 1;
      MarkerMeansClaimed(events[..n], m);
      OneEvent(State(events[..n]), events[n], m);
      ClaimedOneMore(events, m);
    }
  }

  /** Within a window the entry is live until its one claim and marked from then on. */
  lemma {:induction false} WindowState(events: seq<Event>, r: nat, m: string)
    requires Window(events, r, m)
    ensures var w := State(events);
            if ClaimedSince(events, r, m) then m !in w.index && m in w.markers else m in w.index && m !in w.markers
  {
    hide EncodeMember;
    var n := |events| - 1;
    var before := events[..n];
    OneEvent(State(before), events[n], m);
    if r < n {
      assert forall i :: r < i < n ==> before[i] == events[i];
      WindowState(before, r, m);
      if ClaimedSince(before, r, m) {
        var i :| r < i < n && Claims(before, i, m);
        PrefixAnswers(events, n, i);
        assert Claims(events, i, m);
      }
      if events[n].Reply? && Answer(events, n) == Claimed(m) {
        assert Claims(events, n, m);
      }
      if ClaimedSince(events, r, m) && !Claims(events, n, m) {
        var i :| r < i < |events| && Claims(events, i, m);
        PrefixAnswers(events, n, i);
        assert Claims(before, i, m);
      }
    }
  }

  /** Every denial names a candidate of the denied reply which an earlier call claimed after its last
      registration; removals by a prune or a sweep never cause one. */
  lemma DenialNamesAnEarlierClaim(events: seq<Event>, n: nat)
    requires n < |events| && events[n].Reply? && Answer(events, n).AlreadyConsumed?
    ensures var m := Answer(events, n).member;
            && m in CandidateMembers(events[n].header)
            && exists i :: 0 <= i < n && Claims(events, i, m) && forall k :: i < k < n ==> !Registers(events[k], m)
  {
    hide EncodeMember;
    var before := events[..n];
    var h := events[n].header;
    var m := Answer(events, n).member;
    GateCases(State(before), h);
    AskUserCandidate(h);
    MarkerMeansClaimed(before, m);
    var i :| 0 <= i < n && Claims(before, i, m) && forall k :: i < k < n ==> !Registers(before[k], m);
    PrefixAnswers(events, n, i);
    assert Claims(events, i, m);
    assert forall k :: i < k < n ==> before[k] == events[k];
  }

  /** Between two registrations of a wait, the first reply to it is accepted and every later copy denied. */
  lemma FirstReplyWins(events: seq<Event>, n: nat, r: nat)
    requires n < |events| && events[n].Reply?
    requires Window(events[..n], r, MemberFromResume(events[n].header))
    ensures var m := MemberFromResume(events[n].header);
            Answer(events, n) == if ClaimedSince(events[..n], r, m) then AlreadyConsumed(m) else Claimed(m)
  {
    WindowState(events[..n], r, MemberFromResume(events[n].header));
    GateCases(State(events[..n]), events[n].header);
  }

  /** The answer to an askUser wait, whatever parent id the client put on it: should that id name a wait of its own that
      is live or consumed, that wait decides; otherwise the first answer is accepted and every later one denied. */
  lemma FirstAnswerWins(events: seq<Event>, n: nat, r: nat)
    requires n < |events| && events[n].Reply? && events[n].header.taskGroupId == ""
    requires Window(events[..n], r, AskUserMember(events[n].header))
    ensures var (w, own, m) := (State(events[..n]), MemberFromResume(events[n].header),
                                AskUserMember(events[n].header));
            Answer(events, n) ==
            if own != m && own in w.index then Claimed(own)
            else if own != m && own in w.markers then AlreadyConsumed(own)
            else if ClaimedSince(events[..n], r, m) then AlreadyConsumed(m) else Claimed(m)
  {
    WindowState(events[..n], r, AskUserMember(events[n].header));
    GateCases(State(events[..n]), events[n].header);
  }

  /** A reply to a registered wait never touches any other entry; in particular a sub-agent's reply, first copy
      or late duplicate, cannot take the askUser wait of the same caller. */
  lemma SubAgentReplySparesOtherWaits(events: seq<Event>, n: nat, r: nat, other: string)
    requires n < |events| && events[n].Reply?
    requires Window(events[..n], r, MemberFromResume(events[n].header))
    requires other != MemberFromResume(events[n].header)
    ensures var w, w' := State(events[..n]), After(State(events[..n]), events[n]);
            && (other in w'.index <==> other in w.index)
            && (other in w.index ==> w'.index[other] == w.index[other])
            && (other in w'.markers <==> other in w.markers)
  {
    WindowState(events[..n], r, MemberFromResume(events[n].header));
    GateCases(State(events[..n]), events[n].header);
  }
}
