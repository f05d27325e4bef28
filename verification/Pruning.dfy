/** Pruning by age (`src/liveness/wait_sweeper.ts`, `src/registry.ts`): why an entry beyond the threshold belongs to an
    expired session, when it does not, and what is lost then. */
module Pruning {
  import opened Protocol
  import opened WaitIndex
  import opened WaitGate
  import opened Store
  import opened Sweeper

  const SESSION_TTL_MS := SESSION_TTL_SECONDS * 1000
  const PRUNE_AFTER_MS := PRUNE_AFTER_SECONDS * 1000
  const DAY_MS := 86400 * 1000

  /** What happens to one shard of the index and to the sessions' records. `Write` is a registration or a postponement:
      the writer's clock plus an offset that is never negative. `Refresh` is any write to a session's records, which
      sets its expiry anew. */
  datatype Event =
    | Write(member: string, now: int, offset: nat)
    | Remove(member: string)
    | Refresh(sessionId: string, now: int)

  function IndexAfter(h: seq<Event>): map<string, int> {
    if h == [] then map[]
    else
      var before := IndexAfter(h[..|h| - 1]);
      match h[|h| - 1]
      case Write(m, now, offset) => before[m := now + offset]
      case Remove(m) => before - {m}
      case Refresh(_, _) => before
  }

  /** When the session's records expire, if anything was ever written to them. */
  function ExpiresAt(h: seq<Event>, sessionId: string): Option<int> {
    if h == [] then None
    else if h[|h| - 1].Refresh? && h[|h| - 1].sessionId == sessionId then Some(h[|h| - 1].now + SESSION_TTL_MS)
    else ExpiresAt(h[..|h| - 1], sessionId)
  }

  ghost predicate Alive(h: seq<Event>, sessionId: string, now: int) {
    ExpiresAt(h, sessionId).Some? && now < ExpiresAt(h, sessionId).value
  }

  predicate Timed(e: Event) {
    e.Write? || e.Refresh?
  }

  /** The clock does not run backwards, up to `now`. */
  ghost predicate Ordered(h: seq<Event>, now: int) {
    && (forall i, j :: 0 <= i < j < |h| && Timed(h[i]) && Timed(h[j]) ==> h[i].now <= h[j].now)
    && (forall i :: 0 <= i < |h| && Timed(h[i]) ==> h[i].now <= now)
  }

  /** The position of the write the entry's score comes from. */
  ghost predicate LastWrite(h: seq<Event>, m: string, w: nat) {
    && w < |h| && h[w].Write? && h[w].member == m
    && forall j :: w < j < |h| ==> !(h[j].Write? && h[j].member == m)
  }

  lemma {:induction false} ScoreIsWritten(h: seq<Event>, m: string) returns (w: nat)
    requires m in IndexAfter(h)
    ensures LastWrite(h, m, w) && IndexAfter(h)[m] == h[w].now + h[w].offset
  {
    var n := |h| - 1;
    if h[n].Write? && h[n].member == m {
      w := n;
    } else {
      w := ScoreIsWritten(h[..n], m);
      assert h[..n][w] == h[w] && forall j :: 0 <= j < n ==> h[..n][j] == h[j];
    }
  }

  lemma {:induction false} AliveMeansRefreshed(h: seq<Event>, sessionId: string, now: int)
    requires Ordered(h, now)
    ensures Alive(h, sessionId, now) <==>
            exists j :: 0 <= j < |h| && h[j].Refresh? && h[j].sessionId == sessionId && now < h[j].now + SESSION_TTL_MS
  {
    if h != [] {
      var n := |h| - 1;
      var before := h[..n];
      assert forall j :: 0 <= j < n ==> before[j] == h[j];
      AliveMeansRefreshed(before, sessionId, now);
      if h[n].Refresh? && h[n].sessionId == sessionId {
        assert Alive(h, sessionId, now) <==> now < h[n].now + SESSION_TTL_MS;
      } else {
        assert Alive(h, sessionId, now) <==> Alive(before, sessionId, now);
        if Alive(before, sessionId, now) {
          var j :| 0 <= j < |before| && before[j].Refresh? && before[j].sessionId == sessionId &&
                   now < before[j].now + SESSION_TTL_MS;
          assert h[j] == before[j];
        }
      }
    }
  }

  /** The records a reader finds are those of the sessions still alive. */
  ghost predicate Current(db: Db, h: seq<Event>, now: int) {
    db.waits.index == IndexAfter(h) && forall key :: key in db.records ==> Alive(h, key.0, now)
  }

  /** Something wrote to the session's records more than a day after write `w`, and recently enough to keep them. */
  ghost predicate RefreshedSince(h: seq<Event>, sessionId: string, w: nat, now: int)
    requires w < |h| && h[w].Write?
  {
    exists j :: w < j < |h| && h[j].Refresh? && h[j].sessionId == sessionId &&
                now < h[j].now + SESSION_TTL_MS && h[w].now + DAY_MS < h[j].now
  }

  /** Whatever pruning removes was last written at `w`; the session it belongs to has expired by then unless something
      refreshed that session more than a day after that write; and of an expired session an examination would only have
      said that the caller is missing. */
  lemma PrunedSessionHasExpired(h: seq<Event>, db: Db, cfg: Config, now: int, m: string, entry: Member)
    returns (w: nat)
    requires Ordered(h, now) && Current(db, h, now)
    requires m in db.waits.index && m !in Pruned(db, now).waits.index && DecodeMember(m) == Decoded(entry)
    ensures LastWrite(h, m, w) && db.waits.index[m] == h[w].now + h[w].offset
    ensures Alive(h, entry.sessionId, now) <==> RefreshedSince(h, entry.sessionId, w, now)
    ensures !RefreshedSince(h, entry.sessionId, w, now) ==>
            Decide(db, cfg, now, m, db.waits.index[m]) == Drop(CallerMissing)
  {
    w := ScoreIsWritten(h, m);
    AliveMeansRefreshed(h, entry.sessionId, now);
    if Alive(h, entry.sessionId, now) {
      var j :| 0 <= j < |h| && h[j].Refresh? && h[j].sessionId == entry.sessionId && now < h[j].now + SESSION_TTL_MS;
      assert Timed(h[j]) && Timed(h[w]);
      assert w < j;
      assert RefreshedSince(h, entry.sessionId, w, now);
    } else {
      hide Alive, DecodeMember;
      assert Lookup(db, entry.parentMessageId, entry.sessionId).None?;
    }
  }

  /** Such a session: one write on the sixth day keeps its records until after the eighth, when its wait is pruned. */
  lemma RefreshedSessionLosesItsWait(db: Db, m: string, sessionId: string)
    requires db.waits.index == IndexAfter([Refresh(sessionId, 0), Write(m, 0, 0), Refresh(sessionId, 6 * DAY_MS)])
    ensures var h := [Refresh(sessionId, 0), Write(m, 0, 0), Refresh(sessionId, 6 * DAY_MS)];
            && Ordered(h, PRUNE_AFTER_MS) && Alive(h, sessionId, PRUNE_AFTER_MS) && Alive(h[..2], sessionId, 6 * DAY_MS)
            && m in db.waits.index && m !in Pruned(db, PRUNE_AFTER_MS).waits.index
  {
    var first, second, third := Refresh(sessionId, 0), Write(m, 0, 0), Refresh(sessionId, 6 * DAY_MS);
    var h := [first, second, third];
    assert h[..2] == [first, second] && h[..2][..1] == [first] && [first][..0] == [];
    assert IndexAfter(h) == IndexAfter(h[..2]);
    assert IndexAfter(h[..2]) == IndexAfter([first])[m := 0];
    assert ExpiresAt(h[..2], sessionId) == ExpiresAt([first], sessionId) == Some(SESSION_TTL_MS);
  }

  /** No other entry the reply could clear is live or marked. */
  ghost predicate OthersUnknown(w: Waits, h: Header, m: string) {
    forall c :: c in CandidateMembers(h) && c != m ==> c !in w.index && c !in w.markers
  }

  lemma CandidatesAre(h: Header, m: string)
    ensures m in CandidateMembers(h) <==> m == MemberFromResume(h) || (h.taskGroupId == "" && m == AskUserMember(h))
  {
    AskUserCandidate(h);
  }

  /** Where a refreshed session keeps its records, pruning forgets waits that are still waited on, whether for a
      sub-task or for the user. Such an entry would have admitted one reply and denied its copies; once it is pruned
      every copy is let through, exactly if no other entry the reply could clear is known. */
  lemma PruningForgetsALiveWait(db: Db, cfg: Config, now: int, h: Header, m: string)
    requires m in CandidateMembers(h) && m in db.waits.index && m !in db.waits.markers
    requires m !in Pruned(db, now).waits.index
    ensures Decide(db, cfg, now, m, db.waits.index[m]).Drop? <==> NobodyWaits(db, m)
    ensures OthersUnknown(db.waits, h, m) ==>
              Gate(db.waits, h).1 == Claimed(m) && Gate(Gate(db.waits, h).0, h).1 == AlreadyConsumed(m)
    ensures var pruned := Pruned(db, now).waits;
            Gate(pruned, h) == (pruned, Unregistered) <==> OthersUnknown(pruned, h, m)
  {
    DropsAndLeavesExactlyWhen(db, cfg, now, m, db.waits.index[m]);
    CandidatesAre(h, MemberFromResume(h));
    CandidatesAre(h, AskUserMember(h));
    CandidatesAre(h, m);
    forall c | c in CandidateMembers(h) ensures c == MemberFromResume(h) ||
        (h.taskGroupId == "" && c == AskUserMember(h)) {
      CandidatesAre(h, c);
    }
    GateCases(db.waits, h);
    GateCases(Gate(db.waits, h).0, h);
    GateCases(Pruned(db, now).waits, h);
    hide Decide, Gate, EncodeMember, CandidateMembers, NobodyWaits;
  }

  /** What a store with one unmarked entry answers: one reply claims it, its copies are denied, and without the entry
      every copy passes. */
  lemma OneEntryGates(db: Db, cfg: Config, now: int, h: Header)
    requires var m := MemberFromResume(h);
             && db.waits.index.Keys == {m} && db.waits.markers == {} && m !in Pruned(db, now).waits.index
    ensures var m := MemberFromResume(h);
            && Gate(db.waits, h).1 == Claimed(m) && Gate(Gate(db.waits, h).0, h).1 == AlreadyConsumed(m)
    ensures var pruned := Pruned(db, now).waits; Gate(pruned, h) == (pruned, Unregistered)
  {
    hide Gate, EncodeMember, CandidateMembers, Decide, NobodyWaits;
    var m := MemberFromResume(h);
    CandidatesAre(h, m);
    PruningForgetsALiveWait(db, cfg, now, h, m);
  }

  /** A store where it happens: the session was last written on the sixth day, its caller still waits for its sub-task,
      and on the eighth day the wait is pruned. Two copies of the reply, of which the second was denied before, both
      pass then. */
  lemma SuspendedCallerLosesItsWait(caller: Record, h: Header) returns (db: Db)
    requires caller.status == WAITING_AGENT && h.sessionId != "" && h.parentMessageId != "" && h.taskGroupId == ""
    ensures var m := MemberFromResume(h);
            && Current(db, [Refresh(h.sessionId, 0), Write(m, 0, 0), Refresh(h.sessionId, 6 * DAY_MS)], PRUNE_AFTER_MS)
            && Lookup(db, h.messageId, h.sessionId) == Some(caller) && SomebodyWaits(db, ResumedMember(h))
            && Gate(db.waits, h).1 == Claimed(m) && Gate(Gate(db.waits, h).0, h).1 == AlreadyConsumed(m)
    ensures var pruned := Pruned(db, PRUNE_AFTER_MS).waits;
            && Gate(pruned, h) == (pruned, Unregistered)
            && Gate(Gate(pruned, h).0, h) == (pruned, Unregistered)
  {
    WaitingAgentBase();
    WaitingIsSuspended();
    hide Gate, EncodeMember, Alive, BaseStatus, IsSuspended, IndexAfter, Pruned, Ordered;
    var m := MemberFromResume(h);
    var hist := [Refresh(h.sessionId, 0), Write(m, 0, 0), Refresh(h.sessionId, 6 * DAY_MS)];
    db := Db(Waits(IndexAfter(hist), {}), map[], map[(h.sessionId, h.messageId) := caller], map[], map[], {}, [], []);
    RefreshedSessionLosesItsWait(db, m, h.sessionId);
    OnlyEntry(hist, m);
    OneEntryGates(db, Config("", 0, false, ""), PRUNE_AFTER_MS, h);
  }

  lemma OnlyEntry(h: seq<Event>, m: string)
    requires |h| == 3 && h[0].Refresh? && h[1] == Write(m, 0, 0) && h[2].Refresh?
    ensures IndexAfter(h) == map[m := 0]
  {
    assert h[..2] == [h[0], h[1]] && h[..2][..1] == [h[0]] && [h[0]][..0] == [];
    assert IndexAfter([h[0]]) == map[];
    assert IndexAfter(h[..2]) == map[m := 0];
  }
}
