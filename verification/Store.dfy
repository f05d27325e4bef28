/** The shared state every component reads and writes: what Redis holds, as plain values, and the commands
    the components issue against it. */
module Store {
  import opened Protocol
  import opened WaitIndex
  import opened WaitGate

  /** The tracker hash of one Task Group. */
  datatype Group = Group(total: int, completed: int, aborted: bool)

  /** A command appended to an agent type's control stream. */
  datatype Posted = Posted(stream: string, command: Command)

  datatype Db = Db(
    waits: Waits,
    origins: map<string, int>,
    records: map<(string, string), Record>,
    groups: map<string, Group>,
    results: map<string, map<string, StoredResult>>,
    online: set<string>,
    ctrl: seq<Posted>,
    cancels: seq<(string, string)>)

  /** `getExecutionByMessageId`: nothing is found without a session. */
  function Lookup(db: Db, messageId: string, sessionId: string): Option<Record> {
    if sessionId != "" && (sessionId, messageId) in db.records then Some(db.records[(sessionId, messageId)]) else None
  }

  function WithResult(db: Db, group: string, child: string, r: StoredResult): Db {
    var fields := if group in db.results then db.results[group] else map[];
    db.(results := db.results[group := fields[child := r]])
  }

  /** The server, its keys as fields. */
  class Redis {
    var index: map<string, int>
    var markers: set<string>
    var origins: map<string, int>
    var records: map<(string, string), Record>
    var groups: map<string, Group>
    var results: map<string, map<string, StoredResult>>
    var online: set<string>
    var ctrl: seq<Posted>
    var cancels: seq<(string, string)>

    ghost function View(): Db
      reads this
    {
      Db(Waits(index, markers), origins, records, groups, results, online, ctrl, cancels)
    }

    constructor (online: set<string>)
      ensures View() == Db(Waits(map[], {}), map[], map[], map[], map[], online, [], [])
    {
      index, markers, origins, records, groups, results, ctrl, cancels := map[], {}, map[], map[], map[], map[], [], [];
      this.online := online;
    }

    method ZAdd(member: string, score: int)
      modifies this`index
      ensures index == old(index)[member := score]
    {
      index := index[member := score];
    }

    method ZRem(member: string) returns (removed: nat)
      modifies this`index
      ensures index == old(index) - {member}
      ensures removed == if member in old(index) then 1 else 0
    {
      removed := if member in index then 1 else 0;
      index := index - {member};
    }

    /** ZREMRANGEBYSCORE over the scores from zero to `cutoff`. */
    method ZRemRangeByScore(cutoff: int) returns (removed: nat)
      modifies this`index
      ensures index == map m | m in old(index) && !(0 <= old(index)[m] <= cutoff) :: old(index)[m]
      ensures removed == |old(index)| - |index|
    {
      var kept := map m | m in index && !(0 <= index[m] <= cutoff) :: index[m];
      SubsetSize(kept.Keys, index.Keys);
      removed := |index| - |kept|;
      index := kept;
    }

    method XAdd(stream: string, command: Command)
      modifies this`ctrl
      ensures ctrl == old(ctrl) + [Posted(stream, command)]
    {
      ctrl := ctrl + [Posted(stream, command)];
    }

    /** SET key value EX ttl NX. */
    method SetOriginNX(member: string, value: int)
      modifies this`origins
      ensures origins == if member in old(origins) then old(origins) else old(origins)[member := value]
    {
      if member !in origins {
        origins := origins[member := value];
      }
    }

    method HSetResult(group: string, child: string, r: StoredResult)
      modifies this`results
      ensures View() == WithResult(old(View()), group, child, r)
    {
      var fields := if group in results then results[group] else map[];
      results := results[group := fields[child := r]];
    }

    method GetExecutionByMessageId(messageId: string, sessionId: string) returns (r: Option<Record>)
      ensures r == Lookup(View(), messageId, sessionId)
    {
      if sessionId == "" || (sessionId, messageId) !in records {
        return None;
      }
      return Some(records[(sessionId, messageId)]);
    }
  }

  lemma {:induction false} SubsetSize<T>(a: set<T>, b: set<T>)
    requires a <= b
    ensures |a| <= |b|
  {
    if a != {} {
      var x :| x in a;
      SubsetSize(a - {x}, b - {x});
    }
  }

  ghost function Elements<T>(s: seq<T>): set<T> {
    set x | x in s
  }

  ghost predicate NoDuplicates<T>(s: seq<T>) {
    forall i, j :: 0 <= i < j < |s| ==> s[i] != s[j]
  }

  lemma {:induction false} DistinctCount<T>(s: seq<T>)
    requires NoDuplicates(s)
    ensures |Elements(s)| == |s|
  {
    if s != [] {
      var n := |s| - 1;
      DistinctCount(s[..n]);
      assert Elements(s) == Elements(s[..n]) + {s[n]} by {
        assert s == s[..n] + [s[n]];
      }
      assert s[n] !in Elements(s[..n]);
    } else {
      assert Elements(s) == {};
    }
  }
}
