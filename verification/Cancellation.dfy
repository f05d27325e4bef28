/** Cascading cancellation (`src/client.ts`, `src/registry.ts`): a breadth-first walk from the target over the session's
    parent links, and the marks it leaves. */
module Cancellation {
  import opened Protocol
  import opened Store

  // ----- descendants -----

  /** An execution with an empty parent is nobody's child. */
  predicate IsChild(x: Record, p: Record) {
    x.parentMessageId == p.messageId && x.parentMessageId != ""
  }

  /** `x` is `n` links below `root`. */
  ghost predicate Reaches(all: set<Record>, root: Record, x: Record, n: nat)
    decreases n
  {
    x in all && if n == 0 then x == root else exists p :: p in all && IsChild(x, p) && Reaches(all, root, p, n - 1)
  }

  ghost predicate Descends(all: set<Record>, root: Record, x: Record) {
    exists n: nat :: Reaches(all, root, x, n)
  }

  /** The parent links lead from the execution back to itself. */
  ghost predicate OnCycle(all: set<Record>, root: Record) {
    exists n: nat :: n > 0 && Reaches(all, root, root, n)
  }

  ghost predicate DistinctMessages(all: set<Record>) {
    forall x, y :: x in all && y in all && x.messageId == y.messageId ==> x == y
  }

  // ----- the walk -----

  /** The executions naming `id` as their parent, in the order the session lists them. */
  function ChildrenOf(all: seq<Record>, id: string): seq<Record> {
    if all == [] then []
    else
      var last := all[|all| - 1];
      ChildrenOf(all[..|all| - 1], id) + if last.parentMessageId == id && id != "" then [last] else []
  }

  function Children(all: seq<Record>, p: Record): seq<Record> {
    ChildrenOf(all, p.messageId)
  }

  lemma {:induction false} ChildrenAre(all: seq<Record>, p: Record)
    ensures forall x :: x in Children(all, p) <==> x in all && IsChild(x, p)
  {
    if all != [] {
      var n := |all| - 1;
      ChildrenAre(all[..n], p);
      assert all == all[..n] + [all[n]];
    }
  }

  lemma {:induction false} ChildrenAreDistinct(all: seq<Record>, p: Record)
    requires NoDuplicates(all)
    ensures NoDuplicates(Children(all, p))
  {
    if all != [] {
      var n := |all| - 1;
      ChildrenAreDistinct(all[..n], p);
      ChildrenAre(all[..n], p);
      if IsChild(all[n], p) {
        assert all[n] !in all[..n];
        DistinctAppend(Children(all[..n], p), [all[n]]);
      }
    }
  }

  lemma DistinctAppend(a: seq<Record>, b: seq<Record>)
    requires NoDuplicates(a) && NoDuplicates(b) && forall x :: x in b ==> x !in a
    ensures NoDuplicates(a + b)
  {
    forall i, j | 0 <= i < j < |a + b| ensures (a + b)[i] != (a + b)[j] {
      if i < |a| <= j {
        assert b[j - |a|] in b;
      }
    }
  }

  datatype Walk = Walk(seen: seq<Record>, queue: seq<Record>)

  function Turn(all: seq<Record>, w: Walk): Walk
    requires w.queue != []
  {
    Walk(w.seen + [w.queue[0]], w.queue[1..] + Children(all, w.queue[0]))
  }

  /** The walk after `k` turns, or where it stopped before. */
  function Turns(all: seq<Record>, target: Record, k: nat): Walk {
    if k == 0 then Walk([], [target])
    else
      var before := Turns(all, target, k - 1);
      if before.queue == [] then before else Turn(all, before)
  }

  /** Everything met descends from the target, the target included, and is met once. */
  ghost predicate MeetsDescendants(all: seq<Record>, target: Record, met: seq<Record>) {
    target in met && NoDuplicates(met) && forall x :: x in met ==> Descends(Elements(all), target, x)
  }

  /** Everything met but the target was met through a parent already seen. */
  ghost predicate CameFromSeen(target: Record, w: Walk) {
    forall x :: x in w.seen + w.queue && x != target ==> exists p :: p in w.seen && IsChild(x, p)
  }

  /** The children of everything seen have been met. */
  ghost predicate ChildrenMet(all: seq<Record>, w: Walk) {
    forall x, p :: p in w.seen && x in all && IsChild(x, p) ==> x in w.seen + w.queue
  }

  ghost predicate Sound(all: seq<Record>, target: Record, w: Walk) {
    MeetsDescendants(all, target, w.seen + w.queue) && CameFromSeen(target, w) && ChildrenMet(all, w)
  }

  lemma ReachesChild(all: set<Record>, root: Record, p: Record, x: Record)
    requires Descends(all, root, p) && x in all && IsChild(x, p)
    ensures Descends(all, root, x)
    ensures x == root ==> OnCycle(all, root)
  {
    var n: nat :| Reaches(all, root, p, n);
    assert Reaches(all, root, x, n + 1);
  }

  /** A turn sees the head of the queue and meets its children. */
  lemma TurnAppends(all: seq<Record>, w: Walk)
    requires w.queue != []
    ensures var w' := Turn(all, w);
            w'.seen == w.seen + [w.queue[0]] && w'.seen + w'.queue == (w.seen + w.queue) + Children(all, w.queue[0])
  {
    assert w.queue == [w.queue[0]] + w.queue[1..];
  }

  lemma HeadIsUnseen(w: Walk)
    requires w.queue != [] && NoDuplicates(w.seen + w.queue)
    ensures w.queue[0] in w.seen + w.queue && w.queue[0] !in w.seen
  {
    var met := w.seen + w.queue;
    assert met[|w.seen|] == w.queue[0];
    forall i | 0 <= i < |w.seen| ensures w.seen[i] != w.queue[0] {
      assert met[i] == w.seen[i];
    }
  }

  /** While nothing leads back to the target, the children of the head are met for the first time. */
  lemma ChildIsNew(all: seq<Record>, target: Record, w: Walk, x: Record)
    requires DistinctMessages(Elements(all)) && !OnCycle(Elements(all), target)
    requires Sound(all, target, w) && w.queue != [] && x in Children(all, w.queue[0])
    ensures x !in w.seen + w.queue && x in all && IsChild(x, w.queue[0]) && Descends(Elements(all), target, x)
  {
    hide Reaches, OnCycle, Descends, Children, NoDuplicates, ChildrenMet;
    var head := w.queue[0];
    HeadIsUnseen(w);
    ChildrenAre(all, head);
    DescendantsAreListed(Elements(all), target, head);
    ReachesChild(Elements(all), target, head, x);
    if x in w.seen + w.queue {
      var p :| p in w.seen && IsChild(x, p);
      assert p in w.seen + w.queue;
      DescendantsAreListed(Elements(all), target, p);
    }
  }

  /** While nothing leads back to the target, a turn meets only executions not met before. */
  lemma TurnStaysSound(all: seq<Record>, target: Record, w: Walk)
    requires NoDuplicates(all) && DistinctMessages(Elements(all)) && !OnCycle(Elements(all), target)
    requires Sound(all, target, w) && w.queue != []
    ensures Sound(all, target, Turn(all, w))
  {
    var head := w.queue[0];
    var children, met := Children(all, head), w.seen + w.queue;
    forall x | x in children
      ensures x !in met && x in all && IsChild(x, head) && Descends(Elements(all), target, x)
    {
      ChildIsNew(all, target, w, x);
    }
    hide Reaches, OnCycle, Descends, Children, DistinctMessages, Turn;
    TurnAppends(all, w);
    ChildrenAreDistinct(all, head);
    DistinctAppend(met, children);
    ChildrenAre(all, head);
    hide NoDuplicates, IsChild;
    var w' := Turn(all, w);
    assert MeetsDescendants(all, target, w'.seen + w'.queue);
    assert CameFromSeen(target, w') by {
      forall x | x in w'.seen + w'.queue && x != target ensures exists p :: p in w'.seen && IsChild(x, p) {
        if x in children {
          assert head in w'.seen;
        }
      }
    }
    assert ChildrenMet(all, w');
  }

  lemma DescendantsAreListed(all: set<Record>, root: Record, x: Record)
    requires Descends(all, root, x)
    ensures x in all
  {
  }

  lemma StartIsSound(all: seq<Record>, target: Record)
    requires target in all
    ensures Sound(all, target, Walk([], [target]))
  {
    assert Reaches(Elements(all), target, target, 0);
    assert [] + [target] == [target];
  }

  lemma FirstTurn(all: seq<Record>, target: Record)
    ensures Turns(all, target, 0) == Walk([], [target])
  {
  }

  lemma NextTurn(all: seq<Record>, target: Record, k: nat)
    ensures var w := Turns(all, target, k);
            Turns(all, target, k + 1) == if w.queue == [] then w else Turn(all, w)
  {
  }

  lemma {:induction false} AlwaysSound(all: seq<Record>, target: Record, k: nat)
    requires NoDuplicates(all) && DistinctMessages(Elements(all)) && target in all && !OnCycle(Elements(all), target)
    ensures Sound(all, target, Turns(all, target, k))
    ensures Turns(all, target, k).queue != [] ==> |Turns(all, target, k).seen| == k < |all|
  {
    hide OnCycle, Turns, Turn, Sound, NoDuplicates, DistinctMessages;
    if k == 0 {
      FirstTurn(all, target);
      StartIsSound(all, target);
    } else {
      AlwaysSound(all, target, k - 1);
      NextTurn(all, target, k - 1);
      var before := Turns(all, target, k - 1);
      if before.queue != [] {
        TurnStaysSound(all, target, before);
        TurnAppends(all, before);
      }
    }
    SeenFits(all, target, Turns(all, target, k));
  }

  lemma SeenFits(all: seq<Record>, target: Record, w: Walk)
    requires Sound(all, target, w) && NoDuplicates(all)
    ensures |w.seen| + |w.queue| <= |all|
  {
    hide Descends, CameFromSeen, ChildrenMet, NoDuplicates;
    var met := w.seen + w.queue;
    forall x | x in met ensures x in all {
      DescendantsAreListed(Elements(all), target, x);
    }
    DistinctCount(met);
    DistinctCount(all);
    SubsetSize(Elements(met), Elements(all));
  }

  /** A walk that has stopped has seen every descendant of the target, itself included, and nothing else. */
  lemma StoppedHasSeenAll(all: seq<Record>, target: Record, w: Walk)
    requires Sound(all, target, w) && w.queue == []
    ensures NoDuplicates(w.seen) && forall x :: x in w.seen <==> Descends(Elements(all), target, x)
  {
    hide CameFromSeen, NoDuplicates;
    assert w.seen + w.queue == w.seen;
    forall x | Descends(Elements(all), target, x) ensures x in w.seen {
      var n: nat :| Reaches(Elements(all), target, x, n);
      ReachedIsSeen(all, target, w, x, n);
    }
  }

  lemma {:induction false} ReachedIsSeen(all: seq<Record>, target: Record, w: Walk, x: Record, n: nat)
    requires Sound(all, target, w) && w.queue == [] && Reaches(Elements(all), target, x, n)
    ensures x in w.seen
    decreases n
  {
    hide Descends, NoDuplicates, CameFromSeen;
    assert w.seen + w.queue == w.seen;
    if n > 0 {
      var p :| p in Elements(all) && IsChild(x, p) && Reaches(Elements(all), target, p, n - 1);
      ReachedIsSeen(all, target, w, p, n - 1);
    }
  }

  // ----- when the walk stops -----

  /** A path can be followed from its top. */
  lemma {:induction false} FirstStep(all: set<Record>, root: Record, x: Record, n: nat)
    requires Reaches(all, root, x, n) && n > 0
    ensures exists c :: c in all && IsChild(c, root) && Reaches(all, c, x, n - 1)
    decreases n
  {
    var p :| p in all && IsChild(x, p) && Reaches(all, root, p, n - 1);
    if n == 1 {
      assert Reaches(all, x, x, 0);
    } else {
      FirstStep(all, root, p, n - 1);
      var c :| c in all && IsChild(c, root) && Reaches(all, c, p, n - 2);
      assert Reaches(all, c, x, n - 1);
    }
  }

  /** Some execution in the queue still leads to `target`. */
  ghost predicate LeadsBack(all: seq<Record>, target: Record, queue: seq<Record>) {
    exists x, m: nat :: x in queue && Reaches(Elements(all), x, target, m)
  }

  lemma TurnLeadsBack(all: seq<Record>, target: Record, w: Walk)
    requires OnCycle(Elements(all), target) && w.queue != [] && LeadsBack(all, target, w.queue)
    ensures LeadsBack(all, target, Turn(all, w).queue)
  {
    hide Children, Reaches, IsChild;
    var head := w.queue[0];
    assert w.queue == [head] + w.queue[1..];
    var x, m: nat :| x in w.queue && Reaches(Elements(all), x, target, m);
    if x == head {
      var c, n := StepTowards(all, target, head, m);
      ChildrenAre(all, head);
      assert c in Turn(all, w).queue;
    } else {
      assert x in Turn(all, w).queue;
    }
  }

  /** From an execution that leads to the target, a child of it does too, if need be once around. */
  lemma StepTowards(all: seq<Record>, target: Record, x: Record, m: nat) returns (c: Record, n: nat)
    requires OnCycle(Elements(all), target) && Reaches(Elements(all), x, target, m)
    ensures c in all && IsChild(c, x) && Reaches(Elements(all), c, target, n)
  {
    var length: nat := m;
    if m == 0 {
      length :| length > 0 && Reaches(Elements(all), target, target, length);
    }
    FirstStep(Elements(all), x, target, length);
    n := length - 1;
    c :| c in Elements(all) && IsChild(c, x) && Reaches(Elements(all), c, target, n);
  }

  lemma {:induction false} CycleKeepsTheQueueFull(all: seq<Record>, target: Record, k: nat)
    requires OnCycle(Elements(all), target)
    ensures LeadsBack(all, target, Turns(all, target, k).queue)
  {
    hide OnCycle, Turns, Turn;
    if k == 0 {
      FirstTurn(all, target);
      CycleIsListed(all, target);
      assert target in [target];
    } else {
      CycleKeepsTheQueueFull(all, target, k - 1);
      NextTurn(all, target, k - 1);
      var before := Turns(all, target, k - 1);
      assert before.queue != [];
      TurnLeadsBack(all, target, before);
    }
  }

  lemma CycleIsListed(all: seq<Record>, target: Record)
    requires OnCycle(Elements(all), target)
    ensures Reaches(Elements(all), target, target, 0)
  {
    var n: nat :| n > 0 && Reaches(Elements(all), target, target, n);
  }

  /** The walk ends exactly when the parent links do not lead from the target back to itself. */
  lemma WalkEndsExactly(all: seq<Record>, target: Record)
    requires NoDuplicates(all) && DistinctMessages(Elements(all)) && target in all
    ensures (exists k :: Turns(all, target, k).queue == []) <==> !OnCycle(Elements(all), target)
  {
    hide OnCycle, Turns, Sound, NoDuplicates, DistinctMessages, Reaches;
    if OnCycle(Elements(all), target) {
      forall k: nat ensures Turns(all, target, k).queue != [] {
        CycleKeepsTheQueueFull(all, target, k);
      }
    } else {
      AlwaysSound(all, target, |all|);
      assert Turns(all, target, |all|).queue == [];
    }
  }

  /** A session on which it does not end: an execution that names itself as its parent. */
  lemma SelfParentNeverEnds(r: Record, k: nat)
    requires r.parentMessageId == r.messageId && r.messageId != ""
    ensures OnCycle(Elements([r]), r) && Turns([r], r, k).queue != []
  {
    var all := Elements([r]);
    assert r in all && IsChild(r, r);
    assert Reaches(all, r, r, 0);
    assert Reaches(all, r, r, 1);
    hide Turns, Reaches;
    CycleKeepsTheQueueFull([r], r, k);
  }

  // ----- the two lists -----

  function Unfinished(s: seq<Record>): (r: seq<Record>)
    ensures forall x :: x in r <==> x in s && !IsTerminal(x.status)
  {
    if s == [] then [] else Unfinished(s[..|s| - 1]) + if IsTerminal(s[|s| - 1].status) then [] else [s[|s| - 1]]
  }

  function Finished(s: seq<Record>): (r: seq<Record>)
    ensures forall x :: x in r <==> x in s && IsTerminal(x.status)
  {
    if s == [] then [] else Finished(s[..|s| - 1]) + if IsTerminal(s[|s| - 1].status) then [s[|s| - 1]] else []
  }

  lemma {:induction false} SplitKeepsOne(s: seq<Record>)
    requires NoDuplicates(s)
    ensures NoDuplicates(Unfinished(s)) && NoDuplicates(Finished(s))
    ensures |Unfinished(s)| + |Finished(s)| == |s|
  {
    if s != [] {
      SplitKeepsOne(s[..|s| - 1]);
    }
  }

  function Listing(childrenMap: map<string, seq<Record>>, id: string): seq<Record> {
    if id in childrenMap then childrenMap[id] else []
  }

  /** The map lists under each message id the executions naming it as their parent. */
  ghost predicate Groups(childrenMap: map<string, seq<Record>>, all: seq<Record>) {
    forall id :: Listing(childrenMap, id) == ChildrenOf(all, id)
  }

  lemma NothingGrouped()
    ensures Groups(map[], [])
  {
  }

  lemma GroupsOneMore(childrenMap: map<string, seq<Record>>, all: seq<Record>, x: Record)
    requires Groups(childrenMap, all)
    ensures var id := x.parentMessageId;
            Groups(if id == "" then childrenMap else childrenMap[id := Listing(childrenMap, id) + [x]], all + [x])
  {
    var id := x.parentMessageId;
    var more := if id == "" then childrenMap else childrenMap[id := Listing(childrenMap, id) + [x]];
    forall other ensures Listing(more, other) == ChildrenOf(all + [x], other) {
      assert Listing(childrenMap, other) == ChildrenOf(all, other);
      OneMoreChild(all, x, other);
    }
  }

  lemma OneMoreChild(all: seq<Record>, x: Record, id: string)
    ensures ChildrenOf(all + [x], id) ==
            if x.parentMessageId == id && id != "" then ChildrenOf(all, id) + [x] else ChildrenOf(all, id)
  {
    assert (all + [x])[..|all|] == all;
  }

  /** The listed executions by the message id of their parent. */
  method BuildChildrenMap(all: seq<Record>) returns (childrenMap: map<string, seq<Record>>)
    ensures Groups(childrenMap, all)
  {
    hide Groups;
    childrenMap := map[];
    NothingGrouped();
    for i := 0 to |all|
      invariant Groups(childrenMap, all[..i])
    {
      GroupsOneMore(childrenMap, all[..i], all[i]);
      assert all[..i + 1] == all[..i] + [all[i]];
      var parent := all[i].parentMessageId;
      if parent != "" {
        var siblings := if parent in childrenMap then childrenMap[parent] else [];
        childrenMap := childrenMap[parent := siblings + [all[i]]];
      }
    }
    assert all[..|all|] == all;
  }

  /** The walk: every descendant of the target lands on exactly one of the two lists, exactly once, by its status. */
  method CollectDescendants(all: seq<Record>, target: Record) returns (toCancel: seq<Record>, terminal: seq<Record>)
    requires NoDuplicates(all) && DistinctMessages(Elements(all)) && target in all && !OnCycle(Elements(all), target)
    ensures NoDuplicates(toCancel) && NoDuplicates(terminal)
    ensures forall x :: x in toCancel <==> Descends(Elements(all), target, x) && !IsTerminal(x.status)
    ensures forall x :: x in terminal <==> Descends(Elements(all), target, x) && IsTerminal(x.status)
  {
    hide OnCycle, IsTerminal, Sound, Descends, Turns, Turn, Unfinished, Finished, ChildrenOf, Reaches, NoDuplicates,
         DistinctMessages;
    var childrenMap := BuildChildrenMap(all);
    toCancel, terminal := [], [];
    var queue := [target];
    ghost var k: nat := 0;
    ghost var w := Walk([], [target]);
    FirstTurn(all, target);
    NothingSplit();
    while queue != []
      invariant w == Turns(all, target, k) && queue == w.queue
      invariant toCancel == Unfinished(w.seen) && terminal == Finished(w.seen)
      invariant queue != [] ==> k <= |all|
      decreases |all| - k + if queue == [] then 0 else 1
    {
      AlwaysSound(all, target, k + 1);
      NextTurn(all, target, k);
      TurnIs(all, w);
      var current := queue[0];
      SplitGrows(w.seen, current);
      if IsTerminal(current.status) {
        terminal := terminal + [current];
      } else {
        toCancel := toCancel + [current];
      }
      queue := queue[1..] + if current.messageId in childrenMap then childrenMap[current.messageId] else [];
      k, w := k + 1, Turns(all, target, k + 1);
    }
    AlwaysSound(all, target, k);
    StoppedHasSeenAll(all, target, w);
    SplitKeepsOne(w.seen);
  }

  lemma TurnIs(all: seq<Record>, w: Walk)
    requires w.queue != []
    ensures Turn(all, w).seen == w.seen + [w.queue[0]] &&
            Turn(all, w).queue == w.queue[1..] + ChildrenOf(all, w.queue[0].messageId)
  {
  }

  lemma NothingSplit()
    ensures Unfinished([]) == [] && Finished([]) == []
  {
  }

  lemma SplitGrows(s: seq<Record>, x: Record)
    ensures Unfinished(s + [x]) == Unfinished(s) + if IsTerminal(x.status) then [] else [x]
    ensures Finished(s + [x]) == Finished(s) + if IsTerminal(x.status) then [x] else []
  {
    assert (s + [x])[..|s|] == s;
  }

  // ----- the marks -----

  /** A finished execution only remembers that cancellation was asked for; its status stands. */
  function Requested(r: Record, reason: string): Record {
    r.(cancelRequested := true, cancelReason := if reason != "" then reason else r.cancelReason)
  }

  function MarkedCancelling(r: Record, reason: string): Record {
    r.(status := CANCELLING, cancelRequested := true, cancelReason := reason)
  }

  function Mark(r: Record, reason: string): Record {
    if IsTerminal(r.status) then Requested(r, reason) else MarkedCancelling(r, reason)
  }

  /** What cancelling below `target` makes of one execution of the session. */
  ghost function Marked(all: set<Record>, target: Record, reason: string, r: Record): Record {
    if Descends(all, target, r) then Mark(r, reason) else r
  }

  datatype Order = Order(workerId: string, messageId: string, executionId: string, reason: string)

  /** The command sent to the worker of each execution that has one. */
  function Orders(s: seq<Record>, reason: string): seq<Order> {
    if s == [] then []
    else
      var last := s[|s| - 1];
      Orders(s[..|s| - 1], reason) + if last.workerId != ""
          then [Order(last.workerId, last.messageId, last.executionId, reason)] else []
  }

  datatype Status = NotFound | AlreadyFinished | CancelRequested

  datatype Response = Response(success: bool, messageId: string, executionId: string, workerId: string, status: Status,
                               cancelledCount: nat)

  /** One session's executions, by execution id, and the orders sent to workers. */
  class SessionRegistry {
    var executions: map<string, Record>
    var orders: seq<Order>

    ghost predicate Valid()
      reads this
    {
      forall id :: id in executions ==> executions[id].executionId == id
    }

    ghost function All(): set<Record>
      reads this
    {
      set id | id in executions :: executions[id]
    }

    constructor ()
      ensures Valid() && executions == map[] && orders == []
    {
      executions, orders := map[], [];
    }

    method GetAllSessionExecutions() returns (all: seq<Record>)
      requires Valid()
      ensures NoDuplicates(all) && Elements(all) == All()
    {
      all := [];
      var todo := executions.Keys;
      while todo != {}
        invariant todo <= executions.Keys
        invariant NoDuplicates(all)
        invariant forall r :: r in all <==> r.executionId in executions.Keys - todo && executions[r.executionId] == r
      {
        var id :| id in todo;
        all := all + [executions[id]];
        todo := todo - {id};
      }
      assert forall r :: r in all <==> r in All();
    }

    method MarkCancelRequested(executionId: string, reason: string)
      modifies this`executions
      ensures executions == if executionId in old(executions)
                            then old(executions)[executionId := Requested(old(executions)[executionId], reason)]
                                else old(executions)
    {
      if executionId in executions {
        executions := executions[executionId := Requested(executions[executionId], reason)];
      }
    }

    method MarkExecutionCancelling(executionId: string, reason: string)
      modifies this`executions
      ensures executions == if executionId in old(executions)
                            then old(executions)[executionId := MarkedCancelling(old(executions)[executionId], reason)]
                                else old(executions)
    {
      if executionId in executions {
        executions := executions[executionId := MarkedCancelling(executions[executionId], reason)];
      }
    }
  }

  /** What a cancellation makes of one descendant: a finished one only remembers that it was asked for, and keeps its
      own reason if none is given; any other is to stop. */
  ghost predicate IsCancelled(before: Record, after: Record, reason: string) {
    if IsTerminal(before.status)
    then after == before.(cancelRequested := true, cancelReason := if reason == "" then before.cancelReason else reason)
    else after == before.(status := "CANCELLING", cancelRequested := true, cancelReason := reason)
  }

  lemma MarkCancels(r: Record, reason: string)
    ensures IsCancelled(r, Mark(r, reason), reason)
  {
    hide IsTerminal;
  }

  /** `records` is `before` with the executions in `s` marked. */
  ghost predicate MarkedAll(before: map<string, Record>, records: map<string, Record>, s: seq<Record>, reason: string) {
    && records.Keys == before.Keys
    && forall id :: id in before ==>
         if before[id] in s then IsCancelled(before[id], records[id], reason) else records[id] == before[id]
  }

  /** The executions of `s` are listed under their own ids. */
  ghost predicate Listed(before: map<string, Record>, s: seq<Record>) {
    && (forall id :: id in before ==> before[id].executionId == id)
    && (forall x :: x in s ==> x.executionId in before && before[x.executionId] == x)
  }

  lemma MarkOneMore(before: map<string, Record>, records: map<string, Record>, s: seq<Record>, i: nat, reason: string)
    requires i < |s| && NoDuplicates(s) && Listed(before, s) && MarkedAll(before, records, s[..i], reason)
    ensures s[i].executionId in records && records[s[i].executionId] == s[i]
    ensures MarkedAll(before, records[s[i].executionId := Mark(s[i], reason)], s[..i + 1], reason)
  {
    hide Mark, IsCancelled;
    MarkCancels(s[i], reason);
    assert s[i] in s && s[i] !in s[..i];
    assert s[..i + 1] == s[..i] + [s[i]];
  }

  lemma MarkTwice(before: map<string, Record>, mid: map<string, Record>, after: map<string, Record>,
                  terminal: seq<Record>, toCancel: seq<Record>, reason: string)
    requires Listed(before, terminal) && Listed(before, toCancel) && MarkedAll(before, mid, terminal, reason)
    requires (forall x :: x in terminal ==> IsTerminal(x.status)) &&
             (forall x :: x in toCancel ==> !IsTerminal(x.status))
    ensures Listed(mid, toCancel)
    ensures MarkedAll(mid, after, toCancel, reason) ==> MarkedAll(before, after, terminal + toCancel, reason)
  {
    hide IsTerminal;
    forall x | x in toCancel ensures mid[x.executionId] == x {
      assert x !in terminal;
    }
    if MarkedAll(mid, after, toCancel, reason) {
      forall id | id in before
        ensures if before[id] in terminal + toCancel then IsCancelled(before[id], after[id], reason)
                else after[id] == before[id]
      {
        if before[id] in terminal {
          assert IsTerminal(mid[id].status);
        }
      }
    }
  }

  /** Each live execution that has a worker is ordered to stop, by one order to that worker; nobody else is ordered
      anything. */
  ghost predicate OrderedToStop(live: set<Record>, sent: seq<Order>, reason: string) {
    && (forall x :: x in live && x.workerId != "" ==>
          multiset(sent)[Order(x.workerId, x.messageId, x.executionId, reason)] == 1)
    && (forall o :: o in sent ==>
          exists x :: x in live && x.workerId != "" && o == Order(x.workerId, x.messageId, x.executionId, reason))
  }

  lemma OneMoreOrder(live: set<Record>, sent: seq<Order>, reason: string, x: Record)
    requires OrderedToStop(live, sent, reason) && x !in live
    requires forall y :: y in live ==> y.executionId != x.executionId
    ensures var order := Order(x.workerId, x.messageId, x.executionId, reason);
            OrderedToStop(live + {x}, sent + if x.workerId != "" then [order] else [], reason)
  {
    var order := Order(x.workerId, x.messageId, x.executionId, reason);
    var more := sent + if x.workerId != "" then [order] else [];
    assert order !in sent;
    forall y | y in live + {x} && y.workerId != ""
      ensures multiset(more)[Order(y.workerId, y.messageId, y.executionId, reason)] == 1
    {
      if y != x {
        assert y in live && Order(y.workerId, y.messageId, y.executionId, reason) != order;
      }
    }
    forall o | o in more
      ensures exists y :: y in live + {x} && y.workerId != "" &&
                          o == Order(y.workerId, y.messageId, y.executionId, reason)
    {
      if o in sent {
        var y :| y in live && y.workerId != "" && o == Order(y.workerId, y.messageId, y.executionId, reason);
        assert y in live + {x};
      } else {
        assert x in live + {x};
      }
    }
  }

  ghost predicate DistinctExecutions(s: seq<Record>) {
    forall x, y :: x in s && y in s && x.executionId == y.executionId ==> x == y
  }

  lemma LastIsNew(s: seq<Record>)
    requires NoDuplicates(s) && DistinctExecutions(s) && s != []
    ensures var n := |s| - 1;
            && NoDuplicates(s[..n]) && DistinctExecutions(s[..n]) && Elements(s) == Elements(s[..n]) + {s[n]}
            && s[n] !in Elements(s[..n]) && forall y :: y in Elements(s[..n]) ==> y.executionId != s[n].executionId
  {
    var n := |s| - 1;
    assert s == s[..n] + [s[n]];
    forall y | y in Elements(s[..n]) ensures y != s[n] && y.executionId != s[n].executionId {
      var i :| 0 <= i < n && s[i] == y;
      assert y in s && s[n] in s;
    }
  }

  lemma {:induction false} OrdersAre(s: seq<Record>, reason: string)
    requires NoDuplicates(s) && DistinctExecutions(s)
    ensures OrderedToStop(Elements(s), Orders(s, reason), reason)
  {
    hide NoDuplicates, DistinctExecutions;
    if s != [] {
      hide OrderedToStop, Elements;
      LastIsNew(s);
      OrdersAre(s[..|s| - 1], reason);
      OneMoreOrder(Elements(s[..|s| - 1]), Orders(s[..|s| - 1], reason), reason, s[|s| - 1]);
    }
  }

  /** What a cancellation of `target` did to the session and what it reported. */
  ghost predicate Cascaded(before: map<string, Record>, after: map<string, Record>, sent: seq<Order>, target: Record,
                           reason: string, response: Response) {
    var all := set id | id in before :: before[id];
    var live := set x | x in all && Descends(all, target, x) && !IsTerminal(x.status);
    && after.Keys == before.Keys
    && (forall id :: id in before ==>
          if Descends(all, target, before[id]) then IsCancelled(before[id], after[id], reason)
          else after[id] == before[id])
    && response == Response(live != {}, target.messageId, target.executionId, target.workerId,
                            if live == {} then AlreadyFinished else CancelRequested, |live|)
    && OrderedToStop(live, sent, reason)
  }

  lemma CascadeIs(before: map<string, Record>, after: map<string, Record>, sent: seq<Order>, target: Record,
                  reason: string, response: Response,
                  all: seq<Record>, toCancel: seq<Record>, terminal: seq<Record>)
    requires Elements(all) == (set id | id in before :: before[id]) && NoDuplicates(toCancel)
    requires forall id :: id in before ==> before[id].executionId == id
    requires forall x :: x in toCancel <==> Descends(Elements(all), target, x) && !IsTerminal(x.status)
    requires forall x :: x in terminal <==> Descends(Elements(all), target, x) && IsTerminal(x.status)
    requires MarkedAll(before, after, terminal + toCancel, reason) && sent == Orders(toCancel, reason)
    requires response == Response(toCancel != [], target.messageId, target.executionId, target.workerId,
                                  if toCancel == [] then AlreadyFinished else CancelRequested, |toCancel|)
    ensures Cascaded(before, after, sent, target, reason, response)
  {
    hide Descends, IsTerminal, Orders, NoDuplicates, OrderedToStop, Mark, IsCancelled;
    var live := set x | x in Elements(all) && Descends(Elements(all), target, x) && !IsTerminal(x.status);
    forall x | x in toCancel ensures x in live {
      DescendantsAreListed(Elements(all), target, x);
    }
    assert Elements(toCancel) == live;
    DistinctCount(toCancel);
    OrdersAre(toCancel, reason);
    forall id | id in before && Descends(Elements(all), target, before[id])
      ensures IsCancelled(before[id], after[id], reason)
    {
      assert before[id] in terminal + toCancel;
    }
    if toCancel != [] {
      assert toCancel[0] in live;
    }
  }

  lemma UnfinishedMark(r: Record, reason: string)
    requires !IsTerminal(r.status)
    ensures Mark(r, reason) == MarkedCancelling(r, reason)
  {
  }

  lemma OrdersGrow(s: seq<Record>, i: nat, reason: string)
    requires i < |s|
    ensures Orders(s[..i + 1], reason) ==
            Orders(s[..i], reason) +
            if s[i].workerId != "" then [Order(s[i].workerId, s[i].messageId, s[i].executionId, reason)] else []
  {
    assert s[..i + 1][..i] == s[..i];
  }

  lemma ListedAreDistinct(before: map<string, Record>, s: seq<Record>)
    requires Listed(before, s)
    ensures DistinctExecutions(s)
  {
  }

  class GatewayClient {
    const registry: SessionRegistry

    constructor (registry: SessionRegistry)
      ensures this.registry == registry
    {
      this.registry := registry;
    }

    method MarkFinished(terminal: seq<Record>, reason: string)
      requires NoDuplicates(terminal) && Listed(registry.executions, terminal) && forall x :: x in terminal ==>
               IsTerminal(x.status)
      modifies registry`executions
      ensures MarkedAll(old(registry.executions), registry.executions, terminal, reason)
    {
      hide MarkedAll, Listed, IsTerminal;
      NothingMarked(registry.executions, reason);
      for i := 0 to |terminal|
        invariant MarkedAll(old(registry.executions), registry.executions, terminal[..i], reason)
      {
        MarkOneMore(old(registry.executions), registry.executions, terminal, i, reason);
        registry.MarkCancelRequested(terminal[i].executionId, reason);
      }
      assert terminal[..|terminal|] == terminal;
    }

    method CancelUnfinished(toCancel: seq<Record>, reason: string) returns (cancelledCount: nat)
      requires NoDuplicates(toCancel) && Listed(registry.executions, toCancel) && forall x :: x in toCancel ==>
               !IsTerminal(x.status)
      modifies registry
      ensures MarkedAll(old(registry.executions), registry.executions, toCancel, reason)
      ensures registry.orders == old(registry.orders) + Orders(toCancel, reason) && cancelledCount == |toCancel|
      ensures OrderedToStop(Elements(toCancel), registry.orders[|old(registry.orders)|..], reason)
    {
      hide MarkedAll, Listed, IsTerminal, OrderedToStop, DistinctExecutions, Orders, NoDuplicates, Elements,
           IsCancelled,
           Mark, MarkedCancelling;
      ListedAreDistinct(registry.executions, toCancel);
      OrdersAre(toCancel, reason);
      OrdersOfNone(reason);
      NothingMarked(registry.executions, reason);
      cancelledCount := 0;
      for i := 0 to |toCancel|
        invariant cancelledCount == i
        invariant MarkedAll(old(registry.executions), registry.executions, toCancel[..i], reason)
        invariant registry.orders == old(registry.orders) + Orders(toCancel[..i], reason)
      {
        var exec := toCancel[i];
        OrdersGrow(toCancel, i, reason);
        assert exec in toCancel;
        UnfinishedMark(exec, reason);
        MarkOneMore(old(registry.executions), registry.executions, toCancel, i, reason);
        registry.MarkExecutionCancelling(exec.executionId, reason);
        if exec.workerId != "" {
          registry.orders := registry.orders + [Order(exec.workerId, exec.messageId, exec.executionId, reason)];
        }
        cancelledCount := cancelledCount + 1;
      }
      assert toCancel[..|toCancel|] == toCancel;
      assert registry.orders[|old(registry.orders)|..] == Orders(toCancel, reason);
    }

    /** `cancelTask`: marks the target and everything below it, and reports how many were not finished yet. */
    method CancelTask(messageId: string, sessionId: string, reason: string) returns (response: Response)
      requires registry.Valid() && DistinctMessages(registry.All())
      requires forall r :: r in registry.All() && r.messageId == messageId && r.sessionId == sessionId ==>
               !OnCycle(registry.All(), r)
      modifies registry
      ensures (forall r :: r in old(registry.All()) ==> r.messageId != messageId) ==>
                response == Response(false, messageId, "", "", NotFound, 0)
                && registry.executions == old(registry.executions) && registry.orders == old(registry.orders)
      ensures forall target :: target in old(registry.All()) && target.messageId == messageId &&
                               target.sessionId != sessionId ==>
                response == Response(false, messageId, target.executionId, target.workerId, NotFound, 0)
                && registry.executions == old(registry.executions) && registry.orders == old(registry.orders)
      ensures forall target :: target in old(registry.All()) && target.messageId == messageId &&
                               target.sessionId == sessionId ==>
                old(registry.orders) <= registry.orders &&
                Cascaded(old(registry.executions), registry.executions, registry.orders[|old(registry.orders)|..],
                         target, reason, response)
    {
      hide OnCycle, Descends, IsTerminal, Orders, MarkedAll, Cascaded, Requested, MarkedCancelling;
      var all := registry.GetAllSessionExecutions();
      assert forall r :: r in all <==> r in Elements(all);
      var i := 0;
      while i < |all| && all[i].messageId != messageId
        invariant 0 <= i <= |all| && forall j :: 0 <= j < i ==> all[j].messageId != messageId
      {
        i := i + 1;
      }
      if i == |all| {
        return Response(false, messageId, "", "", NotFound, 0);
      }
      var target := all[i];
      assert target in old(registry.All());
      if target.sessionId != sessionId {
        return Response(false, messageId, target.executionId, target.workerId, NotFound, 0);
      }
      ghost var before := registry.executions;
      var toCancel, terminal := CollectDescendants(all, target);
      DescendantsAreUnderTheirIds(before, all, target, toCancel);
      DescendantsAreUnderTheirIds(before, all, target, terminal);
      MarkFinished(terminal, reason);
      ghost var mid := registry.executions;
      if toCancel == [] {
        NothingMarked(mid, reason);
        MarkTwice(before, mid, mid, terminal, [], reason);
        response := Response(false, messageId, target.executionId, target.workerId, AlreadyFinished, 0);
        OrdersOfNone(reason);
        CascadeIs(before, mid, [], target, reason, response, all, [], terminal);
        assert registry.orders[|old(registry.orders)|..] == [];
        return;
      }
      MarkTwice(before, mid, mid, terminal, toCancel, reason);
      var count := CancelUnfinished(toCancel, reason);
      MarkTwice(before, mid, registry.executions, terminal, toCancel, reason);
      response := Response(true, messageId, target.executionId, target.workerId, CancelRequested, count);
      assert registry.orders[|old(registry.orders)|..] == Orders(toCancel, reason);
      CascadeIs(before, registry.executions, Orders(toCancel, reason), target, reason, response, all, toCancel,
                terminal);
    }
  }

  lemma NothingMarked(before: map<string, Record>, reason: string)
    ensures MarkedAll(before, before, [], reason)
  {
  }

  lemma OrdersOfNone(reason: string)
    ensures Orders([], reason) == []
  {
  }

  lemma DescendantsAreUnderTheirIds(before: map<string, Record>, all: seq<Record>, target: Record, s: seq<Record>)
    requires forall id :: id in before ==> before[id].executionId == id
    requires Elements(all) == (set id | id in before :: before[id])
    requires forall x :: x in s ==> Descends(Elements(all), target, x)
    ensures Listed(before, s)
  {
    hide Descends;
    forall x | x in s ensures x.executionId in before && before[x.executionId] == x {
      DescendantsAreListed(Elements(all), target, x);
    }
  }

  // ----- what the marks mean -----

  /** Terminal statuses stand; every other descendant is marked to stop; nobody else is touched. */
  lemma MarksExactlyTheFamily(all: set<Record>, target: Record, reason: string, r: Record)
    requires !r.cancelRequested
    ensures Marked(all, target, reason, r).cancelRequested <==> Descends(all, target, r)
    ensures Descends(all, target, r) ==> IsCancelled(r, Marked(all, target, reason, r), reason)
    ensures IsTerminal(r.status) ==> Marked(all, target, reason, r).status == r.status
    ensures !IsTerminal(r.status) && Descends(all, target, r) ==> !IsTerminal(Marked(all, target, reason, r).status)
  {
    StatusesDiffer();
    hide Descends;
  }

  /** Of the descendants a sweep would call finished, exactly those with an undecorated status keep it: one whose status
      was decorated with its reason is counted as unfinished and its status overwritten. */
  lemma FinishedStatusStandsExactly(all: set<Record>, target: Record, reason: string, r: Record)
    requires Descends(all, target, r) && IsTerminal(BaseStatus(r.status))
    ensures Marked(all, target, reason, r).status == r.status <==> IsTerminal(r.status)
    ensures !IsTerminal(r.status) ==> Marked(all, target, reason, r).status == CANCELLING
  {
    CancellingBase();
    StatusesDiffer();
    hide Descends, BaseStatus, IsTerminal;
  }

  /** The reply of an aborted group is the decorated status the code writes. */
  lemma DecoratedStatusIsOverwritten(all: set<Record>, target: Record, reason: string, r: Record)
    requires r.status == GROUP_ABORTED && Descends(all, target, r)
    ensures IsTerminal(BaseStatus(r.status)) && Marked(all, target, reason, r).status == CANCELLING
  {
    GroupAbortBase();
    StatusesDiffer();
    hide Descends, BaseStatus;
  }

  /** Marking changes neither ids nor links, so a second cancellation meets the same executions. */
  lemma MarkingKeepsTheTree(all: set<Record>, target: Record, reason: string, x: Record, p: Record)
    ensures IsChild(Marked(all, target, reason, x), Marked(all, target, reason, p)) <==> IsChild(x, p)
    ensures Marked(all, target, reason, x).messageId == x.messageId
  {
    hide Descends;
  }
}
