/** kahnSort of worker/dag/dependency.go: in-degree counting, the breadth-first queue, and the proof
    that the verdict is exact and the order a topological one, whatever order the maps are walked in. */
module Kahn {
  import opened Graphs

  datatype SortResult = Sorted(order: seq<Id>) | CyclicDependency

  /** Entries of a dependency list that are not done yet, counted with multiplicity. */
  function Pending(deps: seq<Id>, done: set<Id>): nat {
    if deps == [] then 0
    else Pending(deps[..|deps| - 1], done) + if deps[|deps| - 1] in done then 0 else 1
  }

  /** How often `x` occurs in `s`. */
  function Count(s: seq<Id>, x: Id): nat {
    if s == [] then 0
    else Count(s[..|s| - 1], x) + if s[|s| - 1] == x then 1 else 0
  }

  lemma CountSnoc(s: seq<Id>, y: Id)
    ensures forall x :: Count(s + [y], x) == Count(s, x) + if y == x then 1 else 0
  {
    assert (s + [y])[..|s|] == s;
  }

  lemma {:induction false} CountPositive(s: seq<Id>, x: Id)
    ensures Count(s, x) > 0 <==> x in s
  {
    if s != [] {
      assert s == s[..|s| - 1] + [s[|s| - 1]];
      CountPositive(s[..|s| - 1], x);
    }
  }

  lemma {:induction false} CountPrefix(s: seq<Id>, k: nat, x: Id)
    requires k <= |s|
    ensures Count(s[..k], x) <= Count(s, x)
  {
    if k == |s| {
      assert s[..k] == s;
    } else {
      var init := s[..|s| - 1];
      assert init[..k] == s[..k];
      CountPrefix(init, k, x);
    }
  }

  lemma {:induction false} PendingAfter(deps: seq<Id>, done: set<Id>, n: Id)
    requires n !in done
    ensures Pending(deps, done) == Pending(deps, done + {n}) + Count(deps, n)
  {
    if deps != [] {
      PendingAfter(deps[..|deps| - 1], done, n);
    }
  }

  lemma {:induction false} PendingZero(deps: seq<Id>, done: set<Id>)
    ensures Pending(deps, done) == 0 <==> Elements(deps) <= done
  {
    if deps != [] {
      var init, last := deps[..|deps| - 1], deps[|deps| - 1];
      assert deps == init + [last];
      assert Elements(deps) == Elements(init) + {last};
      PendingZero(init, done);
    }
  }

  lemma {:induction false} PendingAll(deps: seq<Id>)
    ensures Pending(deps, {}) == |deps|
  {
    if deps != [] {
      PendingAll(deps[..|deps| - 1]);
    }
  }

  function ListAt(m: map<Id, seq<Id>>, k: Id): seq<Id> {
    if k in m then m[k] else []
  }

  /** `dependents` is the graph turned round, each edge as often as it is declared. */
  ghost predicate Reverses(dependents: map<Id, seq<Id>>, g: Graph, seen: set<Id>) {
    forall n, d :: Count(ListAt(dependents, d), n) == if n in seen then Count(DepsOf(g, n), d) else 0
  }

  /** One declared edge. */
  method AddEdge(node: Id, dep: Id, inDegree0: map<Id, nat>, dependents0: map<Id, seq<Id>>)
    returns (inDegree: map<Id, nat>, dependents: map<Id, seq<Id>>)
    requires node in inDegree0
    ensures inDegree.Keys == inDegree0.Keys + {dep}
    ensures forall n :: n in inDegree ==>
              inDegree[n] == (if n in inDegree0 then inDegree0[n] else 0) + (if n == node then 1 else 0)
    ensures forall n, d ::
              Count(ListAt(dependents, d), n)
              == Count(ListAt(dependents0, d), n) + (if n == node && d == dep then 1 else 0)
  {
    inDegree := inDegree0;
    if dep !in inDegree {
      inDegree := inDegree[dep := 0];
    }
    inDegree := inDegree[node := inDegree[node] + 1];
    CountSnoc(ListAt(dependents0, dep), node);
    dependents := dependents0[dep := ListAt(dependents0, dep) + [node]];
  }

  /** The edges of `node` listed in `deps` have been counted. */
  ghost predicate NodeCounted(node: Id, deps: seq<Id>, inDegree0: map<Id, nat>, dependents0: map<Id, seq<Id>>,
                              inDegree: map<Id, nat>, dependents: map<Id, seq<Id>>)
  {
    && inDegree.Keys == inDegree0.Keys + Elements(deps)
    && (forall n :: n in inDegree ==>
          inDegree[n] == (if n == node then |deps| else if n in inDegree0 then inDegree0[n] else 0))
    && forall n, d ::
         Count(ListAt(dependents, d), n) == Count(ListAt(dependents0, d), n) + (if n == node then Count(deps, d) else 0)
  }

  /** The edges of `node`. */
  method CountNode(node: Id, deps: seq<Id>, inDegree0: map<Id, nat>, dependents0: map<Id, seq<Id>>)
    returns (inDegree: map<Id, nat>, dependents: map<Id, seq<Id>>)
    requires node in inDegree0 && inDegree0[node] == 0
    ensures NodeCounted(node, deps, inDegree0, dependents0, inDegree, dependents)
  {
    hide NodeCounted;
    inDegree, dependents := inDegree0, dependents0;
    NothingCounted(node, deps[..0], inDegree0, dependents0);
    for k := 0 to |deps|
      invariant NodeCounted(node, deps[..k], inDegree0, dependents0, inDegree, dependents)
    {
      assert deps[..k + 1] == deps[..k] + [deps[k]];
      inDegree, dependents := CountOne(node, deps[..k], deps[k], inDegree0, dependents0, inDegree, dependents);
    }
    assert deps[..|deps|] == deps;
  }

  lemma NothingCounted(node: Id, deps: seq<Id>, inDegree0: map<Id, nat>, dependents0: map<Id, seq<Id>>)
    requires deps == [] && node in inDegree0 && inDegree0[node] == 0
    ensures NodeCounted(node, deps, inDegree0, dependents0, inDegree0, dependents0)
  {
    assert forall d :: Count(deps, d) == 0;
  }

  method CountOne(node: Id, ghost deps: seq<Id>, dep: Id, ghost inDegree0: map<Id, nat>, ghost dependents0: map<Id, seq<Id>>,
                  inDegree1: map<Id, nat>, dependents1: map<Id, seq<Id>>)
    returns (inDegree: map<Id, nat>, dependents: map<Id, seq<Id>>)
    requires node in inDegree0 && NodeCounted(node, deps, inDegree0, dependents0, inDegree1, dependents1)
    ensures NodeCounted(node, deps + [dep], inDegree0, dependents0, inDegree, dependents)
  {
    assert Elements(deps + [dep]) == Elements(deps) + {dep};
    CountSnoc(deps, dep);
    inDegree, dependents := AddEdge(node, dep, inDegree1, dependents1);
  }

  ghost predicate Counted(g: Graph, seen: set<Id>, inDegree: map<Id, nat>, dependents: map<Id, seq<Id>>) {
    && inDegree.Keys == g.Keys + Successors(g, seen)
    && (forall n :: n in inDegree ==> inDegree[n] == if n in seen then |DepsOf(g, n)| else 0)
    && Reverses(dependents, g, seen)
  }

  lemma CountedOneMore(g: Graph, seen: set<Id>, node: Id, keys: set<Id>)
    requires node in g && keys == g.Keys + Successors(g, seen)
    ensures keys + Elements(g[node]) == g.Keys + Successors(g, seen + {node})
  {
    SuccessorsOfOneMore(g, seen, node);
  }

  method CountRound(g: Graph, ghost seen: set<Id>, node: Id, inDegree0: map<Id, nat>, dependents0: map<Id, seq<Id>>)
    returns (inDegree: map<Id, nat>, dependents: map<Id, seq<Id>>)
    requires node in g && node !in seen && Counted(g, seen, inDegree0, dependents0)
    ensures Counted(g, seen + {node}, inDegree, dependents)
  {
    hide Count, Successors;
    inDegree, dependents := CountNode(node, g[node], inDegree0, dependents0);
    CountedOneMore(g, seen, node, inDegree0.Keys);
  }

  /** The two counting loops. */
  method CountDegrees(g: Graph) returns (inDegree: map<Id, nat>, dependents: map<Id, seq<Id>>)
    ensures Counted(g, g.Keys, inDegree, dependents)
  {
    inDegree, dependents := map n | n in g.Keys :: 0, map[];
    var todo := g.Keys;
    ghost var seen := {};
    while todo != {}
      invariant seen + todo == g.Keys && seen !! todo
      invariant Counted(g, seen, inDegree, dependents)
    {
      var node :| node in todo;
      inDegree, dependents := CountRound(g, seen, node, inDegree, dependents);
      seen, todo := seen + {node}, todo - {node};
    }
  }

  method Seed(inDegree: map<Id, nat>) returns (bfs: seq<Id>)
    ensures Distinct(bfs)
    ensures forall n :: n in bfs <==> n in inDegree && inDegree[n] == 0
  {
    bfs := [];
    var todo := inDegree.Keys;
    while todo != {}
      invariant todo <= inDegree.Keys
      invariant Distinct(bfs)
      invariant forall n :: n in bfs <==> n in inDegree.Keys - todo && inDegree[n] == 0
    {
      var node :| node in todo;
      todo := todo - {node};
      if inDegree[node] == 0 {
        bfs := bfs + [node];
      }
    }
  }

  /** What holds between two rounds of the main loop. */
  ghost predicate Progress(g: Graph, inDegree: map<Id, nat>, order: seq<Id>, bfs: seq<Id>) {
    && Distinct(order) && Distinct(bfs) && Elements(order) !! Elements(bfs)
    && inDegree.Keys == Nodes(g)
    && (forall n :: n in inDegree ==> inDegree[n] == Pending(DepsOf(g, n), Elements(order)))
    && Zeroes(inDegree, Elements(order) + Elements(bfs))
    && DepsFirst(g, order)
  }

  /** The nodes with nothing left to wait for are those in `reached`. */
  ghost predicate Zeroes(inDegree: map<Id, nat>, reached: set<Id>) {
    forall n :: n in reached <==> n in inDegree && inDegree[n] == 0
  }

  ghost predicate DepsFirst(g: Graph, order: seq<Id>) {
    forall i :: 0 <= i < |order| ==> Elements(DepsOf(g, order[i])) <= Elements(order[..i])
  }

  lemma DistinctSnoc(s: seq<Id>, x: Id)
    requires Distinct(s) && x !in Elements(s)
    ensures Distinct(s + [x]) && Elements(s + [x]) == Elements(s) + {x}
  {
  }

  lemma DepsFirstSnoc(g: Graph, order: seq<Id>, n: Id)
    requires DepsFirst(g, order) && Elements(DepsOf(g, n)) <= Elements(order)
    ensures DepsFirst(g, order + [n])
  {
    var order' := order + [n];
    forall i | 0 <= i < |order'|
      ensures Elements(DepsOf(g, order'[i])) <= Elements(order'[..i])
    {
      assert order'[..i] == if i < |order| then order[..i] else order;
    }
  }

  /** The inner loop: count `n`, the node just moved from the queue to the order, off everything that
      waits for it. */
  method Release(inDegree0: map<Id, nat>, waiting: seq<Id>, ghost reached: set<Id>, bfs0: seq<Id>)
    returns (inDegree: map<Id, nat>, bfs: seq<Id>)
    requires Distinct(bfs0) && Elements(bfs0) !! reached
    requires Zeroes(inDegree0, reached + Elements(bfs0))
    requires forall m :: m in waiting ==> m in inDegree0 && inDegree0[m] >= Count(waiting, m)
    ensures inDegree.Keys == inDegree0.Keys
    ensures forall m :: m in inDegree ==> inDegree[m] + Count(waiting, m) == inDegree0[m]
    ensures Distinct(bfs) && Elements(bfs) !! reached
    ensures Zeroes(inDegree, reached + Elements(bfs))
  {
    inDegree, bfs := inDegree0, bfs0;
    assert waiting[..0] == [];
    for k := 0 to |waiting|
      invariant inDegree.Keys == inDegree0.Keys
      invariant forall m :: m in inDegree ==> inDegree[m] + Count(waiting[..k], m) == inDegree0[m]
      invariant Distinct(bfs) && Elements(bfs) !! reached
      invariant Zeroes(inDegree, reached + Elements(bfs))
    {
      var m := waiting[k];
      assert waiting[..k + 1] == waiting[..k] + [m];
      CountSnoc(waiting[..k], m);
      CountPrefix(waiting, k + 1, m);
      inDegree := inDegree[m := inDegree[m] - 1];
      if inDegree[m] == 0 {
        DistinctSnoc(bfs, m);
        bfs := bfs + [m];
      }
    }
    assert waiting[..|waiting|] == waiting;
  }

  /** One round of the main loop on the counting side: what `n` releases is what was counted for it. */
  lemma ReleaseAccounts(g: Graph, inDegree: map<Id, nat>, dependents: map<Id, seq<Id>>, order: seq<Id>, n: Id, m: Id)
    requires Reverses(dependents, g, g.Keys) && n !in order
    requires m in inDegree && inDegree[m] == Pending(DepsOf(g, m), Elements(order))
    ensures inDegree[m] == Pending(DepsOf(g, m), Elements(order + [n])) + Count(ListAt(dependents, n), m)
  {
    PendingAfter(DepsOf(g, m), Elements(order), n);
    assert Elements(order + [n]) == Elements(order) + {n};
    assert m !in g ==> Count(DepsOf(g, m), n) == 0;
  }

  lemma WaitingAreNodes(g: Graph, dependents: map<Id, seq<Id>>, n: Id, m: Id)
    requires Reverses(dependents, g, g.Keys) && m in ListAt(dependents, n)
    ensures m in Nodes(g)
  {
    CountPositive(ListAt(dependents, n), m);
  }

  lemma ProgressBound(g: Graph, inDegree: map<Id, nat>, order: seq<Id>, bfs: seq<Id>)
    requires Progress(g, inDegree, order, bfs)
    ensures Elements(order) + Elements(bfs) <= Nodes(g)
    ensures |order| + |bfs| <= |Nodes(g)|
    ensures |order| == |Nodes(g)| ==> Elements(order) == Nodes(g)
  {
    DistinctSize(order);
    DistinctSize(bfs);
    SubsetSize(Elements(order) + Elements(bfs), Nodes(g));
    SubsetSize(Elements(order), Nodes(g));
  }

  /** One round of the main loop: move the head of the queue to the order and release its dependents. */
  method Round(g: Graph, inDegree0: map<Id, nat>, dependents: map<Id, seq<Id>>, order: seq<Id>, bfs0: seq<Id>)
    returns (inDegree: map<Id, nat>, bfs: seq<Id>)
    requires Reverses(dependents, g, g.Keys)
    requires Progress(g, inDegree0, order, bfs0) && bfs0 != []
    ensures Progress(g, inDegree, order + [bfs0[0]], bfs)
  {
    var n, rest := bfs0[0], bfs0[1..];
    assert bfs0 == [n] + rest;
    assert n in Elements(bfs0);
    DistinctSnoc(order, n);
    PendingZero(DepsOf(g, n), Elements(order));
    DepsFirstSnoc(g, order, n);
    forall m | m in inDegree0
      ensures inDegree0[m] == Pending(DepsOf(g, m), Elements(order + [n])) + Count(ListAt(dependents, n), m)
    {
      ReleaseAccounts(g, inDegree0, dependents, order, n, m);
    }
    forall m | m in ListAt(dependents, n)
      ensures m in inDegree0
    {
      WaitingAreNodes(g, dependents, n, m);
    }
    assert Elements(order) + Elements(bfs0) == Elements(order + [n]) + Elements(rest);
    inDegree, bfs := Release(inDegree0, ListAt(dependents, n), Elements(order + [n]), rest);
  }

  /** The error comes back exactly when there is a cycle; without one the order is topological. The
      while loop ends because no node is queued twice. */
  method KahnSort(g: Graph) returns (r: SortResult)
    ensures r.CyclicDependency? <==> HasCycle(g)
    ensures r.Sorted? ==> TopologicalOrder(g, r.order)
  {
    var inDegree, dependents := CountDegrees(g);
    var bfs := Seed(inDegree);
    var order: seq<Id> := [];
    ProgressAtStart(g, inDegree, bfs);
    while bfs != []
      invariant Progress(g, inDegree, order, bfs)
      decreases |Nodes(g)| - |order|
    {
      ProgressBound(g, inDegree, order, bfs);
      var n := bfs[0];
      inDegree, bfs := Round(g, inDegree, dependents, order, bfs);
      order := order + [n];
    }
    Verdict(g, inDegree, order);
    if |order| != |inDegree| {
      return CyclicDependency;
    }
    return Sorted(order);
  }

  lemma ProgressAtStart(g: Graph, inDegree: map<Id, nat>, bfs: seq<Id>)
    requires inDegree.Keys == Nodes(g)
    requires forall n :: n in inDegree ==> inDegree[n] == |DepsOf(g, n)|
    requires Distinct(bfs) && forall n :: n in bfs <==> n in inDegree && inDegree[n] == 0
    ensures Progress(g, inDegree, [], bfs)
  {
    assert Elements<Id>([]) == {};
    forall n | n in inDegree
      ensures inDegree[n] == Pending(DepsOf(g, n), Elements([]))
    {
      PendingAll(DepsOf(g, n));
    }
  }

  /** When the queue runs dry, comparing two lengths decides whether there is a cycle. */
  lemma Verdict(g: Graph, inDegree: map<Id, nat>, order: seq<Id>)
    requires Progress(g, inDegree, order, [])
    ensures |order| != |inDegree| <==> HasCycle(g)
    ensures |order| == |inDegree| ==> TopologicalOrder(g, order)
  {
    ProgressBound(g, inDegree, order, []);
    assert Elements<Id>([]) == {};
    assert |inDegree.Keys| == |inDegree|;
    if |order| != |inDegree| {
      DistinctSize(order);
      forall n | n in Nodes(g) - Elements(order)
        ensures !(Elements(DepsOf(g, n)) <= Elements(order))
      {
        PendingZero(DepsOf(g, n), Elements(order));
      }
      StuckMeansCycle(g, order);
    } else {
      CompleteMeansSorted(g, order);
      OrderExcludesCycles(g, order);
    }
  }

  lemma CompleteMeansSorted(g: Graph, order: seq<Id>)
    requires Distinct(order) && DepsFirst(g, order) && Elements(order) == Nodes(g)
    ensures TopologicalOrder(g, order)
  {
    forall i, j | 0 <= i < |order| && 0 <= j < |order| && Edge(g, order[i], order[j])
      ensures j < i
    {
      assert order[j] in Elements(order[..i]);
      var k :| 0 <= k < i && order[..i][k] == order[j];
      assert order[k] == order[j];
    }
  }

  /** Every node left over waits for another one that is left over. */
  lemma StuckMeansCycle(g: Graph, order: seq<Id>)
    requires Elements(order) != Nodes(g) && Elements(order) <= Nodes(g)
    requires forall n :: n in Nodes(g) - Elements(order) ==> !(Elements(DepsOf(g, n)) <= Elements(order))
    ensures HasCycle(g)
  {
    var left := Nodes(g) - Elements(order);
    assert left != {} by {
      assert Elements(order) < Nodes(g);
      var n :| n in Nodes(g) && n !in Elements(order);
      assert n in left;
    }
    forall n | n in left
      ensures ContinuesIn(g, left, n)
    {
      var d :| d in Elements(DepsOf(g, n)) && d !in Elements(order);
      assert Edge(g, n, d) && d in left;
    }
    var c := DeadEndFreeSetHasCycle(g, left);
  }
}
