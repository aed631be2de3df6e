/** Dependency graphs: what an edge, a cycle and a topological order are, and the two facts that tie
    them together. Every algorithm of worker/dag is stated in these terms. */
module Graphs {

  type Id = string

  /** `g[n]` lists the direct dependencies of `n`, duplicates included. */
  type Graph = map<Id, seq<Id>>

  datatype Option<+T> = None | Some(value: T)

  ghost predicate Edge(g: Graph, n: Id, d: Id) {
    n in g && d in g[n]
  }

  function Elements<T>(s: seq<T>): set<T> {
    set x | x in s
  }

  /** The dependency list of any node; empty for a node without an entry of its own. */
  function DepsOf(g: Graph, n: Id): seq<Id> {
    if n in g then g[n] else []
  }

  /** Everything the ids in `xs` depend on directly. */
  ghost function Successors(g: Graph, xs: set<Id>): set<Id> {
    set x, y | x in xs && y in DepsOf(g, x) :: y
  }

  lemma SuccessorsOfOneMore(g: Graph, xs: set<Id>, x: Id)
    ensures Successors(g, xs + {x}) == Successors(g, xs) + Elements(DepsOf(g, x))
  {
  }

  /** Keys and the ids that are only mentioned as a dependency. */
  ghost function Nodes(g: Graph): set<Id> {
    g.Keys + Successors(g, g.Keys)
  }

  lemma EdgeIsBetweenNodes(g: Graph, n: Id, d: Id)
    requires Edge(g, n, d)
    ensures n in Nodes(g) && d in Nodes(g)
  {
    assert n in g.Keys && d in DepsOf(g, n);
  }

  ghost predicate Distinct<T>(s: seq<T>) {
    forall i, j :: 0 <= i < j < |s| ==> s[i] != s[j]
  }

  /** `c[0]` depends on `c[1]`, and so on, and the last one depends on `c[0]`. */
  ghost predicate IsCycle(g: Graph, c: seq<Id>) {
    && |c| > 0
    && Edge(g, c[|c| - 1], c[0])
    && IsPath(g, c)
  }

  ghost predicate IsPath(g: Graph, p: seq<Id>) {
    forall i :: 0 <= i < |p| - 1 ==> Edge(g, p[i], p[i + 1])
  }

  ghost predicate HasCycle(g: Graph) {
    exists c :: IsCycle(g, c)
  }

  /** Every node exactly once, each one after everything it depends on. */
  ghost predicate TopologicalOrder(g: Graph, order: seq<Id>) {
    && Distinct(order)
    && Elements(order) == Nodes(g)
    && forall i, j :: 0 <= i < |order| && 0 <= j < |order| && Edge(g, order[i], order[j]) ==> j < i
  }

  lemma {:induction false} DistinctSize<T>(s: seq<T>)
    requires Distinct(s)
    ensures |Elements(s)| == |s|
  {
    if s == [] {
      assert Elements(s) == {};
    } else {
      var init, last := s[..|s| - 1], s[|s| - 1];
      DistinctSize(init);
      assert Elements(s) == Elements(init) + {last};
      assert last !in init;
    }
  }

  lemma SubsetSize<T>(a: set<T>, b: set<T>)
    requires a <= b
    ensures |a| <= |b|
    ensures |a| == |b| ==> a == b
  {
    assert b == a + (b - a);
  }

  lemma PathSuffix(g: Graph, p: seq<Id>, k: nat)
    requires IsPath(g, p) && k <= |p|
    ensures IsPath(g, p[k..])
  {
    var q := p[k..];
    forall i | 0 <= i < |q| - 1
      ensures Edge(g, q[i], q[i + 1])
    {
      assert Edge(g, p[k + i], p[k + i + 1]);
    }
  }

  lemma PathPrefix(g: Graph, p: seq<Id>, k: nat)
    requires IsPath(g, p) && k <= |p|
    ensures IsPath(g, p[..k])
  {
    forall i | 0 <= i < k - 1
      ensures Edge(g, p[..k][i], p[..k][i + 1])
    {
      assert Edge(g, p[i], p[i + 1]);
    }
  }

  lemma PathSnoc(g: Graph, p: seq<Id>, d: Id)
    requires |p| > 0 && IsPath(g, p) && Edge(g, p[|p| - 1], d)
    ensures IsPath(g, p + [d])
  {
    var q := p + [d];
    forall i | 0 <= i < |q| - 1
      ensures Edge(g, q[i], q[i + 1])
    {
      if i < |p| - 1 {
        assert Edge(g, p[i], p[i + 1]);
      }
    }
  }

  /** Along a path the positions in a topological order go down. */
  lemma {:induction false} OrderDescendsAlongPath(g: Graph, order: seq<Id>, p: seq<Id>, first: nat, last: nat)
    requires TopologicalOrder(g, order)
    requires |p| > 0 && IsPath(g, p)
    requires first < |order| && last < |order| && order[first] == p[0] && order[last] == p[|p| - 1]
    ensures last <= first
    decreases |p|
  {
    if |p| == 1 {
      assert first == last;
    } else {
      var q := p[1..];
      assert Edge(g, p[0], p[1]);
      EdgeIsBetweenNodes(g, p[0], p[1]);
      var next :| 0 <= next < |order| && order[next] == p[1];
      PathSuffix(g, p, 1);
      OrderDescendsAlongPath(g, order, q, next, last);
    }
  }

  lemma OrderExcludesCycles(g: Graph, order: seq<Id>)
    requires TopologicalOrder(g, order)
    ensures !HasCycle(g)
  {
    if c :| IsCycle(g, c) {
      var last := c[|c| - 1];
      EdgeIsBetweenNodes(g, last, c[0]);
      var i :| 0 <= i < |order| && order[i] == c[0];
      var j :| 0 <= j < |order| && order[j] == last;
      OrderDescendsAlongPath(g, order, c, i, j);
    }
  }

  ghost predicate ContinuesIn(g: Graph, r: set<Id>, n: Id) {
    exists d :: d in r && Edge(g, n, d)
  }

  /** A non-empty finite set of nodes, none of which is a dead end inside the set, contains a cycle.
      Follow dependencies inside the set until one repeats: the path cannot outgrow the set. */
  lemma DeadEndFreeSetHasCycle(g: Graph, r: set<Id>) returns (c: seq<Id>)
    requires r != {}
    requires forall n {:trigger ContinuesIn(g, r, n)} :: n in r ==> ContinuesIn(g, r, n)
    ensures IsCycle(g, c) && Elements(c) <= r
  {
    var n :| n in r;
    c := ExtendUntilRepeat(g, r, [n]);
  }

  lemma {:induction false} ExtendUntilRepeat(g: Graph, r: set<Id>, p: seq<Id>) returns (c: seq<Id>)
    requires |p| > 0 && Distinct(p) && IsPath(g, p) && Elements(p) <= r
    requires forall n {:trigger ContinuesIn(g, r, n)} :: n in r ==> ContinuesIn(g, r, n)
    ensures IsCycle(g, c) && Elements(c) <= r
    decreases |r| - |p|
  {
    hide HasCycle;
    DistinctSize(p);
    SubsetSize(Elements(p), r);
    var last := p[|p| - 1];
    assert last in Elements(p);
    assert ContinuesIn(g, r, last);
    var d :| d in r && Edge(g, last, d);
    if d in p {
      var i :| 0 <= i < |p| && p[i] == d;
      c := p[i..];
      PathSuffix(g, p, i);
      assert Elements(c) <= Elements(p);
    } else {
      var q := p + [d];
      assert Elements(q) == Elements(p) + {d};
      DistinctSize(q);
      SubsetSize(Elements(q), r);
      PathSnoc(g, p, d);
      c := ExtendUntilRepeat(g, r, q);
    }
  }

  /** More edges never remove a cycle. */
  lemma CycleCarriesOver(g: Graph, h: Graph)
    requires HasCycle(g)
    requires forall n, d :: Edge(g, n, d) ==> Edge(h, n, d)
    ensures HasCycle(h)
  {
    var c :| IsCycle(g, c);
    assert IsCycle(h, c);
  }
}
