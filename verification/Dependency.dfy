/** Validate and CanRun of worker/dag/dependency.go, and what their answers mean. */
module Dependency {
  import opened Graphs
  import opened Jobs
  import opened Loader
  import opened Kahn

  const MAX_GRAPH_DEPTH: nat := 50

  /** The graph the loader returns: the root and the stored rows within the limit. */
  ghost function LoadedGraph(store: Graph, root: Id, deps: seq<Id>, limit: nat): Graph {
    var near := Near(store, root, deps, limit);
    map x | x in {root} + near * store.Keys :: LoadedRow(store, root, deps, near, x)
  }

  /** The stored graph with the proposed job in it. */
  function Proposed(store: Graph, root: Id, deps: seq<Id>): Graph {
    store[root := deps]
  }

  datatype Verdict = Accepted | Cyclic | Unloadable

  /** `fails` says for each level whether its query fails. */
  method Validate(store: Graph, root: Id, deps: seq<Id>, fails: nat -> bool) returns (v: Verdict, truncated: bool)
    ensures v == Unloadable <==> deps != [] && LoadFails(store, root, deps, MAX_GRAPH_DEPTH, fails)
    ensures v == Cyclic <==> && deps != [] && !LoadFails(store, root, deps, MAX_GRAPH_DEPTH, fails)
                             && HasCycle(LoadedGraph(store, root, deps, MAX_GRAPH_DEPTH))
    ensures v != Unloadable ==> (truncated <==> exists x :: LookedUpAt(store, root, deps, 50, x))
    ensures v != Unloadable && !truncated ==> NothingBeyond(store, root, deps, 50)
    ensures v == Unloadable <==> exists depth: nat, x :: depth < 50 && fails(depth) && LookedUpAt(store, root, deps, depth, x)
    ensures v != Unloadable && !HasCycle(store) ==>
              (v == Cyclic <==> ClosesWithin(store, root, deps, 50) && !(root in deps && root in store))
  {
    hide LookedUpAt, LoadFails, LoadedGraph, HasCycle, ClosesWithin;
    ValidateByWalks(store, root, deps, fails);
    if |deps| == 0 {
      NoDepsNothingBeyond(store, root, MAX_GRAPH_DEPTH);
      forall x
        ensures !LookedUpAt(store, root, deps, 50, x)
      {
        NothingLookedUp(store, root, 50, x);
      }
      return Accepted, false;
    }
    var g;
    g, truncated := LoadGraph(store, root, deps, MAX_GRAPH_DEPTH, fails);
    if g.None? {
      return Unloadable, truncated;
    }
    LoadedIsLoadedGraph(store, root, deps, MAX_GRAPH_DEPTH, g.value);
    var r := KahnSort(g.value);
    v := if r.CyclicDependency? then Cyclic else Accepted;
  }

  lemma LoadedIsLoadedGraph(store: Graph, root: Id, deps: seq<Id>, limit: nat, g: Graph)
    requires Loaded(store, root, deps, Near(store, root, deps, limit), g)
    ensures g == LoadedGraph(store, root, deps, limit)
  {
  }

  /** The same three verdicts by walks in the store. */
  lemma ValidateByWalks(store: Graph, root: Id, deps: seq<Id>, fails: nat -> bool)
    ensures (exists depth: nat, x :: depth < 50 && fails(depth) && LookedUpAt(store, root, deps, depth, x))
            <==> deps != [] && LoadFails(store, root, deps, MAX_GRAPH_DEPTH, fails)
    ensures !HasCycle(store) ==>
              (HasCycle(LoadedGraph(store, root, deps, MAX_GRAPH_DEPTH))
               <==> ClosesWithin(store, root, deps, 50) && !(root in deps && root in store))
    ensures deps == [] ==> !ClosesWithin(store, root, deps, 50)
  {
    hide LookedUpAt, LoadFails, LoadedGraph;
    LoadFailsByWalks(store, root, deps, MAX_GRAPH_DEPTH, fails);
    if deps == [] {
      forall depth: nat, x
        ensures !LookedUpAt(store, root, deps, depth, x)
      {
        NothingLookedUp(store, root, depth, x);
      }
    }
    if !HasCycle(store) {
      VerdictIsShortCycles(store, root, deps, MAX_GRAPH_DEPTH);
    }
  }

  lemma NothingLookedUp(store: Graph, root: Id, depth: nat, x: Id)
    ensures !LookedUpAt(store, root, [], depth, x)
  {
  }

  lemma NoDepsNothingBeyond(store: Graph, root: Id, limit: nat)
    ensures NothingBeyond(store, root, [], limit)
  {
  }

  // ---- what the verdict means ----

  /** The proposal closes a cycle with at most `limit` stored rows on it. */
  ghost predicate ClosesWithin(store: Graph, root: Id, deps: seq<Id>, limit: nat) {
    root in deps || exists y :: Within(store, root, deps, y, limit) && Edge(store, y, root)
  }

  ghost predicate Closes(store: Graph, root: Id, deps: seq<Id>) {
    root in deps || exists y :: Reachable(store, root, deps, y) && Edge(store, y, root)
  }

  /** `h` has the proposed edges at the root and stored edges elsewhere. */
  ghost predicate Extends(h: Graph, store: Graph, root: Id, deps: seq<Id>) {
    && (forall d :: Edge(h, root, d) <==> d in deps)
    && (forall x, d :: x != root && Edge(h, x, d) ==> Edge(store, x, d))
  }

  lemma Rotate(g: Graph, c: seq<Id>, k: nat)
    requires IsCycle(g, c) && k < |c|
    ensures IsCycle(g, c[k..] + c[..k])
  {
    var r := c[k..] + c[..k];
    forall i | 0 <= i < |r| - 1
      ensures Edge(g, r[i], r[i + 1])
    {
      if i < |c| - k - 1 {
        assert Edge(g, c[k + i], c[k + i + 1]);
      } else if i > |c| - k - 1 {
        var j := i - (|c| - k);
        assert Edge(g, c[j], c[j + 1]);
      }
    }
    if k > 0 {
      assert Edge(g, c[k - 1], c[k]);
    }
  }

  /** The part of a cycle after its last visit to the root. */
  lemma {:induction false} TailAfterRoot(h: Graph, store: Graph, root: Id, deps: seq<Id>, c: seq<Id>, k: nat)
    requires Extends(h, store, root, deps) && IsPath(h, c)
    requires k < |c| && c[k] == root && c[|c| - 1] != root
    ensures exists p :: IsChain(store, root, deps, p) && p[|p| - 1] == c[|c| - 1]
    decreases |c| - k
  {
    hide HasCycle, IsCycle;
    if j :| k < j < |c| && c[j] == root {
      TailAfterRoot(h, store, root, deps, c, j);
    } else {
      var p := c[k + 1..];
      assert Edge(h, c[k], c[k + 1]);
      forall i | 0 <= i < |p| - 1
        ensures Edge(store, p[i], p[i + 1])
      {
        assert Edge(h, c[k + 1 + i], c[k + 2 + i]);
      }
      assert IsChain(store, root, deps, p);
    }
  }

  /** Over an acyclic store every new cycle goes through the root, so it ends in a walk back to it. */
  lemma NewCycleIsAWalkBack(h: Graph, store: Graph, root: Id, deps: seq<Id>)
    requires !HasCycle(store) && Extends(h, store, root, deps) && HasCycle(h)
    ensures root in deps || exists p :: IsChain(store, root, deps, p) && p[|p| - 1] != root && Edge(h, p[|p| - 1], root)
  {
    var c :| IsCycle(h, c);
    if k :| 0 <= k < |c| && c[k] == root {
      Rotate(h, c, k);
      var r := c[k..] + c[..k];
      if r[|r| - 1] != root {
        TailAfterRoot(h, store, root, deps, r, 0);
      }
    } else {
      assert IsCycle(store, c);
    }
  }

  /** A walk back to the root whose rows are all in `h` is a cycle of `h`. */
  lemma WalkBackIsACycle(h: Graph, store: Graph, root: Id, deps: seq<Id>, p: seq<Id>)
    requires Extends(h, store, root, deps) && IsChain(store, root, deps, p)
    requires forall i, d :: 0 <= i < |p| && Edge(store, p[i], d) ==> Edge(h, p[i], d)
    requires Edge(store, p[|p| - 1], root)
    ensures HasCycle(h)
  {
    var c := [root] + p;
    forall i | 0 <= i < |c| - 1
      ensures Edge(h, c[i], c[i + 1])
    {
      if i > 0 {
        assert Edge(store, p[i - 1], p[i]);
      }
    }
    assert IsCycle(h, c);
  }

  lemma LoadedExtends(store: Graph, root: Id, deps: seq<Id>, limit: nat)
    requires !(root in deps && root in store)
    ensures Extends(LoadedGraph(store, root, deps, limit), store, root, deps)
  {
    RootNear(store, root, deps, limit);
    var g := LoadedGraph(store, root, deps, limit);
    assert forall d :: d in Dedup(deps) <==> d in Elements(Dedup(deps));
    assert forall d :: d in deps <==> d in Elements(deps);
    forall x, d | x != root && Edge(g, x, d)
      ensures Edge(store, x, d)
    {
      LoadedEdge(store, root, deps, limit, x, d);
    }
  }

  /** What the depth limit does, exactly: over an acyclic store a cyclic verdict is reached for the
      cycles through at most `limit` stored rows and for no others; and not even for those when the job
      names itself and has a row, because that row replaces what was proposed. */
  lemma VerdictIsShortCycles(store: Graph, root: Id, deps: seq<Id>, limit: nat)
    requires !HasCycle(store)
    ensures HasCycle(LoadedGraph(store, root, deps, limit))
            <==> ClosesWithin(store, root, deps, limit) && !(limit > 0 && root in deps && root in store)
  {
    if root in deps && root in store {
      SelfDependencyOverwritten(store, root, deps, limit);
    } else {
      if HasCycle(LoadedGraph(store, root, deps, limit)) {
        FoundCycleIsShort(store, root, deps, limit);
      }
      if ClosesWithin(store, root, deps, limit) {
        ShortCycleIsFound(store, root, deps, limit);
      }
    }
  }

  lemma SelfDependencyOverwritten(store: Graph, root: Id, deps: seq<Id>, limit: nat)
    requires !HasCycle(store) && root in deps && root in store
    ensures HasCycle(LoadedGraph(store, root, deps, limit)) <==> limit == 0
  {
    var g := LoadedGraph(store, root, deps, limit);
    RootNear(store, root, deps, limit);
    if limit == 0 {
      assert root in Elements(deps);
      assert IsCycle(g, [root]);
    } else if HasCycle(g) {
      forall x, d | Edge(g, x, d)
        ensures Edge(store, x, d)
      {
        assert d in Elements(Dedup(DepsOf(store, x)));
      }
      CycleCarriesOver(g, store);
    }
  }

  lemma FoundCycleIsShort(store: Graph, root: Id, deps: seq<Id>, limit: nat)
    requires !HasCycle(store) && !(root in deps && root in store)
    requires HasCycle(LoadedGraph(store, root, deps, limit))
    ensures ClosesWithin(store, root, deps, limit)
  {
    var g := LoadedGraph(store, root, deps, limit);
    LoadedExtends(store, root, deps, limit);
    NewCycleIsAWalkBack(g, store, root, deps);
    if root !in deps {
      var p :| IsChain(store, root, deps, p) && p[|p| - 1] != root && Edge(g, p[|p| - 1], root);
      LoadedEdge(store, root, deps, limit, p[|p| - 1], root);
    }
  }

  lemma LoadedEdge(store: Graph, root: Id, deps: seq<Id>, limit: nat, y: Id, d: Id)
    requires y != root && Edge(LoadedGraph(store, root, deps, limit), y, d)
    ensures Within(store, root, deps, y, limit) && Edge(store, y, d)
  {
    NearIsWithin(store, root, deps, y, limit);
    assert d in Elements(Dedup(DepsOf(store, y)));
  }

  lemma ShortCycleIsFound(store: Graph, root: Id, deps: seq<Id>, limit: nat)
    requires !(root in deps && root in store)
    requires ClosesWithin(store, root, deps, limit)
    ensures HasCycle(LoadedGraph(store, root, deps, limit))
  {
    var g := LoadedGraph(store, root, deps, limit);
    LoadedExtends(store, root, deps, limit);
    if root in deps {
      assert IsCycle(g, [root]);
    } else {
      var y :| Within(store, root, deps, y, limit) && Edge(store, y, root);
      var p :| EndsAt(store, root, deps, p, y) && |p| <= limit;
      WalkIsLoaded(store, root, deps, limit, p);
      WalkBackIsACycle(g, store, root, deps, p);
    }
  }

  lemma WalkIsLoaded(store: Graph, root: Id, deps: seq<Id>, limit: nat, p: seq<Id>)
    requires root !in deps && IsChain(store, root, deps, p) && |p| <= limit
    ensures forall i, d :: 0 <= i < |p| && Edge(store, p[i], d) ==> Edge(LoadedGraph(store, root, deps, limit), p[i], d)
  {
    forall i, d | 0 <= i < |p| && Edge(store, p[i], d)
      ensures Edge(LoadedGraph(store, root, deps, limit), p[i], d)
    {
      PathPrefix(store, p, i + 1);
      assert EndsAt(store, root, deps, p[..i + 1], p[i]);
      NearIsWithin(store, root, deps, p[i], limit);
      assert d in Elements(Dedup(store[p[i]]));
      assert p[i] != root;
    }
  }

  /** And the cycles there are to be found. */
  lemma ProposalClosesCycles(store: Graph, root: Id, deps: seq<Id>)
    requires !HasCycle(store)
    ensures HasCycle(Proposed(store, root, deps)) <==> Closes(store, root, deps)
  {
    var h := Proposed(store, root, deps);
    assert Extends(h, store, root, deps);
    if HasCycle(h) && root !in deps {
      NewCycleIsAWalkBack(h, store, root, deps);
      var p :| IsChain(store, root, deps, p) && p[|p| - 1] != root && Edge(h, p[|p| - 1], root);
      assert EndsAt(store, root, deps, p, p[|p| - 1]);
    }
    if Closes(store, root, deps) {
      if root in deps {
        assert Edge(h, root, root);
        assert IsCycle(h, [root]);
      } else {
        var y :| Reachable(store, root, deps, y) && Edge(store, y, root);
        var p :| EndsAt(store, root, deps, p, y);
        assert p[0] != root;
        WalkBackIsACycle(h, store, root, deps, p);
      }
    }
  }

  /** A cyclic verdict is never wrong: truncated or not, whatever the store looks like. */
  lemma CyclicVerdictIsReal(store: Graph, root: Id, deps: seq<Id>, limit: nat)
    requires HasCycle(LoadedGraph(store, root, deps, limit))
    ensures HasCycle(Proposed(store, root, deps))
  {
    var g, h := LoadedGraph(store, root, deps, limit), Proposed(store, root, deps);
    if root in deps {
      assert Edge(h, root, root);
      assert IsCycle(h, [root]);
    } else {
      LoadedExtends(store, root, deps, limit);
      CycleCarriesOver(g, h);
    }
  }

  /** When the load was not cut short, the verdict over an acyclic store is right exactly when the root
      does not both name itself and already have a row. In that case the row read from the store has
      replaced the proposed one, and a self-dependency is accepted. */
  lemma UntruncatedVerdict(store: Graph, root: Id, deps: seq<Id>, limit: nat)
    requires !HasCycle(store) && NothingBeyond(store, root, deps, limit)
    ensures (HasCycle(LoadedGraph(store, root, deps, limit)) <==> HasCycle(Proposed(store, root, deps)))
            <==> !(limit > 0 && root in deps && root in store)
  {
    VerdictIsShortCycles(store, root, deps, limit);
    ProposalClosesCycles(store, root, deps);
    forall y | Within(store, root, deps, y, limit)
      ensures Reachable(store, root, deps, y)
    {
    }
  }

  /** The self-dependency that slips through: a job that already has a row is proposed again with
      itself as its only dependency. */
  lemma SelfDependencyAccepted(limit: nat)
    requires limit > 0
    ensures var store: Graph, root, deps := map["job" := []], "job", ["job"];
            && !HasCycle(store) && NothingBeyond(store, root, deps, limit)
            && !HasCycle(LoadedGraph(store, root, deps, limit))
            && HasCycle(Proposed(store, root, deps))
  {
    var store: Graph, root, deps := map["job" := []], "job", ["job"];
    NoEdgesNoCycle(store);
    assert EndsAt(store, root, deps, [root], root);
    forall x | Reachable(store, root, deps, x)
      ensures Within(store, root, deps, x, limit)
    {
      var p :| EndsAt(store, root, deps, p, x);
      assert |p| > 1 ==> Edge(store, p[0], p[1]);
    }
    VerdictIsShortCycles(store, root, deps, limit);
    assert Edge(Proposed(store, root, deps), root, root);
    assert IsCycle(Proposed(store, root, deps), [root]);
  }

  lemma NoEdgesNoCycle(g: Graph)
    requires forall n :: n in g ==> g[n] == []
    ensures !HasCycle(g)
  {
  }

  /** Accepting a new job keeps the stored graph acyclic, as long as the load reached everything. */
  lemma AcceptedKeepsAcyclic(store: Graph, root: Id, deps: seq<Id>, limit: nat)
    requires !HasCycle(store) && root !in store && NothingBeyond(store, root, deps, limit)
    requires deps == [] || !HasCycle(LoadedGraph(store, root, deps, limit))
    ensures !HasCycle(Proposed(store, root, deps))
  {
    if deps == [] {
      ProposalClosesCycles(store, root, deps);
    } else {
      UntruncatedVerdict(store, root, deps, limit);
    }
  }

  // ---- a cycle beyond the limit ----

  /** Distinct ids for the rows between a job and itself. */
  function Name(root: Id, n: nat): (id: Id)
    ensures |id| == |root| + n
  {
    root + seq(n, _ => '+')
  }

  function Names(root: Id, n: nat): (ids: set<Id>)
    ensures forall x :: x in ids <==> |root| < |x| <= |root| + n && x == Name(root, |x| - |root|)
  {
    if n == 0 then {} else Names(root, n - 1) + {Name(root, n)}
  }

  /** `n` rows, each depending on the next and the last one on the root. */
  function Tail(root: Id, n: nat): Graph {
    map x | x in Names(root, n) :: [if |x| == |root| + n then root else Name(root, |x| - |root| + 1)]
  }

  lemma {:induction false} WalkOnTail(root: Id, n: nat, p: seq<Id>, i: nat)
    requires i < |p| && IsPath(Tail(root, n), p) && |p[0]| > |root|
    requires forall k :: 0 < k < |p| ==> p[k] != root
    ensures |p[i]| == |p[0]| + i
  {
    if i > 0 {
      WalkOnTail(root, n, p, i - 1);
      assert Edge(Tail(root, n), p[i - 1], p[i]);
    }
  }

  lemma TailIsAcyclic(root: Id, n: nat)
    ensures !HasCycle(Tail(root, n))
  {
    if c :| IsCycle(Tail(root, n), c) {
      forall k | 0 <= k < |c|
        ensures c[k] in Tail(root, n)
      {
        assert k < |c| - 1 ==> Edge(Tail(root, n), c[k], c[k + 1]);
      }
      WalkOnTail(root, n, c, |c| - 1);
    }
  }

  /** The walk from the root's dependency down the tail. */
  function Descent(root: Id, k: nat): (p: seq<Id>)
    ensures |p| == k && (k > 0 ==> p[0] == Name(root, 1) && p[k - 1] == Name(root, k))
  {
    if k == 0 then [] else Descent(root, k - 1) + [Name(root, k)]
  }

  lemma {:induction false} DescentIsChain(root: Id, n: nat, k: nat)
    requires 1 <= k <= n
    ensures IsChain(Tail(root, n), root, [Name(root, 1)], Descent(root, k))
  {
    hide Name, Names;
    if k > 1 {
      DescentIsChain(root, n, k - 1);
      assert Name(root, k - 1) in Names(root, n);
      assert Edge(Tail(root, n), Name(root, k - 1), Name(root, k));
      PathSnoc(Tail(root, n), Descent(root, k - 1), Name(root, k));
    }
  }

  lemma TailEndIsReached(root: Id, n: nat)
    requires n >= 1
    ensures Reachable(Tail(root, n), root, [Name(root, 1)], Name(root, n)) && Edge(Tail(root, n), Name(root, n), root)
  {
    hide Name, Names, Descent, IsChain;
    DescentIsChain(root, n, n);
    assert Name(root, n) in Names(root, n);
    assert EndsAt(Tail(root, n), root, [Name(root, 1)], Descent(root, n), Name(root, n));
  }

  lemma TailEndIsFar(root: Id, n: nat, limit: nat, y: Id)
    requires n >= 1 && Within(Tail(root, n), root, [Name(root, 1)], y, limit) && Edge(Tail(root, n), y, root)
    ensures n <= limit
  {
    var p :| EndsAt(Tail(root, n), root, [Name(root, 1)], p, y) && |p| <= limit;
    assert p[0] == Name(root, 1);
    WalkOnTail(root, n, p, |p| - 1);
  }

  /** A cycle through one row more than the limit is accepted, whatever the job and the limit. */
  lemma DeepCycleAccepted(root: Id, limit: nat)
    ensures var store, deps := Tail(root, limit + 1), [Name(root, 1)];
            && !HasCycle(store) && root !in store
            && HasCycle(Proposed(store, root, deps))
            && !HasCycle(LoadedGraph(store, root, deps, limit))
  {
    hide LoadedGraph, Tail, Name;
    var store, deps := Tail(root, limit + 1), [Name(root, 1)];
    TailIsAcyclic(root, limit + 1);
    TailEndIsReached(root, limit + 1);
    RootHasNoRow(root, limit + 1);
    ProposalClosesCycles(store, root, deps);
    VerdictIsShortCycles(store, root, deps, limit);
    assert |deps[0]| != |root|;
    if y :| Within(store, root, deps, y, limit) && Edge(store, y, root) {
      TailEndIsFar(root, limit + 1, limit, y);
    }
  }

  lemma RootHasNoRow(root: Id, n: nat)
    ensures root !in Tail(root, n)
  {
  }

  // ---- the run-time gate ----

  /** The gate's answer: no dependency that has a row is in any other status than completed. */
  ghost predicate GateOpen(rows: Table, deps: seq<Id>) {
    forall d :: d in deps && d in rows ==> rows[d].status.Completed?
  }

  /** depStatuses followed by the scan over its result; there is no answer if the query fails. */
  method CanRun(rows: Table, deps: seq<Id>, fails: bool) returns (ok: Option<bool>)
    ensures ok.None? <==> deps != [] && fails
    ensures ok.Some? ==> (ok.value <==> GateOpen(rows, deps))
  {
    if |deps| == 0 {
      return Some(true);
    }
    if fails {
      return None;
    }
    var statuses := map d | d in deps && d in rows :: rows[d].status;
    var todo := statuses.Keys;
    while todo != {}
      invariant todo <= statuses.Keys
      invariant forall d :: d in statuses.Keys - todo ==> statuses[d].Completed?
    {
      var d :| d in todo;
      if !statuses[d].Completed? {
        return Some(false);
      }
      todo := todo - {d};
    }
    forall d | d in deps && d in rows
      ensures rows[d].status.Completed?
    {
      assert d in statuses.Keys - todo;
    }
    return Some(true);
  }

  /** An open gate means "all dependencies completed" exactly when every one of them has a row; a
      dependency without a row is passed over. */
  lemma GateMeansCompleted(rows: Table, deps: seq<Id>)
    requires GateOpen(rows, deps)
    ensures (forall d :: d in deps ==> IsCompleted(rows, d)) <==> (forall d :: d in deps ==> d in rows)
  {
    if forall d :: d in deps ==> IsCompleted(rows, d) {
      assert forall d :: d in deps ==> d in rows;
    }
  }

  /** The gate does not deadlock: over an acyclic table, as long as some job is not completed there is one
      that is not completed and may run; and if every dependency has a row, all of its dependencies are
      completed. */
  lemma GateLetsSomeoneThrough(rows: Table) returns (next: Id)
    requires !HasCycle(GraphOf(rows))
    requires exists id :: id in rows && !rows[id].status.Completed?
    ensures next in rows && !rows[next].status.Completed? && GateOpen(rows, rows[next].dependencies)
    ensures (forall id, d :: id in rows && d in rows[id].dependencies ==> d in rows)
            ==> forall d :: d in rows[next].dependencies ==> IsCompleted(rows, d)
  {
    var open := set id | id in rows && !rows[id].status.Completed?;
    if forall id :: id in open ==> !GateOpen(rows, rows[id].dependencies) {
      NobodyThrough(rows, open);
    }
    next :| next in open && GateOpen(rows, rows[next].dependencies);
  }

  lemma NobodyThrough(rows: Table, open: set<Id>)
    requires open == set id | id in rows && !rows[id].status.Completed?
    requires open != {} && forall id :: id in open ==> !GateOpen(rows, rows[id].dependencies)
    ensures HasCycle(GraphOf(rows))
  {
    hide HasCycle, GateOpen, ContinuesIn;
    forall id | id in open
      ensures ContinuesIn(GraphOf(rows), open, id)
    {
      BlockedContinues(rows, open, id);
    }
    var c := DeadEndFreeSetHasCycle(GraphOf(rows), open);
    CycleExists(GraphOf(rows), c);
  }

  lemma BlockedContinues(rows: Table, open: set<Id>, id: Id)
    requires open == set x | x in rows && !rows[x].status.Completed?
    requires id in rows && !GateOpen(rows, rows[id].dependencies)
    ensures ContinuesIn(GraphOf(rows), open, id)
  {
    var d :| d in rows[id].dependencies && d in rows && !rows[d].status.Completed?;
    assert Edge(GraphOf(rows), id, d) && d in open;
  }

  lemma CycleExists(g: Graph, c: seq<Id>)
    requires IsCycle(g, c)
    ensures HasCycle(g)
  {
  }
}
