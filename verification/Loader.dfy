/** unique and loadGraph of worker/dag/dependency.go: the level-by-level loader, shown to return exactly
    the stored rows within the depth limit. */
module Loader {
  import opened Graphs

  /** First occurrences, in order. */
  function Dedup(s: seq<Id>): (r: seq<Id>)
    ensures Distinct(r) && Elements(r) == Elements(s)
  {
    if s == [] then []
    else
      var init, last := s[..|s| - 1], s[|s| - 1];
      assert s == init + [last];
      assert Elements(s) == Elements(init) + {last};
      var r := Dedup(init);
      if last in init then r else assert last !in Elements(r); r + [last]
  }

  /** Deduplication keeps the order in which the values first appear. */
  lemma {:induction false} DedupKeepsOrder(s: seq<Id>, i: nat, j: nat)
    requires i < j < |Dedup(s)|
    ensures exists k, l :: 0 <= k < l < |s| && s[k] == Dedup(s)[i] && s[l] == Dedup(s)[j] && s[l] !in s[..l]
  {
    var init, last := s[..|s| - 1], s[|s| - 1];
    var r := Dedup(init);
    if j < |r| {
      DedupKeepsOrder(init, i, j);
      var k, l :| 0 <= k < l < |init| && init[k] == r[i] && init[l] == r[j] && init[l] !in init[..l];
      assert s[..l] == init[..l];
      assert s[k] == Dedup(s)[i] && s[l] == Dedup(s)[j];
    } else {
      assert r[i] in Elements(r) && r[i] in init;
      var k :| 0 <= k < |init| && init[k] == r[i];
      assert s[k] == Dedup(s)[i] && s[|init|] == Dedup(s)[j];
    }
  }

  method Unique(input: seq<Id>) returns (out: seq<Id>)
    ensures out == Dedup(input)
  {
    var seen: set<Id> := {};
    out := [];
    assert input[..0] == [];
    for i := 0 to |input|
      invariant out == Dedup(input[..i])
      invariant seen == Elements(input[..i])
    {
      var s := input[i];
      assert input[..i + 1][..i] == input[..i];
      assert input[..i + 1] == input[..i] + [s];
      if s !in seen {
        seen := seen + {s};
        out := out + [s];
      }
    }
    assert input[..|input|] == input;
  }

  /** A walk that starts at one of the root's dependencies, follows stored rows and does not come back
      to the root: the loader marks the root as seen before it starts. */
  ghost predicate IsChain(store: Graph, root: Id, deps: seq<Id>, p: seq<Id>) {
    && |p| > 0
    && p[0] in deps
    && IsPath(store, p)
    && forall i :: 0 < i < |p| ==> p[i] != root
  }

  ghost predicate EndsAt(store: Graph, root: Id, deps: seq<Id>, p: seq<Id>, x: Id) {
    IsChain(store, root, deps, p) && p[|p| - 1] == x
  }

  /** `x` is at most `k` edges away from the root. */
  ghost predicate Within(store: Graph, root: Id, deps: seq<Id>, x: Id, k: nat) {
    exists p :: EndsAt(store, root, deps, p, x) && |p| <= k
  }

  ghost predicate Reachable(store: Graph, root: Id, deps: seq<Id>, x: Id) {
    exists p :: EndsAt(store, root, deps, p, x)
  }

  /** The ids at most `k` edges away from the root, level by level. */
  ghost function Near(store: Graph, root: Id, deps: seq<Id>, k: nat): set<Id> {
    if k == 0 then {}
    else if k == 1 then Elements(deps)
    else
      var near := Near(store, root, deps, k - 1);
      near + (Successors(store, near) - {root})
  }

  /** The levels are what the walks say they are. */
  lemma {:induction false} NearIsWithin(store: Graph, root: Id, deps: seq<Id>, x: Id, k: nat)
    ensures x in Near(store, root, deps, k) <==> Within(store, root, deps, x, k)
  {
    if x in Near(store, root, deps, k) {
      NearHasWalk(store, root, deps, x, k);
    }
    if p :| EndsAt(store, root, deps, p, x) && |p| <= k {
      WalkStaysNear(store, root, deps, p);
      NearGrows(store, root, deps, |p|, k);
    }
  }

  lemma {:induction false} NearHasWalk(store: Graph, root: Id, deps: seq<Id>, x: Id, k: nat)
    requires x in Near(store, root, deps, k)
    ensures Within(store, root, deps, x, k)
    decreases k
  {
    if k == 1 {
      assert EndsAt(store, root, deps, [x], x);
    } else {
      var near := Near(store, root, deps, k - 1);
      if x in near {
        NearHasWalk(store, root, deps, x, k - 1);
      } else {
        var y :| y in near && x in DepsOf(store, y);
        NearHasWalk(store, root, deps, y, k - 1);
        var p :| EndsAt(store, root, deps, p, y) && |p| <= k - 1;
        assert Edge(store, y, x);
        PathSnoc(store, p, x);
        assert EndsAt(store, root, deps, p + [x], x);
      }
    }
  }

  lemma {:induction false} WalkStaysNear(store: Graph, root: Id, deps: seq<Id>, p: seq<Id>)
    requires IsChain(store, root, deps, p)
    ensures p[|p| - 1] in Near(store, root, deps, |p|)
  {
    if |p| > 1 {
      var q := p[..|p| - 1];
      assert Edge(store, p[|p| - 2], p[|p| - 1]);
      PathPrefix(store, p, |p| - 1);
      WalkStaysNear(store, root, deps, q);
      var y := p[|p| - 2];
      assert y in Near(store, root, deps, |q|) && p[|p| - 1] in DepsOf(store, y);
    }
  }

  lemma {:induction false} NearGrows(store: Graph, root: Id, deps: seq<Id>, k: nat, l: nat)
    requires k <= l
    ensures Near(store, root, deps, k) <= Near(store, root, deps, l)
  {
    if k < l {
      NearGrows(store, root, deps, k, l - 1);
    }
  }

  lemma {:induction false} RootNear(store: Graph, root: Id, deps: seq<Id>, k: nat)
    ensures root in Near(store, root, deps, k) <==> k > 0 && root in deps
  {
    if k > 1 {
      RootNear(store, root, deps, k - 1);
    }
  }

  /** The row the graph holds for `x` once the ids in `near` have been looked up. Only the root can
      differ from the store: it carries the proposed dependencies, unless it was looked up itself and
      has a row, which then replaces them. */
  ghost function LoadedRow(store: Graph, root: Id, deps: seq<Id>, near: set<Id>, x: Id): seq<Id> {
    if x == root && !(root in near && root in store) then Dedup(deps)
    else Dedup(DepsOf(store, x))
  }

  ghost predicate Loaded(store: Graph, root: Id, deps: seq<Id>, near: set<Id>, g: Graph) {
    && g.Keys == {root} + near * store.Keys
    && forall x :: x in g ==> g[x] == LoadedRow(store, root, deps, near, x)
  }

  /** `seen` and `frontier` when `near` has been looked up and `next` is one edge more. */
  ghost predicate Explored(store: Graph, root: Id, near: set<Id>, next: set<Id>, seen: set<Id>, frontier: set<Id>) {
    && root in seen
    && seen <= {root} + next
    && frontier <= next && next == near + frontier
    && Successors(store, near) <= seen
  }

  ghost function OneMore(store: Graph, root: Id, near: set<Id>): set<Id> {
    near + (Successors(store, near) - {root})
  }

  /** `scanned` has been looked up. */
  ghost predicate Scanned(store: Graph, g0: Graph, seen0: set<Id>, scanned: set<Id>, g: Graph, seen: set<Id>, next: seq<Id>) {
    && g.Keys == g0.Keys + scanned
    && (forall x :: x in g ==> g[x] == if x in scanned then Dedup(DepsOf(store, x)) else g0[x])
    && seen == seen0 + Successors(store, scanned)
    && Elements(next) == seen - seen0
  }

  /** The scan of one level's rows, in any order. */
  method Scan(store: Graph, g0: Graph, seen0: set<Id>, frontier: seq<Id>)
    returns (g: Graph, seen: set<Id>, next: seq<Id>)
    ensures Scanned(store, g0, seen0, Elements(frontier) * store.Keys, g, seen, next)
    ensures seen == seen0 + Successors(store, Elements(frontier))
  {
    g, seen, next := g0, seen0, [];
    var rows := set x | x in frontier && x in store;
    ghost var all := rows;
    assert all == Elements(frontier) * store.Keys;
    NothingScanned(store, g0, seen0, all - rows);
    while rows != {}
      invariant rows <= all
      invariant Scanned(store, g0, seen0, all - rows, g, seen, next)
    {
      var id :| id in rows;
      assert id in store && id !in all - rows;
      g, seen, next := ScanRow(store, id, g0, seen0, all - rows, g, seen, next);
      assert all - (rows - {id}) == all - rows + {id};
      rows := rows - {id};
    }
    assert all - rows == all;
    RowlessHaveNoSuccessors(store, Elements(frontier));
  }

  lemma NothingScanned(store: Graph, g: Graph, seen: set<Id>, none: set<Id>)
    requires none == {}
    ensures Scanned(store, g, seen, none, g, seen, [])
  {
  }

  lemma RowlessHaveNoSuccessors(store: Graph, xs: set<Id>)
    ensures Successors(store, xs * store.Keys) == Successors(store, xs)
  {
    assert forall x :: x in xs && DepsOf(store, x) != [] ==> x in xs * store.Keys;
  }

  method ScanRow(store: Graph, id: Id, ghost g0: Graph, ghost start: set<Id>, ghost scanned: set<Id>,
                 g1: Graph, seen1: set<Id>, next1: seq<Id>)
    returns (g: Graph, seen: set<Id>, next: seq<Id>)
    requires id in store && id !in scanned
    requires Scanned(store, g0, start, scanned, g1, seen1, next1)
    ensures Scanned(store, g0, start, scanned + {id}, g, seen, next)
  {
    var deps := Unique(store[id]);
    g := g1[id := deps];
    assert Elements(deps) == Elements(DepsOf(store, id));
    seen, next := Mark(deps, start, seen1, next1);
    SuccessorsOfOneMore(store, scanned, id);
  }

  method Mark(deps: seq<Id>, ghost start: set<Id>, seen0: set<Id>, next0: seq<Id>) returns (seen: set<Id>, next: seq<Id>)
    requires start <= seen0
    requires Elements(next0) == seen0 - start
    ensures seen == seen0 + Elements(deps)
    ensures Elements(next) == seen - start
  {
    seen, next := seen0, next0;
    for i := 0 to |deps|
      invariant seen == seen0 + Elements(deps[..i])
      invariant Elements(next) == seen - start
    {
      var d := deps[i];
      assert Elements(deps[..i + 1]) == Elements(deps[..i]) + {d};
      if d !in seen {
        seen := seen + {d};
        assert Elements(next + [d]) == Elements(next) + {d};
        next := next + [d];
      }
    }
    assert deps[..|deps|] == deps;
  }

  /** What has been seen, and what is looked up next, after `depth` levels. */
  ghost function SeenAt(store: Graph, root: Id, deps: seq<Id>, depth: nat): set<Id>
    decreases depth, 0
  {
    if depth == 0 then {root}
    else SeenAt(store, root, deps, depth - 1) + Successors(store, FrontierAt(store, root, deps, depth - 1))
  }

  ghost function FrontierAt(store: Graph, root: Id, deps: seq<Id>, depth: nat): set<Id>
    decreases depth, 1
  {
    if depth == 0 then Elements(deps)
    else SeenAt(store, root, deps, depth) - SeenAt(store, root, deps, depth - 1)
  }

  lemma {:induction false} FrontierStaysEmpty(store: Graph, root: Id, deps: seq<Id>, k: nat, l: nat)
    requires k <= l && FrontierAt(store, root, deps, k) == {}
    ensures FrontierAt(store, root, deps, l) == {}
  {
    if k < l {
      FrontierStaysEmpty(store, root, deps, k, l - 1);
      assert Successors(store, {}) == {};
    }
  }

  /** What the loader looks up at a level, by walks alone: at the first level the dependencies of the
      root; later an id other than the root at the end of a walk of that many edges from one of them,
      unless a shorter one, of an edge at least, ends there. A dependency of the root can be looked up a
      second time, because it was not marked as seen. */
  ghost predicate LookedUpAt(store: Graph, root: Id, deps: seq<Id>, depth: nat, x: Id) {
    if depth == 0 then x in deps
    else
      && x != root
      && (exists p :: EndsAt(store, root, deps, p, x) && |p| == depth + 1)
      && forall p :: EndsAt(store, root, deps, p, x) ==> |p| == 1 || |p| > depth
  }

  /** Seen is the root and what is at the end of a walk with at least one stored edge. */
  ghost predicate SeenByWalk(store: Graph, root: Id, deps: seq<Id>, depth: nat, x: Id) {
    x == root || exists p :: EndsAt(store, root, deps, p, x) && 2 <= |p| <= depth + 1
  }

  lemma {:induction false} SeenHasWalk(store: Graph, root: Id, deps: seq<Id>, depth: nat, x: Id)
    requires x in SeenAt(store, root, deps, depth)
    ensures SeenByWalk(store, root, deps, depth, x)
    decreases depth
  {
    if depth > 0 && x != root {
      if x in SeenAt(store, root, deps, depth - 1) {
        SeenHasWalk(store, root, deps, depth - 1, x);
      } else {
        var y :| y in FrontierAt(store, root, deps, depth - 1) && x in DepsOf(store, y);
        FrontierHasWalk(store, root, deps, depth - 1, y);
        var p :| EndsAt(store, root, deps, p, y) && |p| <= depth;
        OneStepOn(store, root, deps, p, y, x);
      }
    }
  }

  lemma OneStepOn(store: Graph, root: Id, deps: seq<Id>, p: seq<Id>, y: Id, x: Id)
    requires EndsAt(store, root, deps, p, y) && x in DepsOf(store, y) && x != root
    ensures EndsAt(store, root, deps, p + [x], x)
  {
    assert Edge(store, y, x);
    PathSnoc(store, p, x);
  }

  lemma FrontierComesFrom(store: Graph, root: Id, deps: seq<Id>, depth: nat, y: Id) returns (z: Id)
    requires depth > 0 && y in FrontierAt(store, root, deps, depth)
    ensures z in FrontierAt(store, root, deps, depth - 1) && y in DepsOf(store, z) && y != root
  {
    hide DepsOf;
    RootIsSeen(store, root, deps, depth - 1);
    z :| z in FrontierAt(store, root, deps, depth - 1) && y in DepsOf(store, z);
  }

  lemma {:induction false} FrontierHasWalk(store: Graph, root: Id, deps: seq<Id>, depth: nat, y: Id)
    requires y in FrontierAt(store, root, deps, depth)
    ensures exists p :: EndsAt(store, root, deps, p, y) && |p| <= depth + 1
    decreases depth
  {
    if depth == 0 {
      assert EndsAt(store, root, deps, [y], y);
    } else {
      hide EndsAt, FrontierAt, DepsOf;
      var z := FrontierComesFrom(store, root, deps, depth, y);
      FrontierHasWalk(store, root, deps, depth - 1, z);
      var p :| EndsAt(store, root, deps, p, z) && |p| <= depth;
      OneStepOn(store, root, deps, p, z, y);
    }
  }

  lemma {:induction false} RootIsSeen(store: Graph, root: Id, deps: seq<Id>, depth: nat)
    ensures root in SeenAt(store, root, deps, depth)
  {
    if depth > 0 {
      RootIsSeen(store, root, deps, depth - 1);
    }
  }

  /** What a seen row depends on is seen one level later. */
  lemma {:induction false} SeenSpreads(store: Graph, root: Id, deps: seq<Id>, depth: nat, y: Id, x: Id)
    requires y in SeenAt(store, root, deps, depth) && y != root && Edge(store, y, x)
    ensures x in SeenAt(store, root, deps, depth + 1)
  {
    if y in FrontierAt(store, root, deps, depth) {
      assert x in DepsOf(store, y);
    } else if depth > 0 {
      SeenSpreads(store, root, deps, depth - 1, y, x);
    }
  }

  lemma {:induction false} WalkIsSeen(store: Graph, root: Id, deps: seq<Id>, depth: nat, p: seq<Id>)
    requires IsChain(store, root, deps, p) && 2 <= |p| <= depth + 1
    ensures p[|p| - 1] in SeenAt(store, root, deps, depth)
    decreases depth
  {
    var y, x := p[|p| - 2], p[|p| - 1];
    assert Edge(store, y, x);
    if |p| <= depth {
      WalkIsSeen(store, root, deps, depth - 1, p);
    } else if |p| == 2 {
      assert y in FrontierAt(store, root, deps, 0) && x in DepsOf(store, y);
    } else {
      PathPrefix(store, p, |p| - 1);
      WalkIsSeen(store, root, deps, depth - 1, p[..|p| - 1]);
      SeenSpreads(store, root, deps, depth - 1, y, x);
    }
  }

  lemma SeenIsWalked(store: Graph, root: Id, deps: seq<Id>, depth: nat, x: Id)
    ensures x in SeenAt(store, root, deps, depth) <==> SeenByWalk(store, root, deps, depth, x)
  {
    RootIsSeen(store, root, deps, depth);
    if x in SeenAt(store, root, deps, depth) {
      SeenHasWalk(store, root, deps, depth, x);
    } else if p :| EndsAt(store, root, deps, p, x) && 2 <= |p| <= depth + 1 {
      WalkIsSeen(store, root, deps, depth, p);
    }
  }

  /** The frontier of every level is what the walks say it is. */
  lemma FrontierIsLookedUp(store: Graph, root: Id, deps: seq<Id>, depth: nat, x: Id)
    ensures x in FrontierAt(store, root, deps, depth) <==> LookedUpAt(store, root, deps, depth, x)
  {
    if depth > 0 {
      SeenIsWalked(store, root, deps, depth, x);
      SeenIsWalked(store, root, deps, depth - 1, x);
    }
  }

  /** The query for a level fails that the loader does ask for. */
  ghost predicate LevelFails(store: Graph, root: Id, deps: seq<Id>, fails: nat -> bool, depth: nat) {
    fails(depth) && FrontierAt(store, root, deps, depth) != {}
  }

  ghost predicate LoadFails(store: Graph, root: Id, deps: seq<Id>, limit: nat, fails: nat -> bool) {
    exists depth: nat :: depth < limit && LevelFails(store, root, deps, fails, depth)
  }

  /** `depth` levels have been looked up. */
  ghost predicate LevelsDone(store: Graph, root: Id, deps: seq<Id>, depth: nat, g: Graph, seen: set<Id>, frontier: seq<Id>) {
    var near, next := Near(store, root, deps, depth), Near(store, root, deps, depth + 1);
    && Loaded(store, root, deps, near, g)
    && Explored(store, root, near, next, seen, Elements(frontier))
    && seen == SeenAt(store, root, deps, depth)
    && Elements(frontier) == FrontierAt(store, root, deps, depth)
  }

  /** One level: look the frontier up. */
  method Level(store: Graph, root: Id, deps: seq<Id>, ghost depth: nat, g0: Graph, seen0: set<Id>, frontier0: seq<Id>)
    returns (g: Graph, seen: set<Id>, frontier: seq<Id>)
    requires LevelsDone(store, root, deps, depth, g0, seen0, frontier0)
    ensures LevelsDone(store, root, deps, depth + 1, g, seen, frontier)
  {
    hide LevelsDone, Successors;
    g, seen, frontier := Scan(store, g0, seen0, frontier0);
    LevelDone(store, root, deps, depth, g0, seen0, frontier0, g, seen, frontier);
  }

  lemma LevelDone(store: Graph, root: Id, deps: seq<Id>, depth: nat,
                  g0: Graph, seen0: set<Id>, frontier0: seq<Id>, g: Graph, seen: set<Id>, frontier: seq<Id>)
    requires LevelsDone(store, root, deps, depth, g0, seen0, frontier0)
    requires g.Keys == g0.Keys + Elements(frontier0) * store.Keys
    requires forall x :: x in g ==> g[x] == if x in Elements(frontier0) * store.Keys then Dedup(DepsOf(store, x)) else g0[x]
    requires seen == seen0 + Successors(store, Elements(frontier0)) && Elements(frontier) == seen - seen0
    ensures LevelsDone(store, root, deps, depth + 1, g, seen, frontier)
  {
    hide Loaded, Explored, Successors, Near, SeenAt, FrontierAt;
    var near, next := Near(store, root, deps, depth), Near(store, root, deps, depth + 1);
    LevelLoaded(store, root, deps, near, Elements(frontier0), g0, g);
    LevelExplored(store, root, near, next, seen0, Elements(frontier0));
    NextLevel(store, root, deps, depth);
    assert next == near + Elements(frontier0) by {
      FrontierCompletes(store, root, near, next, seen0, Elements(frontier0));
    }
  }

  lemma FrontierCompletes(store: Graph, root: Id, near: set<Id>, next: set<Id>, seen: set<Id>, frontier: set<Id>)
    requires Explored(store, root, near, next, seen, frontier)
    ensures next == near + frontier
  {
  }

  lemma NextLevel(store: Graph, root: Id, deps: seq<Id>, depth: nat)
    ensures Near(store, root, deps, depth + 2) == OneMore(store, root, Near(store, root, deps, depth + 1))
    ensures SeenAt(store, root, deps, depth + 1)
            == SeenAt(store, root, deps, depth) + Successors(store, FrontierAt(store, root, deps, depth))
    ensures FrontierAt(store, root, deps, depth + 1) == SeenAt(store, root, deps, depth + 1) - SeenAt(store, root, deps, depth)
  {
  }

  lemma LevelLoaded(store: Graph, root: Id, deps: seq<Id>, near: set<Id>, frontier: set<Id>, g0: Graph, g: Graph)
    requires Loaded(store, root, deps, near, g0)
    requires g.Keys == g0.Keys + frontier * store.Keys
    requires forall x :: x in g ==> g[x] == if x in frontier * store.Keys then Dedup(DepsOf(store, x)) else g0[x]
    ensures Loaded(store, root, deps, near + frontier, g)
  {
  }

  lemma LevelExplored(store: Graph, root: Id, near: set<Id>, next: set<Id>, seen0: set<Id>, frontier: set<Id>)
    requires Explored(store, root, near, next, seen0, frontier)
    ensures var seen := seen0 + Successors(store, frontier);
            Explored(store, root, next, OneMore(store, root, next), seen, seen - seen0)
  {
    assert Successors(store, next) == Successors(store, near) + Successors(store, frontier);
  }

  method Start(store: Graph, root: Id, deps: seq<Id>) returns (g: Graph, seen: set<Id>, frontier: seq<Id>)
    ensures LevelsDone(store, root, deps, 0, g, seen, frontier)
  {
    frontier := Unique(deps);
    g := map[root := frontier];
    seen := {root};
  }

  /** The loop over levels. `fails` says for each level whether its query, or the scan of its rows,
      fails; the first failure ends the load. */
  method LoadLevels(store: Graph, root: Id, deps: seq<Id>, limit: nat, fails: nat -> bool)
    returns (g: Graph, ghost seen: set<Id>, frontier: seq<Id>, depth: nat, failed: bool)
    ensures failed <==> LoadFails(store, root, deps, limit, fails)
    ensures !failed ==> depth <= limit && (depth == limit || frontier == [])
    ensures LevelsDone(store, root, deps, depth, g, seen, frontier)
  {
    hide Loaded, Explored, Near, SeenAt, FrontierAt, LoadFails;
    var visited;
    g, visited, frontier := Start(store, root, deps);
    depth := 0;
    while depth < limit && |frontier| > 0
      invariant depth <= limit
      invariant LevelsDone(store, root, deps, depth, g, visited, frontier)
      invariant forall d: nat :: d < depth ==> !LevelFails(store, root, deps, fails, d)
    {
      assert frontier[0] in Elements(frontier);
      if fails(depth) {
        FailureEndsLoad(store, root, deps, limit, fails, depth);
        return g, visited, frontier, depth, true;
      }
      g, visited, frontier := Level(store, root, deps, depth, g, visited, frontier);
      depth := depth + 1;
    }
    NoMoreFailures(store, root, deps, limit, fails, depth);
    seen, failed := visited, false;
  }

  lemma FailureEndsLoad(store: Graph, root: Id, deps: seq<Id>, limit: nat, fails: nat -> bool, depth: nat)
    requires depth < limit && LevelFails(store, root, deps, fails, depth)
    ensures LoadFails(store, root, deps, limit, fails)
  {
  }

  lemma NoMoreFailures(store: Graph, root: Id, deps: seq<Id>, limit: nat, fails: nat -> bool, depth: nat)
    requires depth >= limit || FrontierAt(store, root, deps, depth) == {}
    requires forall d: nat :: d < depth ==> !LevelFails(store, root, deps, fails, d)
    ensures !LoadFails(store, root, deps, limit, fails)
  {
    forall d: nat | d < limit
      ensures !LevelFails(store, root, deps, fails, d)
    {
      if depth <= d {
        FrontierStaysEmpty(store, root, deps, depth, d);
      }
    }
  }

  lemma LoadFailsByWalks(store: Graph, root: Id, deps: seq<Id>, limit: nat, fails: nat -> bool)
    ensures LoadFails(store, root, deps, limit, fails)
            <==> exists depth: nat, x :: depth < limit && fails(depth) && LookedUpAt(store, root, deps, depth, x)
  {
    hide LookedUpAt, FrontierAt;
    if depth: nat :| depth < limit && LevelFails(store, root, deps, fails, depth) {
      var x :| x in FrontierAt(store, root, deps, depth);
      FrontierIsLookedUp(store, root, deps, depth, x);
    }
    if depth: nat, x :| depth < limit && fails(depth) && LookedUpAt(store, root, deps, depth, x) {
      FrontierIsLookedUp(store, root, deps, depth, x);
      assert LevelFails(store, root, deps, fails, depth);
    }
  }

  /** The loop leaves something to look up exactly if the walks reach beyond the limit. */
  lemma WhatIsLeft(store: Graph, root: Id, deps: seq<Id>, depth: nat, limit: nat, frontier: seq<Id>)
    requires depth <= limit && (depth == limit || frontier == [])
    requires Elements(frontier) == FrontierAt(store, root, deps, depth)
    ensures |frontier| > 0 <==> exists x :: LookedUpAt(store, root, deps, limit, x)
  {
    hide LookedUpAt, FrontierAt;
    if |frontier| > 0 {
      assert frontier[0] in Elements(frontier);
      FrontierIsLookedUp(store, root, deps, limit, frontier[0]);
    } else {
      FrontierStaysEmpty(store, root, deps, depth, limit);
    }
    if x :| LookedUpAt(store, root, deps, limit, x) {
      FrontierIsLookedUp(store, root, deps, limit, x);
    }
  }

  /** Nothing is returned exactly if a level that is looked up fails. Root dependencies are not marked as
      seen up front, so a row may be loaded twice; that changes nothing. `truncated` is the condition
      under which the source logs its warning; without it nothing reachable is missing. The limit is
      maxGraphDepth in the source. */
  method LoadGraph(store: Graph, root: Id, deps: seq<Id>, limit: nat, fails: nat -> bool)
    returns (g: Option<Graph>, truncated: bool)
    ensures g.None? <==> LoadFails(store, root, deps, limit, fails)
    ensures g.None? <==> exists depth: nat, x :: depth < limit && fails(depth) && LookedUpAt(store, root, deps, depth, x)
    ensures g.Some? ==> Loaded(store, root, deps, Near(store, root, deps, limit), g.value)
    ensures g.Some? ==> (truncated <==> exists x :: LookedUpAt(store, root, deps, limit, x))
    ensures g.Some? && !truncated ==> NothingBeyond(store, root, deps, limit)
  {
    hide LookedUpAt, LoadFails, Loaded, Near, FrontierAt, SeenAt;
    LoadFailsByWalks(store, root, deps, limit, fails);
    var loaded, frontier, depth, failed;
    ghost var seen;
    loaded, seen, frontier, depth, failed := LoadLevels(store, root, deps, limit, fails);
    if failed {
      return None, false;
    }
    truncated := |frontier| > 0;
    WhatIsLeft(store, root, deps, depth, limit, frontier);
    if !truncated {
      EmptyFrontierIsClosed(store, root, deps, depth, limit);
    }
    g := Some(loaded);
  }

  /** Everything reachable is within `k` edges: the depth limit cut nothing off. */
  ghost predicate NothingBeyond(store: Graph, root: Id, deps: seq<Id>, k: nat) {
    forall x :: Reachable(store, root, deps, x) ==> Within(store, root, deps, x, k)
  }

  lemma EmptyFrontierIsClosed(store: Graph, root: Id, deps: seq<Id>, k: nat, l: nat)
    requires k <= l && Near(store, root, deps, k + 1) == Near(store, root, deps, k)
    ensures Near(store, root, deps, l) == Near(store, root, deps, k)
    ensures NothingBeyond(store, root, deps, l)
  {
    NothingFurther(store, root, deps, k, l);
    forall x | Reachable(store, root, deps, x)
      ensures Within(store, root, deps, x, l)
    {
      var p :| EndsAt(store, root, deps, p, x);
      var far := |p| + l;
      NearIsWithin(store, root, deps, x, far);
      NearIsWithin(store, root, deps, x, l);
      NothingFurther(store, root, deps, k, far);
    }
  }

  lemma {:induction false} NothingFurther(store: Graph, root: Id, deps: seq<Id>, k: nat, l: nat)
    requires k <= l && Near(store, root, deps, k + 1) == Near(store, root, deps, k)
    ensures Near(store, root, deps, l) == Near(store, root, deps, k)
  {
    if l > k {
      NothingFurther(store, root, deps, k, l - 1);
    }
  }
}
