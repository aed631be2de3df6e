/** Redis sorted sets: every member has one score, entries are ordered by score and, for equal scores,
    by the byte order of the members. Any such order on countably many members embeds into the reals,
    so it is given as an injective ranking. */
module SortedSets {
  import opened Jobs

  type ZSet = map<Member, int>

  ghost predicate Injective(rank: Member -> real) {
    forall a, b :: rank(a) == rank(b) ==> a == b
  }

  /** A member is where it was, with its score. */
  ghost predicate SameIn(z: ZSet, z': ZSet, m: Member) {
    (m in z' <==> m in z) && (m in z ==> z'[m] == z[m])
  }

  /** ZADD as a reader of the set sees it. */
  ghost predicate OnlyAdds(z: ZSet, z': ZSet, m: Member, score: int) {
    && m in z' && z'[m] == score
    && forall x :: x != m ==> SameIn(z, z', x)
  }

  /** Entry order. */
  predicate Before(rank: Member -> real, z: ZSet, a: Member, b: Member)
    requires a in z && b in z
  {
    z[a] < z[b] || (z[a] == z[b] && rank(a) < rank(b))
  }

  predicate IsFirst(rank: Member -> real, z: ZSet, m: Member) {
    m in z && forall x :: x in z ==> !Before(rank, z, x, m)
  }

  lemma {:induction false} FirstExists(rank: Member -> real, z: ZSet)
    requires z != map[]
    ensures exists m :: IsFirst(rank, z, m)
    decreases |z|
  {
    var x :| x in z;
    var rest := z - {x};
    RemoveOne(z, x);
    if |rest| == 0 {
      assert forall y :: y in z && y != x ==> y in rest.Keys;
      assert IsFirst(rank, z, x);
    } else {
      FirstExists(rank, rest);
      var m :| IsFirst(rank, rest, m);
      var first := if Before(rank, z, x, m) then x else m;
      forall y | y in z
        ensures !Before(rank, z, y, first)
      {
        if y != x {
          assert y in rest;
          assert !Before(rank, rest, y, m);
        }
      }
      assert IsFirst(rank, z, first);
    }
  }

  lemma RemoveOne(z: ZSet, m: Member)
    requires m in z
    ensures (z - {m}).Keys == z.Keys - {m} && |z - {m}| == |z| - 1
  {
    assert |(z - {m}).Keys| == |z - {m}|;
  }

  lemma FirstIsUnique(rank: Member -> real, z: ZSet, a: Member, b: Member)
    requires Injective(rank) && IsFirst(rank, z, a) && IsFirst(rank, z, b)
    ensures a == b
  {
  }

  /** The entry ZPOPMIN takes. */
  ghost function First(rank: Member -> real, z: ZSet): (m: Member)
    requires z != map[]
    ensures IsFirst(rank, z, m)
  {
    FirstExists(rank, z);
    var m :| IsFirst(rank, z, m);
    m
  }

  /** All members in entry order. */
  ghost function Listing(rank: Member -> real, z: ZSet): (s: seq<Member>)
    ensures |s| == |z|
    decreases |z|
  {
    if z == map[] then []
    else
      var m := First(rank, z);
      RemoveOne(z, m);
      [m] + Listing(rank, z - {m})
  }

  lemma {:induction false} ListingMembers(rank: Member -> real, z: ZSet, m: Member)
    ensures m in Listing(rank, z) <==> m in z
    decreases |z|
  {
    if z != map[] {
      RemoveOne(z, First(rank, z));
      ListingMembers(rank, z - {First(rank, z)}, m);
    }
  }

  lemma ListingStep(rank: Member -> real, z: ZSet)
    requires |z| > 0
    ensures Listing(rank, z) == [First(rank, z)] + Listing(rank, z - {First(rank, z)})
    ensures |z - {First(rank, z)}| == |z| - 1
  {
    RemoveOne(z, First(rank, z));
  }

  ghost predicate Ordered(rank: Member -> real, z: ZSet, s: seq<Member>) {
    && (forall m :: m in s ==> m in z)
    && forall i, j :: 0 <= i < j < |s| ==> s[i] != s[j] && Before(rank, z, s[i], s[j])
  }

  lemma {:induction false} ListingIsOrdered(rank: Member -> real, z: ZSet)
    requires Injective(rank)
    ensures Ordered(rank, z, Listing(rank, z))
    decreases |z|
  {
    if z != map[] {
      var m := First(rank, z);
      RemoveOne(z, m);
      ListingIsOrdered(rank, z - {m});
      forall x | x in Listing(rank, z)
        ensures x in z
      {
        ListingMembers(rank, z, x);
      }
      OrderedCons(rank, z, m, Listing(rank, z - {m}));
    }
  }

  lemma OrderedCons(rank: Member -> real, z: ZSet, m: Member, s: seq<Member>)
    requires Injective(rank) && IsFirst(rank, z, m) && Ordered(rank, z - {m}, s)
    ensures Ordered(rank, z, [m] + s)
  {
    var all := [m] + s;
    forall x | x in all
      ensures x in z
    {
      assert x == m || x in s;
    }
    forall i, j | 0 <= i < j < |all|
      ensures all[i] in z && all[j] in z && all[i] != all[j] && Before(rank, z, all[i], all[j])
    {
      assert all[i] in all && all[j] in all;
      var y := s[j - 1];
      assert y in s;
      if i == 0 {
        assert !Before(rank, z, y, m);
      } else {
        assert s[i - 1] in s && Before(rank, z - {m}, s[i - 1], y);
      }
    }
  }

  /** The entries with a score of at most `cutoff`. */
  function UpTo(z: ZSet, cutoff: int): ZSet {
    map m | m in z && z[m] <= cutoff :: z[m]
  }

  /** ZRANGEBYSCORE key -inf cutoff LIMIT 0 limit. A negative limit means no limit. */
  ghost function Range(rank: Member -> real, z: ZSet, cutoff: int, limit: int): seq<Member> {
    var all := Listing(rank, UpTo(z, cutoff));
    if 0 <= limit < |all| then all[..limit] else all
  }

  /** Whatever the ranking, a range holds ready members only, and all of them unless it is cut off. */
  lemma RangeWithin(rank: Member -> real, z: ZSet, cutoff: int, limit: int, m: Member)
    ensures m in Range(rank, z, cutoff, limit) ==> m in z && z[m] <= cutoff
    ensures !(0 <= limit < |UpTo(z, cutoff)|) && m in z && z[m] <= cutoff ==> m in Range(rank, z, cutoff, limit)
  {
    ListingMembers(rank, UpTo(z, cutoff), m);
  }

  /** The members of a range are ready, distinct and in entry order. */
  lemma RangeIsOrdered(rank: Member -> real, z: ZSet, cutoff: int, limit: int)
    requires Injective(rank)
    ensures Ordered(rank, z, Range(rank, z, cutoff, limit))
    ensures forall m :: m in Range(rank, z, cutoff, limit) ==> z[m] <= cutoff
  {
    var ready := UpTo(z, cutoff);
    var all := Listing(rank, ready);
    ListingIsOrdered(rank, ready);
    var k := if 0 <= limit < |all| then limit else |all|;
    assert Range(rank, z, cutoff, limit) == all[..k];
    forall m | m in ready
      ensures m in all
    {
      ListingMembers(rank, ready, m);
    }
    PrefixIsClosed(rank, ready, all, k);
    UpToIsOrdered(rank, z, cutoff, all[..k]);
  }

  /** Nothing ready comes before a member of a range without being in the range too. */
  lemma RangeIsClosed(rank: Member -> real, z: ZSet, cutoff: int, limit: int)
    requires Injective(rank)
    ensures forall m :: m in Range(rank, z, cutoff, limit) ==> m in z
    ensures forall m, x :: m in Range(rank, z, cutoff, limit) && x in z && z[x] <= cutoff && Before(rank, z, x, m)
              ==> x in Range(rank, z, cutoff, limit)
  {
    var ready := UpTo(z, cutoff);
    var all := Listing(rank, ready);
    ListingIsOrdered(rank, ready);
    var k := if 0 <= limit < |all| then limit else |all|;
    assert Range(rank, z, cutoff, limit) == all[..k];
    forall m | m in ready
      ensures m in all
    {
      ListingMembers(rank, ready, m);
    }
    PrefixIsClosed(rank, ready, all, k);
    UpToIsClosed(rank, z, cutoff, all[..k]);
  }

  lemma PrefixIsClosed(rank: Member -> real, z: ZSet, all: seq<Member>, k: nat)
    requires Ordered(rank, z, all) && k <= |all|
    requires forall m :: m in z ==> m in all
    ensures Ordered(rank, z, all[..k])
    ensures forall m, x :: m in all[..k] && x in z && Before(rank, z, x, m) ==> x in all[..k]
  {
    var s := all[..k];
    assert forall m :: m in s ==> m in all;
    forall m, x | m in s && x in z && Before(rank, z, x, m)
      ensures x in s
    {
      var i :| 0 <= i < |s| && s[i] == m;
      var j :| 0 <= j < |all| && all[j] == x;
      assert j <= i;
      assert s[j] == x;
    }
  }

  lemma UpToIsOrdered(rank: Member -> real, z: ZSet, cutoff: int, s: seq<Member>)
    requires Ordered(rank, UpTo(z, cutoff), s)
    ensures Ordered(rank, z, s) && forall m :: m in s ==> z[m] <= cutoff
  {
    var ready := UpTo(z, cutoff);
    assert forall m :: m in s ==> m in ready && m in z;
    forall i, j | 0 <= i < j < |s|
      ensures s[i] in z && s[j] in z && s[i] != s[j] && Before(rank, z, s[i], s[j])
    {
      assert s[i] in s && s[j] in s && Before(rank, ready, s[i], s[j]);
    }
  }

  lemma UpToIsClosed(rank: Member -> real, z: ZSet, cutoff: int, s: seq<Member>)
    requires forall m :: m in s ==> m in UpTo(z, cutoff)
    requires forall m, x :: m in s && x in UpTo(z, cutoff) && Before(rank, UpTo(z, cutoff), x, m) ==> x in s
    ensures forall m :: m in s ==> m in z
    ensures forall m, x :: m in s && x in z && z[x] <= cutoff && Before(rank, z, x, m) ==> x in s
  {
    assert forall m :: m in s ==> m in z;
    forall m, x | m in s && x in z && z[x] <= cutoff && Before(rank, z, x, m)
      ensures x in s
    {
      assert Before(rank, UpTo(z, cutoff), x, m);
    }
  }
}
