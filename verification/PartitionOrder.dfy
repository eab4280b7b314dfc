/** Which id can name a cluster: the root depends on the order of the pairs, and exactly how. */
module PartitionOrder {
  import opened Partition

  /** Greater ranks come first. */
  predicate Ranked(rank: Pair -> int, q: seq<Pair>) {
    forall i, j :: 0 <= i < j < |q| ==> rank(q[i]) >= rank(q[j])
  }

  /** An order of the same pairs in which the query may return them: only pairs of one rank change places. */
  predicate Reorders(rank: Pair -> int, q: seq<Pair>, pairs: seq<Pair>) {
    multiset(q) == multiset(pairs) && Ranked(rank, q)
  }

  function Select(pairs: seq<Pair>, f: Pair -> bool): seq<Pair> {
    if pairs == [] then []
    else
      var p := pairs[|pairs| - 1];
      Select(pairs[..|pairs| - 1], f) + if f(p) then [p] else []
  }

  lemma {:induction false} SelectHas(pairs: seq<Pair>, f: Pair -> bool, x: Pair)
    ensures x in Select(pairs, f) <==> x in pairs && f(x)
  {
    if pairs != [] {
      SelectHas(pairs[..|pairs| - 1], f, x);
      assert pairs == pairs[..|pairs| - 1] + [pairs[|pairs| - 1]];
    }
  }

  lemma {:induction false} SelectCount(pairs: seq<Pair>, f: Pair -> bool, x: Pair)
    ensures multiset(Select(pairs, f))[x] == if f(x) then multiset(pairs)[x] else 0
  {
    if pairs != [] {
      SelectCount(pairs[..|pairs| - 1], f, x);
      assert pairs == pairs[..|pairs| - 1] + [pairs[|pairs| - 1]];
    }
  }

  // ---- One rank on top of the ranks above it ----

  /** Neither end is yet linked to `r`. */
  ghost predicate IsAway(e: seq<Pair>, r: string, p: Pair) {
    !Linked(e, p.0, r) && !Linked(e, p.1, r)
  }

  ghost predicate IsInto(e: seq<Pair>, r: string, p: Pair) {
    !Linked(e, p.0, r) && Linked(e, p.1, r)
  }

  ghost function Away(e: seq<Pair>, l: seq<Pair>, r: string): seq<Pair> {
    Select(l, (p: Pair) => IsAway(e, r, p))
  }

  ghost function From(e: seq<Pair>, l: seq<Pair>, r: string): seq<Pair> {
    Select(l, (p: Pair) => Linked(e, p.0, r))
  }

  ghost function Into(e: seq<Pair>, l: seq<Pair>, r: string): seq<Pair> {
    Select(l, (p: Pair) => IsInto(e, r, p))
  }

  lemma Parts(e: seq<Pair>, l: seq<Pair>, r: string)
    ensures forall p :: p in Away(e, l, r) <==> p in l && IsAway(e, r, p)
    ensures forall p :: p in From(e, l, r) <==> p in l && Linked(e, p.0, r)
    ensures forall p :: p in Into(e, l, r) <==> p in l && IsInto(e, r, p)
  {
    forall p
      ensures p in Away(e, l, r) <==> p in l && IsAway(e, r, p)
      ensures p in From(e, l, r) <==> p in l && Linked(e, p.0, r)
      ensures p in Into(e, l, r) <==> p in l && IsInto(e, r, p)
    {
      SelectHas(l, (p: Pair) => IsAway(e, r, p), p);
      SelectHas(l, (p: Pair) => Linked(e, p.0, r), p);
      SelectHas(l, (p: Pair) => IsInto(e, r, p), p);
    }
  }

  /** First the pairs away from `r`, then those that begin in its cluster, then those that only end there. */
  ghost function RootOrder(e: seq<Pair>, l: seq<Pair>, r: string): seq<Pair> {
    Away(e, l, r) + From(e, l, r) + Into(e, l, r)
  }

  lemma AllParts(e: seq<Pair>, l: seq<Pair>, r: string)
    ensures multiset(RootOrder(e, l, r)) == multiset(l)
  {
    forall x ensures multiset(RootOrder(e, l, r))[x] == multiset(l)[x] {
      SelectCount(l, (p: Pair) => IsAway(e, r, p), x);
      SelectCount(l, (p: Pair) => Linked(e, p.0, r), x);
      SelectCount(l, (p: Pair) => IsInto(e, r, p), x);
    }
  }

  /** In the piece of `y` left without the cluster that `r` had, some id is second in a pair of `l` to an id of it. */
  ghost predicate Reaches(e: seq<Pair>, l: seq<Pair>, r: string, y: string) {
    exists p :: p in l && Linked(e, p.0, r) && Linked(Away(e, e + l, r), y, p.1)
  }

  /** `l` joins to the cluster of `r` only pieces that `r` reaches. */
  ghost predicate JoinsOnlyReached(e: seq<Pair>, l: seq<Pair>, r: string) {
    forall y :: Linked(e + l, y, r) && !Linked(e, y, r) ==> Reaches(e, l, r, y)
  }

  lemma LinkedInside(a: seq<Pair>, b: seq<Pair>, x: string, y: string)
    requires Linked(a, x, y) && forall p :: p in a ==> p in b
    ensures Linked(b, x, y)
  {
    LinkedMore(a, b, x, y);
  }

  lemma LinkedSame(a: seq<Pair>, b: seq<Pair>)
    requires forall p :: p in a <==> p in b
    ensures forall x, y :: Linked(a, x, y) <==> Linked(b, x, y)
  {
    forall x, y ensures Linked(a, x, y) <==> Linked(b, x, y) {
      if Linked(a, x, y) { LinkedInside(a, b, x, y); }
      if Linked(b, x, y) { LinkedInside(b, a, x, y); }
    }
  }

  lemma ReachesInside(e: seq<Pair>, d: seq<Pair>, l: seq<Pair>, m: seq<Pair>, r: string, y: string)
    requires Reaches(e, l, r, y)
    requires (forall p :: p in e <==> p in d) && forall p :: p in l ==> p in m
    ensures Reaches(d, m, r, y)
  {
    var p :| p in l && Linked(e, p.0, r) && Linked(Away(e, e + l, r), y, p.1);
    LinkedSame(e, d);
    Parts(e, e + l, r);
    Parts(d, d + m, r);
    LinkedInside(Away(e, e + l, r), Away(d, d + m, r), y, p.1);
  }

  lemma JoinsSame(e: seq<Pair>, d: seq<Pair>, l: seq<Pair>, m: seq<Pair>, r: string)
    requires (forall p :: p in e <==> p in d) && (forall p :: p in l <==> p in m)
    requires JoinsOnlyReached(e, l, r)
    ensures JoinsOnlyReached(d, m, r)
  {
    LinkedSame(e, d);
    LinkedSame(e + l, d + m);
    forall y | Linked(d + m, y, r) && !Linked(d, y, r) ensures Reaches(d, m, r, y) {
      ReachesInside(e, d, l, m, r, y);
    }
  }

  // ---- A root must reach every piece that is joined to it ----

  /** A root was one all along. */
  lemma {:induction false} RootBefore(e: seq<Pair>, l: seq<Pair>, r: string)
    requires Rep(e + l, r) == r
    ensures Rep(e, r) == r
  {
    if l == [] {
      assert e + l == e;
    } else {
      var n := |l| - 1;
      assert (e + l)[..|e + l| - 1] == e + l[..n];
      RepIsFixed(e + l[..n], l[n].0);
      RootBefore(e, l[..n], r);
    }
  }

  /** What is not linked to `r` is linked away from it. */
  lemma LinkedAway(e: seq<Pair>, l: seq<Pair>, r: string, y: string, b: string)
    requires Linked(e + l, y, b) && !Linked(e + l, b, r)
    ensures Linked(Away(e, e + l, r), y, b)
  {
    var c :| IsChain(e + l, c, y, b);
    Parts(e, e + l, r);
    forall i | 0 <= i < |c| ensures !Linked(e, c[i], r) {
      if Linked(e, c[i], r) {
        assert IsChain(e + l, c[i..], c[i], b);
        LinkedInside(e, e + l, c[i], r);
        LinkedSymmetric(e + l, c[i], b);
        LinkedTransitive(e + l, b, c[i], r);
      }
    }
    forall i | 0 <= i < |c| - 1 ensures Adjacent(Away(e, e + l, r), c[i], c[i + 1]) {
      assert Adjacent(e + l, c[i], c[i + 1]);
    }
    assert IsChain(Away(e, e + l, r), c, y, b);
  }

  lemma {:induction false} RootReaches(e: seq<Pair>, l: seq<Pair>, r: string, y: string)
    requires Rep(e + l, r) == r && Rep(e + l, y) == r && !Linked(e, y, r)
    ensures Reaches(e, l, r, y)
  {
    if l == [] {
      assert e + l == e;
      SameRepIffLinked(e, y, r);
    } else {
      var before, p := l[..|l| - 1], l[|l| - 1];
      assert l == before + [p] && e + l == (e + before) + [p];
      RootBefore(e + before, [p], r);
      if Rep(e + before, y) == r {
        RootReaches(e, before, r, y);
        ReachesInside(e, e, before, l, r, y);
      } else {
        assert (e + l)[..|e + l| - 1] == e + before && (e + l)[|e + l| - 1] == p;
        assert Rep(e + before, y) == Rep(e + before, p.1) && Rep(e + before, p.0) == r;
        SameRepIffLinked(e + before, y, p.1);
        SameRepIffLinked(e + before, p.1, r);
        LinkedAway(e, before, r, y, p.1);
        if Linked(e, p.1, r) { LinkedInside(e, e + before, p.1, r); }
        if !Linked(e, p.0, r) { RootReaches(e, before, r, p.0); }
        RootJoined(e, before, p, r, y);
      }
    }
  }

  /** The piece of `y` has just been joined to `r` by the pair `p`. */
  lemma RootJoined(e: seq<Pair>, before: seq<Pair>, p: Pair, r: string, y: string)
    requires !Linked(e, p.1, r) && Linked(Away(e, e + before, r), y, p.1)
    requires Linked(e, p.0, r) || Reaches(e, before, r, p.0)
    ensures Reaches(e, before + [p], r, y)
  {
    var l := before + [p];
    var away := Away(e, e + l, r);
    Parts(e, e + before, r);
    Parts(e, e + l, r);
    LinkedInside(Away(e, e + before, r), away, y, p.1);
    if Linked(e, p.0, r) {
      assert p in l;
    } else {
      var q :| q in before && Linked(e, q.0, r) && Linked(Away(e, e + before, r), p.0, q.1);
      LinkedInside(Away(e, e + before, r), away, p.0, q.1);
      assert IsAway(e, r, p) && p in e + l;
      assert Adjacent(away, p.1, p.0);
      LinkedOne(away, p.1, p.0);
      LinkedTransitive(away, y, p.1, p.0);
      LinkedTransitive(away, y, p.0, q.1);
      assert q in l;
    }
  }

  // ---- Whoever reaches them can stay the root ----

  /** Pairs away from a root leave its cluster as it was. */
  lemma {:induction false} Untouched(e: seq<Pair>, more: seq<Pair>, r: string, z: string)
    requires Rep(e, r) == r && forall p :: p in more ==> IsAway(e, r, p)
    ensures Rep(e + more, z) == r <==> Rep(e, z) == r
  {
    if more == [] {
      assert e + more == e;
    } else {
      var n := |more| - 1;
      assert (e + more)[..|e + more| - 1] == e + more[..n];
      assert IsAway(e, r, more[n]);
      SameRepIffLinked(e, more[n].0, r);
      SameRepIffLinked(e, more[n].1, r);
      Untouched(e, more[..n], r, z);
      Untouched(e, more[..n], r, more[n].0);
      Untouched(e, more[..n], r, more[n].1);
    }
  }

  /** Pairs that begin in the cluster of a root leave it one. */
  lemma {:induction false} RootFirst(e: seq<Pair>, more: seq<Pair>, r: string)
    requires Rep(e, r) == r && forall p :: p in more ==> Linked(e, p.0, r)
    ensures Rep(e + more, r) == r
  {
    if more == [] {
      assert e + more == e;
    } else {
      var n := |more| - 1;
      assert more[n] in more && (e + more)[..|e + more| - 1] == e + more[..n];
      RootFirst(e, more[..n], r);
      LinkedInside(e, e + more[..n], more[n].0, r);
      SameRepIffLinked(e + more[..n], more[n].0, r);
    }
  }

  /** Pairs inside clusters change nothing. */
  lemma {:induction false} PairsInside(e: seq<Pair>, more: seq<Pair>, z: string)
    requires forall p :: p in more ==> Rep(e, p.0) == Rep(e, p.1)
    ensures Rep(e + more, z) == Rep(e, z)
  {
    if more == [] {
      assert e + more == e;
    } else {
      var n := |more| - 1;
      assert more[n] in more && (e + more)[..|e + more| - 1] == e + more[..n];
      PairsInside(e, more[..n], z);
      PairsInside(e, more[..n], more[n].0);
      PairsInside(e, more[..n], more[n].1);
    }
  }

  lemma FirstPartsRoot(e: seq<Pair>, l: seq<Pair>, r: string)
    requires Rep(e, r) == r
    ensures Rep(e + (Away(e, l, r) + From(e, l, r)), r) == r
  {
    Parts(e, l, r);
    var a, f := Away(e, l, r), From(e, l, r);
    Untouched(e, a, r, r);
    forall p | p in f ensures Linked(e + a, p.0, r) {
      LinkedInside(e, e + a, p.0, r);
    }
    RootFirst(e + a, f, r);
    assert e + a + f == e + (a + f);
  }

  lemma FirstPartsReach(e: seq<Pair>, l: seq<Pair>, r: string, y: string)
    requires Rep(e, r) == r && (Linked(e, y, r) || Reaches(e, l, r, y))
    ensures Rep(e + (Away(e, l, r) + From(e, l, r)), y) == r
  {
    var both := e + (Away(e, l, r) + From(e, l, r));
    FirstPartsRoot(e, l, r);
    Parts(e, l, r);
    if Linked(e, y, r) {
      LinkedInside(e, both, y, r);
    } else {
      Parts(e, e + l, r);
      var p :| p in l && Linked(e, p.0, r) && Linked(Away(e, e + l, r), y, p.1);
      LinkedInside(Away(e, e + l, r), both, y, p.1);
      LinkedInside(e, both, p.0, r);
      LinkedOne(both, p.1, p.0);
      LinkedTransitive(both, y, p.1, p.0);
      LinkedTransitive(both, y, p.0, r);
    }
    SameRepIffLinked(both, y, r);
  }

  /** The last pairs join nothing new. */
  lemma IntoInside(e: seq<Pair>, l: seq<Pair>, r: string, p: Pair)
    requires Rep(e, r) == r && JoinsOnlyReached(e, l, r) && p in l && IsInto(e, r, p)
    ensures var both := e + (Away(e, l, r) + From(e, l, r)); Rep(both, p.0) == Rep(both, p.1)
  {
    assert p in e + l;
    LinkedOne(e + l, p.0, p.1);
    LinkedInside(e, e + l, p.1, r);
    LinkedTransitive(e + l, p.0, p.1, r);
    FirstPartsReach(e, l, r, p.0);
    FirstPartsReach(e, l, r, p.1);
  }

  lemma {:induction false} IntoChangesNothing(e: seq<Pair>, l: seq<Pair>, r: string)
    requires Rep(e, r) == r && JoinsOnlyReached(e, l, r)
    ensures var both := e + (Away(e, l, r) + From(e, l, r)); Rep(both + Into(e, l, r), r) == Rep(both, r)
  {
    var both := e + (Away(e, l, r) + From(e, l, r));
    Parts(e, l, r);
    forall p | p in Into(e, l, r) ensures Rep(both, p.0) == Rep(both, p.1) {
      IntoInside(e, l, r, p);
    }
    PairsInside(both, Into(e, l, r), r);
  }

  lemma {:induction false} RootOrderRoots(e: seq<Pair>, l: seq<Pair>, r: string)
    requires Rep(e, r) == r && JoinsOnlyReached(e, l, r)
    ensures Rep(e + RootOrder(e, l, r), r) == r
  {
    FirstPartsRoot(e, l, r);
    IntoChangesNothing(e, l, r);
    assert e + (Away(e, l, r) + From(e, l, r)) + Into(e, l, r) == e + RootOrder(e, l, r);
  }

  // ---- Rank after rank ----

  function Above(pairs: seq<Pair>, rank: Pair -> int, n: int): seq<Pair> {
    Select(pairs, (p: Pair) => rank(p) > n)
  }

  function At(pairs: seq<Pair>, rank: Pair -> int, n: int): seq<Pair> {
    Select(pairs, (p: Pair) => rank(p) == n)
  }

  function Below(pairs: seq<Pair>, rank: Pair -> int, n: int): seq<Pair> {
    Select(pairs, (p: Pair) => rank(p) < n)
  }

  lemma Levels(pairs: seq<Pair>, rank: Pair -> int, n: int)
    ensures forall p :: p in Above(pairs, rank, n) <==> p in pairs && rank(p) > n
    ensures forall p :: p in At(pairs, rank, n) <==> p in pairs && rank(p) == n
    ensures forall p :: p in Below(pairs, rank, n) <==> p in pairs && rank(p) < n
  {
    forall p
      ensures p in Above(pairs, rank, n) <==> p in pairs && rank(p) > n
      ensures p in At(pairs, rank, n) <==> p in pairs && rank(p) == n
      ensures p in Below(pairs, rank, n) <==> p in pairs && rank(p) < n
    {
      SelectHas(pairs, (p: Pair) => rank(p) > n, p);
      SelectHas(pairs, (p: Pair) => rank(p) == n, p);
      SelectHas(pairs, (p: Pair) => rank(p) < n, p);
    }
  }

  lemma AllLevels(pairs: seq<Pair>, rank: Pair -> int, n: int)
    ensures multiset(Above(pairs, rank, n)) + multiset(At(pairs, rank, n)) + multiset(Below(pairs, rank, n))
        == multiset(pairs)
  {
    var above, at, below := multiset(Above(pairs, rank, n)), multiset(At(pairs, rank, n)),
        multiset(Below(pairs, rank, n));
    forall x ensures (above + at + below)[x] == multiset(pairs)[x] {
      SelectCount(pairs, (p: Pair) => rank(p) > n, x);
      SelectCount(pairs, (p: Pair) => rank(p) == n, x);
      SelectCount(pairs, (p: Pair) => rank(p) < n, x);
    }
  }

  lemma SelectSnoc(before: seq<Pair>, p: Pair, f: Pair -> bool)
    ensures Select(before + [p], f) == Select(before, f) + if f(p) then [p] else []
  {
    assert (before + [p])[..|before + [p]| - 1] == before;
  }

  /** A ranked list is its levels one after the other. */
  lemma {:induction false} RankedLevels(q: seq<Pair>, rank: Pair -> int, n: int)
    requires Ranked(rank, q)
    ensures q == Above(q, rank, n) + At(q, rank, n) + Below(q, rank, n)
  {
    if q != [] {
      var before, p := q[..|q| - 1], q[|q| - 1];
      assert q == before + [p];
      RankedLevels(before, rank, n);
      forall b | b in before ensures rank(b) >= rank(p) {
        var i :| 0 <= i < |before| && before[i] == b;
        assert q[i] == b;
      }
      OneMore(before, p, rank, n);
    }
  }

  lemma LevelsSnoc(before: seq<Pair>, p: Pair, rank: Pair -> int, n: int)
    ensures Above(before + [p], rank, n) == Above(before, rank, n) + if rank(p) > n then [p] else []
    ensures At(before + [p], rank, n) == At(before, rank, n) + if rank(p) == n then [p] else []
    ensures Below(before + [p], rank, n) == Below(before, rank, n) + if rank(p) < n then [p] else []
  {
    SelectSnoc(before, p, (p: Pair) => rank(p) > n);
    SelectSnoc(before, p, (p: Pair) => rank(p) == n);
    SelectSnoc(before, p, (p: Pair) => rank(p) < n);
  }

  lemma OneMore(before: seq<Pair>, p: Pair, rank: Pair -> int, n: int)
    requires before == Above(before, rank, n) + At(before, rank, n) + Below(before, rank, n)
    requires forall b :: b in before ==> rank(b) >= rank(p)
    ensures var q := before + [p]; q == Above(q, rank, n) + At(q, rank, n) + Below(q, rank, n)
  {
    LevelsSnoc(before, p, rank, n);
    Levels(before, rank, n);
    if rank(p) >= n {
      EmptyOrNot(Below(before, rank, n));
    }
    if rank(p) > n {
      EmptyOrNot(At(before, rank, n));
    }
  }

  lemma EmptyOrNot(s: seq<Pair>)
    ensures s == [] || exists p :: p in s
  {
    if s != [] {
      assert s[0] in s;
    }
  }

  /** `r` is linked to `x`, and each rank joins to the cluster of `r` only pieces that `r` reaches. */
  ghost predicate CanRoot(rank: Pair -> int, pairs: seq<Pair>, x: string, r: string) {
    Linked(pairs, x, r) && forall n :: JoinsOnlyReached(Above(pairs, rank, n), At(pairs, rank, n), r)
  }

  lemma RootIsPossible(rank: Pair -> int, pairs: seq<Pair>, q: seq<Pair>, x: string)
    requires Reorders(rank, q, pairs)
    ensures CanRoot(rank, pairs, x, Rep(q, x))
  {
    var r := Rep(q, x);
    SameElements(q, pairs);
    LinkedToRep(q, x);
    RepIsFixed(q, x);
    LinkedInside(q, pairs, x, r);
    forall n ensures JoinsOnlyReached(Above(pairs, rank, n), At(pairs, rank, n), r) {
      var e, l := Above(q, rank, n), At(q, rank, n);
      RankedLevels(q, rank, n);
      RootBefore(e + l, Below(q, rank, n), r);
      forall y | Linked(e + l, y, r) && !Linked(e, y, r) ensures Reaches(e, l, r, y) {
        SameRepIffLinked(e + l, y, r);
        RootReaches(e, l, r, y);
      }
      Levels(q, rank, n);
      Levels(pairs, rank, n);
      JoinsSame(e, Above(pairs, rank, n), l, At(pairs, rank, n), r);
    }
  }

  lemma SameElements(q: seq<Pair>, pairs: seq<Pair>)
    requires multiset(q) == multiset(pairs)
    ensures forall p :: p in q <==> p in pairs
  {
    forall p ensures p in q <==> p in pairs {
      assert p in q <==> p in multiset(q);
      assert p in pairs <==> p in multiset(pairs);
    }
  }

  lemma {:induction false} LeastRank(rank: Pair -> int, pairs: seq<Pair>) returns (n: int)
    requires pairs != []
    ensures (exists p :: p in pairs && rank(p) == n) && forall p :: p in pairs ==> rank(p) >= n
  {
    var before, p := pairs[..|pairs| - 1], pairs[|pairs| - 1];
    assert pairs == before + [p];
    n := rank(p);
    if before != [] {
      var m := LeastRank(rank, before);
      n := if m < n then m else n;
    }
  }

  /** The ranks above `n` join as they do in the whole list. */
  lemma JoinsAbove(rank: Pair -> int, pairs: seq<Pair>, n: int, m: int, r: string)
    requires forall k :: JoinsOnlyReached(Above(pairs, rank, k), At(pairs, rank, k), r)
    ensures JoinsOnlyReached(Above(Above(pairs, rank, n), rank, m), At(Above(pairs, rank, n), rank, m), r)
  {
    var e := Above(pairs, rank, n);
    Levels(pairs, rank, n);
    Levels(pairs, rank, m);
    Levels(e, rank, m);
    if m > n {
      assert JoinsOnlyReached(Above(pairs, rank, m), At(pairs, rank, m), r);
      JoinsSame(Above(pairs, rank, m), Above(e, rank, m), At(pairs, rank, m), At(e, rank, m), r);
    } else {
      EmptyOrNot(At(e, rank, m));
      assert Above(e, rank, m) + [] == Above(e, rank, m);
    }
  }

  lemma {:induction false} SomeOrderRoots(rank: Pair -> int, pairs: seq<Pair>, r: string)
    requires forall n :: JoinsOnlyReached(Above(pairs, rank, n), At(pairs, rank, n), r)
    ensures exists q :: Reorders(rank, q, pairs) && Rep(q, r) == r
    decreases |pairs|
  {
    if pairs == [] {
      assert Reorders(rank, [], pairs) && Rep([], r) == r;
    } else {
      var n := LeastRank(rank, pairs);
      var above, at := Above(pairs, rank, n), At(pairs, rank, n);
      LastLevel(rank, pairs, n);
      forall m ensures JoinsOnlyReached(Above(above, rank, m), At(above, rank, m), r) {
        JoinsAbove(rank, pairs, n, m, r);
      }
      SomeOrderRoots(rank, above, r);
      var e :| Reorders(rank, e, above) && Rep(e, r) == r;
      SameElements(e, above);
      JoinsSame(above, e, at, at, r);
      RootOrderRoots(e, at, r);
      AllParts(e, at, r);
      LevelsReorder(rank, pairs, n, e, RootOrder(e, at, r));
    }
  }

  lemma LastLevel(rank: Pair -> int, pairs: seq<Pair>, n: int)
    requires (exists p :: p in pairs && rank(p) == n) && forall p :: p in pairs ==> rank(p) >= n
    ensures |Above(pairs, rank, n)| < |pairs|
    ensures multiset(Above(pairs, rank, n)) + multiset(At(pairs, rank, n)) == multiset(pairs)
  {
    Levels(pairs, rank, n);
    AllLevels(pairs, rank, n);
    EmptyOrNot(Below(pairs, rank, n));
    var p :| p in pairs && rank(p) == n;
    assert |At(pairs, rank, n)| > 0;
    assert |pairs| == |multiset(pairs)|;
    assert |Above(pairs, rank, n)| == |multiset(Above(pairs, rank, n))|;
    assert |At(pairs, rank, n)| == |multiset(At(pairs, rank, n))|;
  }

  lemma LevelsReorder(rank: Pair -> int, pairs: seq<Pair>, n: int, e: seq<Pair>, l: seq<Pair>)
    requires multiset(Above(pairs, rank, n)) + multiset(At(pairs, rank, n)) == multiset(pairs)
    requires Reorders(rank, e, Above(pairs, rank, n)) && multiset(l) == multiset(At(pairs, rank, n))
    ensures Reorders(rank, e + l, pairs)
  {
    Levels(pairs, rank, n);
    SameElements(e, Above(pairs, rank, n));
    SameElements(l, At(pairs, rank, n));
    forall i, j | 0 <= i < j < |e + l| ensures rank((e + l)[i]) >= rank((e + l)[j]) {
      if i >= |e| {
        assert l[i - |e|] in l && l[j - |e|] in l;
      } else if j >= |e| {
        assert e[i] in e && l[j - |e|] in l;
      }
    }
  }

  /** Among the orders in which the query may return the pairs, in some `r` represents `x` exactly when `r` is linked
      to `x` and each rank joins to the cluster that `r` has in the ranks above it only pieces in which some id is
      second in a pair of that rank to an id of that cluster. */
  lemma RootPossibleIff(rank: Pair -> int, pairs: seq<Pair>, x: string, r: string)
    ensures (exists q :: Reorders(rank, q, pairs) && Rep(q, x) == r) <==> CanRoot(rank, pairs, x, r)
  {
    if CanRoot(rank, pairs, x, r) {
      SomeOrderRoots(rank, pairs, r);
      var q :| Reorders(rank, q, pairs) && Rep(q, r) == r;
      SameElements(q, pairs);
      LinkedInside(pairs, q, x, r);
      SameRepIffLinked(q, x, r);
    }
    if q :| Reorders(rank, q, pairs) && Rep(q, x) == r {
      RootIsPossible(rank, pairs, q, x);
    }
  }

  /** So the root of `x`, and the id of its cluster, is the same in all these orders exactly when no other id can be
      it. */
  lemma RootFixedIff(rank: Pair -> int, pairs: seq<Pair>, x: string)
    ensures (forall q :: Reorders(rank, q, pairs) ==> Rep(q, x) == Rep(pairs, x)) <==>
        forall r :: CanRoot(rank, pairs, x, r) ==> r == Rep(pairs, x)
  {
    if forall r :: CanRoot(rank, pairs, x, r) ==> r == Rep(pairs, x) {
      forall q | Reorders(rank, q, pairs) ensures Rep(q, x) == Rep(pairs, x) {
        RootIsPossible(rank, pairs, q, x);
      }
    }
    if forall q :: Reorders(rank, q, pairs) ==> Rep(q, x) == Rep(pairs, x) {
      forall r | CanRoot(rank, pairs, x, r) ensures r == Rep(pairs, x) {
        RootPossibleIff(rank, pairs, x, r);
      }
    }
  }

  // ---- All pairs of one rank ----

  /** The pairs that do not touch `r`. */
  function Without(pairs: seq<Pair>, r: string): seq<Pair> {
    Select(pairs, (p: Pair) => p.0 != r && p.1 != r)
  }

  /** Every other id of the cluster is in a piece that, without `r`, holds some `k` with (r, k) among the pairs. */
  ghost predicate FirstInEveryPiece(pairs: seq<Pair>, r: string) {
    forall y :: Linked(pairs, y, r) && y != r ==>
      exists p :: p in pairs && p.0 == r && Linked(Without(pairs, r), y, p.1)
  }

  lemma LinkedByNone(x: string, y: string)
    ensures Linked([], x, y) <==> x == y
  {
    if x == y { LinkedOne([], x, y); }
    if c :| IsChain([], c, x, y) {
      assert |c| > 1 ==> Adjacent([], c[0], c[1]);
    }
  }

  lemma ReachesAlone(pairs: seq<Pair>, r: string, y: string)
    ensures Reaches([], pairs, r, y) <==> exists p :: p in pairs && p.0 == r && Linked(Without(pairs, r), y, p.1)
  {
    assert [] + pairs == pairs;
    Parts([], pairs, r);
    forall p ensures p in Away([], pairs, r) <==> p in Without(pairs, r) {
      SelectHas(pairs, (p: Pair) => p.0 != r && p.1 != r, p);
      LinkedByNone(p.0, r);
      LinkedByNone(p.1, r);
    }
    LinkedSame(Away([], pairs, r), Without(pairs, r));
    forall p: Pair ensures Linked([], p.0, r) <==> p.0 == r {
      LinkedByNone(p.0, r);
    }
  }

  lemma JoinsAlone(pairs: seq<Pair>, r: string)
    ensures JoinsOnlyReached([], pairs, r) <==> FirstInEveryPiece(pairs, r)
  {
    assert [] + pairs == pairs;
    forall y ensures Linked([], y, r) <==> y == r {
      LinkedByNone(y, r);
    }
    forall y ensures Reaches([], pairs, r, y) <==>
        exists p :: p in pairs && p.0 == r && Linked(Without(pairs, r), y, p.1) {
      ReachesAlone(pairs, r, y);
    }
  }

  /** With one rank any order of the pairs is allowed, and `r` must be first in a pair with some id of every piece of
      its cluster that is left without it. */
  lemma OneRank(rank: Pair -> int, n: int, pairs: seq<Pair>, x: string, r: string)
    requires forall p :: p in pairs ==> rank(p) == n
    ensures forall q :: Reorders(rank, q, pairs) <==> multiset(q) == multiset(pairs)
    ensures CanRoot(rank, pairs, x, r) <==> Linked(pairs, x, r) && FirstInEveryPiece(pairs, r)
  {
    forall q ensures Reorders(rank, q, pairs) <==> multiset(q) == multiset(pairs) {
      if multiset(q) == multiset(pairs) {
        SameElements(q, pairs);
        forall i, j | 0 <= i < j < |q| ensures rank(q[i]) >= rank(q[j]) {
          assert q[i] in q && q[j] in q;
        }
      }
    }
    OneLevel(rank, n, pairs, r);
  }

  lemma OneLevel(rank: Pair -> int, n: int, pairs: seq<Pair>, r: string)
    requires forall p :: p in pairs ==> rank(p) == n
    ensures (forall m :: JoinsOnlyReached(Above(pairs, rank, m), At(pairs, rank, m), r)) <==>
        FirstInEveryPiece(pairs, r)
  {
    Levels(pairs, rank, n);
    EmptyOrNot(Above(pairs, rank, n));
    JoinsAlone(pairs, r);
    if FirstInEveryPiece(pairs, r) {
      forall m ensures JoinsOnlyReached(Above(pairs, rank, m), At(pairs, rank, m), r) {
        if m == n {
          JoinsSame([], [], pairs, At(pairs, rank, n), r);
        } else {
          Levels(pairs, rank, m);
          EmptyOrNot(At(pairs, rank, m));
          assert Above(pairs, rank, m) + [] == Above(pairs, rank, m);
        }
      }
    } else if forall m :: JoinsOnlyReached(Above(pairs, rank, m), At(pairs, rank, m), r) {
      assert JoinsOnlyReached(Above(pairs, rank, n), At(pairs, rank, n), r);
      JoinsSame([], [], At(pairs, rank, n), pairs, r);
    }
  }
}
