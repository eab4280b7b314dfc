/** The partition a list of pairs induces, stated twice without any forest: by merging
    representatives pair by pair, and by chains of pairs. */
module Partition {
  type Pair = (string, string)

  /** The representative of `x` after merging the pairs in order: merging (a, b) sends
      everything represented by b's representative to a's. */
  function Rep(pairs: seq<Pair>, x: string): string {
    if pairs == [] then x
    else
      var before := pairs[..|pairs| - 1];
      var (a, b) := pairs[|pairs| - 1];
      if Rep(before, x) == Rep(before, b) then Rep(before, a) else Rep(before, x)
  }

  predicate Adjacent(pairs: seq<Pair>, x: string, y: string) {
    (x, y) in pairs || (y, x) in pairs
  }

  predicate IsChain(pairs: seq<Pair>, c: seq<string>, x: string, y: string) {
    && c != [] && c[0] == x && c[|c| - 1] == y
    && forall i :: 0 <= i < |c| - 1 ==> Adjacent(pairs, c[i], c[i + 1])
  }

  /** The reflexive, symmetric and transitive closure of the pairs. */
  ghost predicate Linked(pairs: seq<Pair>, x: string, y: string) {
    exists c :: IsChain(pairs, c, x, y)
  }

  lemma LinkedOne(pairs: seq<Pair>, x: string, y: string)
    requires x == y || Adjacent(pairs, x, y)
    ensures Linked(pairs, x, y)
  {
    assert IsChain(pairs, if x == y then [x] else [x, y], x, y);
  }

  lemma LinkedSymmetric(pairs: seq<Pair>, x: string, y: string)
    requires Linked(pairs, x, y)
    ensures Linked(pairs, y, x)
  {
    var c :| IsChain(pairs, c, x, y);
    var d := seq(|c|, i requires 0 <= i < |c| => c[|c| - 1 - i]);
    forall i | 0 <= i < |d| - 1 ensures Adjacent(pairs, d[i], d[i + 1]) {
      assert Adjacent(pairs, c[|c| - 2 - i], c[|c| - 2 - i + 1]);
    }
    assert IsChain(pairs, d, y, x);
  }

  lemma LinkedTransitive(pairs: seq<Pair>, x: string, y: string, z: string)
    requires Linked(pairs, x, y) && Linked(pairs, y, z)
    ensures Linked(pairs, x, z)
  {
    var c :| IsChain(pairs, c, x, y);
    var d :| IsChain(pairs, d, y, z);
    var e := c + d[1..];
    forall i | 0 <= i < |e| - 1 ensures Adjacent(pairs, e[i], e[i + 1]) {
      if i >= |c| - 1 {
        assert e[i] == d[i - (|c| - 1)] && e[i + 1] == d[i - (|c| - 1) + 1];
      }
    }
    assert IsChain(pairs, e, x, z);
  }

  lemma LinkedMore(before: seq<Pair>, pairs: seq<Pair>, x: string, y: string)
    requires Linked(before, x, y)
    requires forall u, v :: Adjacent(before, u, v) ==> Adjacent(pairs, u, v)
    ensures Linked(pairs, x, y)
  {
    var c :| IsChain(before, c, x, y);
    assert IsChain(pairs, c, x, y);
  }

  lemma {:induction false} AdjacentSameRep(pairs: seq<Pair>, x: string, y: string)
    requires Adjacent(pairs, x, y)
    ensures Rep(pairs, x) == Rep(pairs, y)
  {
    var before := pairs[..|pairs| - 1];
    assert pairs == before + [pairs[|pairs| - 1]];
    if Adjacent(before, x, y) {
      AdjacentSameRep(before, x, y);
    }
  }

  lemma {:induction false} ChainSameRep(pairs: seq<Pair>, c: seq<string>, x: string, y: string)
    requires IsChain(pairs, c, x, y)
    ensures Rep(pairs, x) == Rep(pairs, y)
  {
    if |c| > 1 {
      AdjacentSameRep(pairs, c[0], c[1]);
      ChainSameRep(pairs, c[1..], c[1], y);
    }
  }

  lemma {:induction false} LinkedToRep(pairs: seq<Pair>, x: string)
    ensures Linked(pairs, x, Rep(pairs, x))
  {
    if pairs == [] {
      LinkedOne(pairs, x, x);
    } else {
      var before := pairs[..|pairs| - 1];
      var (a, b) := pairs[|pairs| - 1];
      assert pairs == before + [(a, b)];
      LinkedToRep(before, x);
      LinkedMore(before, pairs, x, Rep(before, x));
      if Rep(before, x) == Rep(before, b) {
        LinkedToRep(before, b);
        LinkedSymmetric(before, b, Rep(before, b));
        LinkedMore(before, pairs, Rep(before, b), b);
        LinkedTransitive(pairs, x, Rep(before, b), b);
        LinkedOne(pairs, b, a);
        LinkedTransitive(pairs, x, b, a);
        LinkedToRep(before, a);
        LinkedMore(before, pairs, a, Rep(before, a));
        LinkedTransitive(pairs, x, a, Rep(before, a));
      }
    }
  }

  /** Two ids share a representative exactly when a chain of pairs joins them. */
  lemma SameRepIffLinked(pairs: seq<Pair>, x: string, y: string)
    ensures Rep(pairs, x) == Rep(pairs, y) <==> Linked(pairs, x, y)
  {
    if Linked(pairs, x, y) {
      var c :| IsChain(pairs, c, x, y);
      ChainSameRep(pairs, c, x, y);
    }
    if Rep(pairs, x) == Rep(pairs, y) {
      LinkedToRep(pairs, x);
      LinkedToRep(pairs, y);
      LinkedSymmetric(pairs, y, Rep(pairs, y));
      LinkedTransitive(pairs, x, Rep(pairs, x), y);
    }
  }

  /** Neither the order of the pairs, nor repeating or turning them round, changes the partition. */
  lemma PartitionIgnoresOrder(pairs: seq<Pair>, others: seq<Pair>, x: string, y: string)
    requires forall u, v :: Adjacent(pairs, u, v) <==> Adjacent(others, u, v)
    ensures Rep(pairs, x) == Rep(pairs, y) <==> Rep(others, x) == Rep(others, y)
  {
    SameRepIffLinked(pairs, x, y);
    SameRepIffLinked(others, x, y);
    if Linked(pairs, x, y) { LinkedMore(pairs, others, x, y); }
    if Linked(others, x, y) { LinkedMore(others, pairs, x, y); }
  }

  /** The representative itself, and with it the name of the cluster, does depend on the order. */
  lemma RepDependsOnOrder()
    ensures Rep([("a", "c"), ("b", "c")], "c") == "b"
    ensures Rep([("b", "c"), ("a", "c")], "c") == "a"
  {
    assert [("a", "c"), ("b", "c")][..1] == [("a", "c")];
    assert [("b", "c"), ("a", "c")][..1] == [("b", "c")];
    assert Rep([("a", "c")], "b") == "b" && Rep([("a", "c")], "c") == "a";
    assert Rep([("b", "c")], "a") == "a" && Rep([("b", "c")], "c") == "b";
  }

  /** A representative stands for itself and is one of the ids. */
  lemma RepIsFixed(pairs: seq<Pair>, x: string)
    ensures Rep(pairs, Rep(pairs, x)) == Rep(pairs, x)
  {
    LinkedToRep(pairs, x);
    SameRepIffLinked(pairs, x, Rep(pairs, x));
  }
}

/** The parent map of the disjoint-set forest, with path halving and no ranks. */
module UnionFind {
  import opened Partition

  type Parents = map<string, string>

  /** The parent of `x` is an id, and a link that leaves `x` goes down in `h`. */
  ghost predicate Falls(p: Parents, h: map<string, nat>, x: string)
    requires x in p && h.Keys == p.Keys
  {
    p[x] in p && (p[x] == x || h[p[x]] < h[x])
  }

  /** `h` falls along every parent link that leaves a node: the forest has no cycle. */
  ghost predicate Ranked(p: Parents, h: map<string, nat>) {
    h.Keys == p.Keys && forall x {:trigger Falls(p, h, x)} :: x in p ==> Falls(p, h, x)
  }

  ghost predicate Forest(p: Parents) {
    exists h :: Ranked(p, h)
  }

  ghost function RootBy(p: Parents, h: map<string, nat>, x: string): (r: string)
    requires Ranked(p, h) && x in p
    ensures r in p && p[r] == r
    decreases h[x]
  {
    assert Falls(p, h, x);
    if p[x] == x then x else RootBy(p, h, p[x])
  }

  lemma {:induction false} RootUnique(p: Parents, h: map<string, nat>, k: map<string, nat>, x: string)
    requires Ranked(p, h) && Ranked(p, k) && x in p
    ensures RootBy(p, h, x) == RootBy(p, k, x)
    decreases h[x]
  {
    assert Falls(p, h, x);
    if p[x] != x {
      RootUnique(p, h, k, p[x]);
    }
  }

  /** The root of `x`: where following parents ends. */
  ghost function Root(p: Parents, x: string): (r: string)
    requires Forest(p) && x in p
    ensures r in p && p[r] == r
  {
    var h :| Ranked(p, h);
    RootBy(p, h, x)
  }

  lemma RootIsRootBy(p: Parents, h: map<string, nat>, x: string)
    requires Ranked(p, h) && x in p
    ensures Root(p, x) == RootBy(p, h, x)
  {
    var k :| Ranked(p, k) && Root(p, x) == RootBy(p, k, x);
    RootUnique(p, h, k, x);
  }

  function Halved(p: Parents, x: string): Parents
    requires x in p && p[x] in p
  {
    p[x := p[p[x]]]
  }

  /** Pointing a node at its grandparent keeps the same ranking, ... */
  lemma HalvingKeepsRank(p: Parents, h: map<string, nat>, x: string)
    requires Ranked(p, h) && x in p
    ensures p[x] in p && Ranked(Halved(p, x), h)
  {
    assert Falls(p, h, x);
    assert Falls(p, h, p[x]);
    var q := Halved(p, x);
    forall y | y in q ensures Falls(q, h, y) {
      assert Falls(p, h, y);
    }
  }

  /** ... and moves no root. */
  lemma {:induction false} HalvingKeepsRoots(p: Parents, h: map<string, nat>, x: string, y: string)
    requires Ranked(p, h) && x in p && y in p
    requires p[x] in p && Ranked(Halved(p, x), h)
    ensures RootBy(Halved(p, x), h, y) == RootBy(p, h, y)
    decreases h[y]
  {
    assert Falls(p, h, y);
    if p[y] != y {
      HalvingKeepsRoots(p, h, x, p[y]);
      assert Falls(p, h, p[y]);
      if y == x && p[p[y]] != p[y] {
        HalvingKeepsRoots(p, h, x, p[p[y]]);
      }
    }
  }

  /** The ranking after root `b` is hung under root `a`: b's tree is lifted above a. */
  ghost function Lifted(p: Parents, h: map<string, nat>, a: string, b: string): (k: map<string, nat>)
    requires Ranked(p, h) && a in p && b in p
    ensures k.Keys == p.Keys
  {
    map x | x in p :: if RootBy(p, h, x) == b then h[x] + h[a] + 1 else h[x]
  }

  lemma LiftedRanks(p: Parents, h: map<string, nat>, a: string, b: string)
    requires Ranked(p, h) && a in p && b in p && p[a] == a && p[b] == b && a != b
    ensures Ranked(p[b := a], Lifted(p, h, a, b))
  {
    forall x | x in p ensures Falls(p[b := a], Lifted(p, h, a, b), x) {
      assert Falls(p, h, x);
    }
  }

  /** Hanging root `b` under root `a` sends exactly b's tree to `a`. */
  lemma {:induction false} LinkMovesRoots(p: Parents, h: map<string, nat>, a: string, b: string, y: string)
    requires Ranked(p, h) && a in p && b in p && p[a] == a && p[b] == b && a != b && y in p
    requires Ranked(p[b := a], Lifted(p, h, a, b))
    ensures RootBy(p[b := a], Lifted(p, h, a, b), y) == if RootBy(p, h, y) == b then a else RootBy(p, h, y)
    decreases h[y]
  {
    assert Falls(p, h, y);
    if p[y] != y {
      LinkMovesRoots(p, h, a, b, p[y]);
    }
  }

  /** The two forests have the same ids, and every id has the same root in both. */
  ghost predicate SameRoots(p: Parents, q: Parents) {
    && Forest(p) && Forest(q) && q.Keys == p.Keys
    && forall x {:trigger Root(q, x)} :: x in p ==> Root(q, x) == Root(p, x)
  }

  /** `q` is `p` with the tree of `b` moved to the root of `a`, and nothing else. */
  ghost predicate Merged(p: Parents, q: Parents, a: string, b: string)
    requires Forest(p) && a in p && b in p
  {
    && Forest(q) && q.Keys == p.Keys
    && forall x {:trigger Root(q, x)} :: x in p ==>
         Root(q, x) == if Root(p, x) == Root(p, b) then Root(p, a) else Root(p, x)
  }

  lemma LinkMerges(p: Parents, a: string, b: string)
    requires Forest(p) && a in p && b in p && p[a] == a && p[b] == b && a != b
    ensures Merged(p, p[b := a], a, b)
  {
    var h :| Ranked(p, h);
    var q := p[b := a];
    var k := Lifted(p, h, a, b);
    LiftedRanks(p, h, a, b);
    RootIsRootBy(p, h, a);
    RootIsRootBy(p, h, b);
    forall x {:trigger Root(q, x)} | x in p
      ensures Root(q, x) == if Root(p, x) == Root(p, b) then Root(p, a) else Root(p, x)
    {
      LinkMovesRoots(p, h, a, b, x);
      RootIsRootBy(p, h, x);
      RootIsRootBy(q, k, x);
    }
  }

  lemma RootOfRoot(p: Parents, x: string)
    requires Forest(p) && x in p && p[x] == x
    ensures Root(p, x) == x
  {
    var h :| Ranked(p, h);
    RootIsRootBy(p, h, x);
  }

  class UnionFind {
    var parent: Parents

    constructor (ids: seq<string>)
      ensures parent.Keys == set x | x in ids
      ensures Forest(parent) && forall x :: x in parent ==> parent[x] == x
    {
      parent := map[];
      new;
      for i := 0 to |ids|
        invariant parent.Keys == set x | x in ids[..i]
        invariant forall x :: x in parent ==> parent[x] == x
      {
        parent := parent[ids[i] := ids[i]];
        assert ids[..i + 1] == ids[..i] + [ids[i]];
      }
      assert ids[..|ids|] == ids;
      assert Ranked(parent, map x | x in parent :: 0 as nat);
    }

    /** Walks to the root, halving the path behind it; no id's root changes. */
    method Find(id: string) returns (root: string)
      requires Forest(parent) && id in parent
      modifies this
      ensures SameRoots(old(parent), parent)
      ensures root == Root(old(parent), id) && root in parent && parent[root] == root
    {
      ghost var p := parent;
      ghost var h :| Ranked(p, h);
      root := id;
      while parent[root] != root
        invariant parent.Keys == p.Keys && root in p && Ranked(parent, h)
        invariant RootBy(parent, h, root) == RootBy(p, h, id)
        invariant forall x {:trigger RootBy(parent, h, x)} :: x in p ==> RootBy(parent, h, x) == RootBy(p, h, x)
        decreases h[root]
      {
        assert Falls(parent, h, root);
        assert Falls(parent, h, parent[root]);
        HalvingKeepsRank(parent, h, root);
        forall x | x in p ensures RootBy(Halved(parent, root), h, x) == RootBy(parent, h, x) {
          HalvingKeepsRoots(parent, h, root, x);
        }
        parent := parent[root := parent[parent[root]]];
        root := parent[root];
      }
      forall x | x in p ensures Root(parent, x) == Root(p, x) {
        RootIsRootBy(p, h, x);
        RootIsRootBy(parent, h, x);
      }
      RootIsRootBy(p, h, id);
    }

    /** The tree of `b` joins the root of `a`; every other tree stays. */
    method Union(a: string, b: string)
      requires Forest(parent) && a in parent && b in parent
      modifies this
      ensures Merged(old(parent), parent, a, b)
    {
      var rootA := Find(a);
      RootOfRoot(parent, rootA);
      var rootB := Find(b);
      assert Root(parent, rootA) == rootA && Root(parent, a) == rootA;
      if rootA != rootB {
        RootOfRoot(parent, rootB);
        LinkMerges(parent, rootA, rootB);
        parent := parent[rootB := rootA];
      }
    }
  }

  /** Every tree's root is the representative its members get from the pairs. */
  ghost predicate Refines(p: Parents, pairs: seq<Pair>) {
    Forest(p) && forall x {:trigger Root(p, x)} :: x in p ==> Root(p, x) == Rep(pairs, x)
  }

  lemma MergeRefines(p: Parents, q: Parents, pairs: seq<Pair>, a: string, b: string)
    requires Refines(p, pairs) && a in p && b in p && Merged(p, q, a, b)
    ensures Refines(q, pairs + [(a, b)])
  {
    var after := pairs + [(a, b)];
    assert after[..|pairs|] == pairs;
    forall x {:trigger Root(q, x)} | x in q ensures Root(q, x) == Rep(after, x) {
      assert Root(p, x) == Rep(pairs, x);
      assert Root(p, a) == Rep(pairs, a);
      assert Root(p, b) == Rep(pairs, b);
    }
  }

  /** The union loop: the forest's roots are the representatives of the pairs, so by
      `SameRepIffLinked` two ids end in one tree exactly when a chain of pairs joins them. */
  method UnionAll(uf: UnionFind, pairs: seq<Pair>)
    requires Forest(uf.parent) && forall x :: x in uf.parent ==> uf.parent[x] == x
    requires forall i :: 0 <= i < |pairs| ==> pairs[i].0 in uf.parent && pairs[i].1 in uf.parent
    modifies uf
    ensures uf.parent.Keys == old(uf.parent.Keys) && Refines(uf.parent, pairs)
  {
    forall x {:trigger Root(uf.parent, x)} | x in uf.parent ensures Root(uf.parent, x) == x {
      RootOfRoot(uf.parent, x);
    }
    for i := 0 to |pairs|
      invariant uf.parent.Keys == old(uf.parent.Keys) && Refines(uf.parent, pairs[..i])
    {
      ghost var p := uf.parent;
      var (a, b) := pairs[i];
      uf.Union(a, b);
      MergeRefines(p, uf.parent, pairs[..i], a, b);
      assert pairs[..i + 1] == pairs[..i] + [(a, b)];
    }
    assert pairs[..|pairs|] == pairs;
  }
}
