/** Infrastructure clusters: merging the pairs a query returns, then grouping, sorting and naming. */
module Clusters {
  import opened Common
  import opened Text
  import opened Sorting
  import opened Partition
  import UnionFind
  import SetDiff

  /** A row of the pair query. */
  datatype PairRow = PairRow(id1: string, host1: string, id2: string, host2: string)

  datatype Cluster = Cluster(id: string, targetCount: nat, targetIds: seq<string>, targetLabels: seq<string>)

  /** The pairs kept: rows with an empty id are dropped. */
  function PairsOf(rows: seq<PairRow>): seq<Pair> {
    if rows == [] then []
    else
      var row := rows[|rows| - 1];
      PairsOf(rows[..|rows| - 1]) + if row.id1 == "" || row.id2 == "" then [] else [(row.id1, row.id2)]
  }

  function Ids(pairs: seq<Pair>): set<string> {
    (set p | p in pairs :: p.0) + (set p | p in pairs :: p.1)
  }

  /** The host of each id: the last kept row that names the id decides. */
  function HostsOf(rows: seq<PairRow>): map<string, string> {
    if rows == [] then map[]
    else
      var row := rows[|rows| - 1];
      var hosts := HostsOf(rows[..|rows| - 1]);
      if row.id1 == "" || row.id2 == "" then hosts else hosts[row.id1 := row.host1][row.id2 := row.host2]
  }

  lemma {:induction false} HostsOfKeys(rows: seq<PairRow>)
    ensures HostsOf(rows).Keys == Ids(PairsOf(rows))
  {
    if rows != [] {
      HostsOfKeys(rows[..|rows| - 1]);
    }
  }

  /** The ids represented by `root`. */
  ghost function Members(pairs: seq<Pair>, root: string): set<string> {
    set x | x in Ids(pairs) && Rep(pairs, x) == root
  }

  /** The representatives of groups of at least two. */
  ghost function Roots(pairs: seq<Pair>): set<string> {
    set x | x in Ids(pairs) && |Members(pairs, Rep(pairs, x))| >= 2 :: Rep(pairs, x)
  }

  function LabelsOf(hosts: map<string, string>, members: seq<string>): seq<string>
    requires forall x :: x in members ==> x in hosts
  {
    seq(|members|, i requires 0 <= i < |members| => hosts[members[i]])
  }

  ghost function ClusterOf(rows: seq<PairRow>, root: string): Cluster {
    var pairs := PairsOf(rows);
    var members := Listing(Members(pairs, root));
    HostsOfKeys(rows);
    ListsElements(members, Members(pairs, root));
    Cluster("cluster:" + root, |members|, members, SortStrings(LabelsOf(HostsOf(rows), members)))
  }

  /** Larger clusters first, equal sizes by id. */
  predicate Before(a: Cluster, b: Cluster) {
    if a.targetCount != b.targetCount then a.targetCount > b.targetCount else Less(a.id, b.id)
  }

  lemma BeforeIsStrictWeak()
    ensures StrictWeak(Before)
  {
    LessIsTotal();
  }

  ghost predicate IsClusterAmong(rows: seq<PairRow>, roots: set<string>, c: Cluster) {
    exists root :: root in roots && c == ClusterOf(rows, root)
  }

  /** `clusters` are those of `roots`, once each. */
  ghost predicate Collected(rows: seq<PairRow>, roots: set<string>, clusters: seq<Cluster>) {
    Distinct(clusters) && forall c :: c in clusters <==> IsClusterAmong(rows, roots, c)
  }

  /** The clusters of `rows`, once each and in order. */
  ghost predicate IsClusterList(rows: seq<PairRow>, clusters: seq<Cluster>) {
    && Collected(rows, Roots(PairsOf(rows)), clusters)
    && Ordered(Before, clusters)
  }

  lemma ClusterIdInjective(rows: seq<PairRow>, r: string, s: string)
    ensures ClusterOf(rows, r).id == ClusterOf(rows, s).id <==> r == s
  {
    assert ClusterOf(rows, r).id[8..] == r;
    assert ClusterOf(rows, s).id[8..] == s;
  }

  lemma SeparatedById(rows: seq<PairRow>, x: Cluster, y: Cluster)
    requires IsClusterAmong(rows, Roots(PairsOf(rows)), x) && IsClusterAmong(rows, Roots(PairsOf(rows)), y)
    ensures Before(x, y) || x == y || Before(y, x)
  {
    var r :| r in Roots(PairsOf(rows)) && x == ClusterOf(rows, r);
    var s :| s in Roots(PairsOf(rows)) && y == ClusterOf(rows, s);
    ClusterIdInjective(rows, r, s);
    LessTotal(x.id, y.id);
  }

  /** The result is a function of the rows: no map iteration order shows in it. */
  lemma ClusterListUnique(rows: seq<PairRow>, a: seq<Cluster>, b: seq<Cluster>)
    requires IsClusterList(rows, a) && IsClusterList(rows, b)
    ensures a == b
  {
    DistinctSameElements(a, b);
    forall i, j | 0 <= i < j < |a| ensures Before(a[i], a[j]) || a[i] == a[j] || Before(a[j], a[i]) {
      SeparatedById(rows, a[i], a[j]);
    }
    SortedUnique(Before, a, b);
  }

  lemma RootOfCluster(rows: seq<PairRow>, clusters: seq<Cluster>, c: Cluster) returns (root: string)
    requires IsClusterList(rows, clusters) && c in clusters
    ensures root in Roots(PairsOf(rows)) && c == ClusterOf(rows, root)
    ensures Lists(c.targetIds, Members(PairsOf(rows), root))
    ensures forall x :: x in c.targetIds <==> x in Ids(PairsOf(rows)) && Rep(PairsOf(rows), x) == root
  {
    assert IsClusterAmong(rows, Roots(PairsOf(rows)), c);
    root :| root in Roots(PairsOf(rows)) && c == ClusterOf(rows, root);
    ListsElements(c.targetIds, Members(PairsOf(rows), root));
  }

  /** Clusters are named apart, their members are strictly increasing and at least two, and the count is right. */
  lemma ClustersWellFormed(rows: seq<PairRow>, clusters: seq<Cluster>)
    requires IsClusterList(rows, clusters)
    ensures forall i, j :: 0 <= i < j < |clusters| ==> clusters[i].id != clusters[j].id
    ensures forall c :: c in clusters ==>
              && c.targetCount == |c.targetIds| >= 2
              && forall i, j :: 0 <= i < j < |c.targetIds| ==> Less(c.targetIds[i], c.targetIds[j])
  {
    forall i, j | 0 <= i < j < |clusters| ensures clusters[i].id != clusters[j].id {
      var r := RootOfCluster(rows, clusters, clusters[i]);
      var s := RootOfCluster(rows, clusters, clusters[j]);
      ClusterIdInjective(rows, r, s);
    }
    forall c | c in clusters
      ensures c.targetCount == |c.targetIds| >= 2
      ensures forall i, j :: 0 <= i < j < |c.targetIds| ==> Less(c.targetIds[i], c.targetIds[j])
    {
      var r := RootOfCluster(rows, clusters, c);
      ListsElements(c.targetIds, Members(PairsOf(rows), r));
    }
  }

  lemma ClusterOfRoot(rows: seq<PairRow>, clusters: seq<Cluster>, root: string) returns (c: Cluster)
    requires IsClusterList(rows, clusters) && root in Roots(PairsOf(rows))
    ensures c in clusters && forall x :: x in c.targetIds <==> x in Members(PairsOf(rows), root)
  {
    c := ClusterOf(rows, root);
    assert IsClusterAmong(rows, Roots(PairsOf(rows)), c);
    ListsElements(c.targetIds, Members(PairsOf(rows), root));
  }

  ghost predicate Together(clusters: seq<Cluster>, x: string, y: string) {
    exists c :: c in clusters && x in c.targetIds && y in c.targetIds
  }

  lemma TogetherIffSameRep(rows: seq<PairRow>, clusters: seq<Cluster>, x: string, y: string)
    requires IsClusterList(rows, clusters)
    requires x in Ids(PairsOf(rows)) && y in Ids(PairsOf(rows)) && x != y
    ensures Together(clusters, x, y) <==> Rep(PairsOf(rows), x) == Rep(PairsOf(rows), y)
  {
    var pairs := PairsOf(rows);
    if Together(clusters, x, y) {
      var c :| c in clusters && x in c.targetIds && y in c.targetIds;
      var root := RootOfCluster(rows, clusters, c);
    }
    if Rep(pairs, x) == Rep(pairs, y) {
      AtLeastTwo(Members(pairs, Rep(pairs, x)), x, y);
      var c := ClusterOfRoot(rows, clusters, Rep(pairs, x));
      assert x in c.targetIds && y in c.targetIds;
    }
  }

  /** Two different ids share a cluster exactly when a chain of pairs joins them. */
  lemma SameClusterIffLinked(rows: seq<PairRow>, clusters: seq<Cluster>, x: string, y: string)
    requires IsClusterList(rows, clusters)
    requires x in Ids(PairsOf(rows)) && y in Ids(PairsOf(rows)) && x != y
    ensures Together(clusters, x, y) <==> Linked(PairsOf(rows), x, y)
  {
    TogetherIffSameRep(rows, clusters, x, y);
    SameRepIffLinked(PairsOf(rows), x, y);
  }

  lemma AtLeastTwo(m: set<string>, x: string, y: string)
    requires x in m && y in m && x != y
    ensures |m| >= 2
  {
    assert |m - {x}| == |m| - 1;
    assert y in m - {x};
  }

  /** No id is in two clusters. */
  lemma ClustersDisjoint(rows: seq<PairRow>, clusters: seq<Cluster>, i: nat, j: nat, x: string)
    requires IsClusterList(rows, clusters)
    requires i < |clusters| && j < |clusters| && x in clusters[i].targetIds && x in clusters[j].targetIds
    ensures i == j
  {
    var r := RootOfCluster(rows, clusters, clusters[i]);
    var s := RootOfCluster(rows, clusters, clusters[j]);
  }

  /** The query only pairs different ids. */
  predicate JoinsDifferent(pairs: seq<Pair>) {
    forall p :: p in pairs ==> p.0 != p.1
  }

  /** With such pairs every id is in a cluster. */
  lemma EveryIdClustered(rows: seq<PairRow>, clusters: seq<Cluster>, x: string)
    requires IsClusterList(rows, clusters) && JoinsDifferent(PairsOf(rows)) && x in Ids(PairsOf(rows))
    ensures exists c :: c in clusters && x in c.targetIds
  {
    var pairs := PairsOf(rows);
    var p :| p in pairs && (p.0 == x || p.1 == x);
    LinkedOne(pairs, p.0, p.1);
    SameClusterIffLinked(rows, clusters, p.0, p.1);
    assert Together(clusters, p.0, p.1);
  }

  ghost function TotalCount(clusters: seq<Cluster>): nat {
    if clusters == [] then 0 else TotalCount(clusters[..|clusters| - 1]) + clusters[|clusters| - 1].targetCount
  }

  ghost function Covered(clusters: seq<Cluster>): set<string> {
    set i, x | 0 <= i < |clusters| && x in clusters[i].targetIds :: x
  }

  lemma CoverOneMore(clusters: seq<Cluster>, n: nat)
    requires 0 < n <= |clusters|
    ensures Covered(clusters[..n]) == Covered(clusters[..n - 1]) + SetDiff.Elements(clusters[n - 1].targetIds)
  {
    forall x ensures x in Covered(clusters[..n]) <==>
        x in Covered(clusters[..n - 1]) || x in clusters[n - 1].targetIds {
      if x in clusters[n - 1].targetIds {
        assert x in clusters[..n][n - 1].targetIds;
      }
      if x in Covered(clusters[..n - 1]) {
        var i :| 0 <= i < n - 1 && x in clusters[..n - 1][i].targetIds;
        assert x in clusters[..n][i].targetIds;
      }
    }
  }

  lemma NotYetCovered(rows: seq<PairRow>, clusters: seq<Cluster>, n: nat, x: string)
    requires IsClusterList(rows, clusters) && 0 < n <= |clusters| && x in clusters[n - 1].targetIds
    ensures x !in Covered(clusters[..n - 1])
  {
    if x in Covered(clusters[..n - 1]) {
      var i :| 0 <= i < n - 1 && x in clusters[..n - 1][i].targetIds;
      ClustersDisjoint(rows, clusters, i, n - 1, x);
    }
  }

  lemma MemberSetSize(rows: seq<PairRow>, clusters: seq<Cluster>, c: Cluster)
    requires IsClusterList(rows, clusters) && c in clusters
    ensures |SetDiff.Elements(c.targetIds)| == c.targetCount
  {
    var root := RootOfCluster(rows, clusters, c);
    var m := Members(PairsOf(rows), root);
    ListsElements(c.targetIds, m);
    assert SetDiff.Elements(c.targetIds) == m;
  }

  lemma {:induction false} PrefixCount(rows: seq<PairRow>, clusters: seq<Cluster>, n: nat)
    requires IsClusterList(rows, clusters) && n <= |clusters|
    ensures TotalCount(clusters[..n]) == |Covered(clusters[..n])|
  {
    if n > 0 {
      var c := clusters[n - 1];
      PrefixCount(rows, clusters, n - 1);
      assert clusters[..n][..n - 1] == clusters[..n - 1];
      CoverOneMore(clusters, n);
      MemberSetSize(rows, clusters, c);
      forall x | x in c.targetIds ensures x !in Covered(clusters[..n - 1]) {
        NotYetCovered(rows, clusters, n, x);
      }
      assert Covered(clusters[..n - 1]) !! SetDiff.Elements(c.targetIds);
    }
  }

  /** The target counts add up to the number of ids. */
  lemma CountsAddUp(rows: seq<PairRow>, clusters: seq<Cluster>)
    requires IsClusterList(rows, clusters) && JoinsDifferent(PairsOf(rows))
    ensures TotalCount(clusters) == |Ids(PairsOf(rows))|
  {
    PrefixCount(rows, clusters, |clusters|);
    assert clusters[..|clusters|] == clusters;
    forall x ensures x in Covered(clusters) <==> x in Ids(PairsOf(rows)) {
      if x in Covered(clusters) {
        var i :| 0 <= i < |clusters| && x in clusters[i].targetIds;
        var root := RootOfCluster(rows, clusters, clusters[i]);
      }
      if x in Ids(PairsOf(rows)) {
        EveryIdClustered(rows, clusters, x);
        var c :| c in clusters && x in c.targetIds;
        var i :| 0 <= i < |clusters| && clusters[i] == c;
      }
    }
    assert Covered(clusters) == Ids(PairsOf(rows));
  }

  /** Reads the query's rows: the pairs kept, the ids in them, and the last host seen for each id. */
  method ReadRows(rows: seq<PairRow>) returns (pairs: seq<Pair>, idSet: set<string>, hostById: map<string, string>)
    ensures pairs == PairsOf(rows) && idSet == Ids(pairs) && hostById == HostsOf(rows)
  {
    pairs, idSet, hostById := [], {}, map[];
    for i := 0 to |rows|
      invariant pairs == PairsOf(rows[..i]) && idSet == Ids(pairs) && hostById == HostsOf(rows[..i])
    {
      var row := rows[i];
      assert rows[..i + 1][..i] == rows[..i];
      if row.id1 == "" || row.id2 == "" {
        continue;
      }
      pairs := pairs + [(row.id1, row.id2)];
      idSet := idSet + {row.id1, row.id2};
      hostById := hostById[row.id1 := row.host1][row.id2 := row.host2];
    }
    assert rows[..|rows|] == rows;
  }

  /** `groups` files each id under its representative. */
  ghost predicate GroupsOf(groups: map<string, seq<string>>, ids: seq<string>, pairs: seq<Pair>) {
    && (forall x :: x in ids ==> Rep(pairs, x) in groups)
    && forall r :: r in groups ==>
         && Distinct(groups[r]) && groups[r] != []
         && forall x :: x in groups[r] <==> x in ids && Rep(pairs, x) == r
  }

  method Group(uf: UnionFind.UnionFind, ids: seq<string>, pairs: seq<Pair>) returns (groups: map<string, seq<string>>)
    requires UnionFind.Refines(uf.parent, pairs) && Distinct(ids) && forall x :: x in ids ==> x in uf.parent
    modifies uf
    ensures GroupsOf(groups, ids, pairs)
  {
    groups := map[];
    for i := 0 to |ids|
      invariant UnionFind.Refines(uf.parent, pairs) && uf.parent.Keys == old(uf.parent.Keys)
      invariant GroupsOf(groups, ids[..i], pairs)
    {
      var id := ids[i];
      assert ids[..i + 1] == ids[..i] + [id];
      var root := uf.Find(id);
      assert root == Rep(pairs, id);
      groups := groups[root := (if root in groups then groups[root] else []) + [id]];
    }
    assert ids[..|ids|] == ids;
  }

  ghost function Large(groups: map<string, seq<string>>, keys: set<string>): set<string> {
    set r | r in keys && r in groups && |groups[r]| >= 2
  }

  /** The group filed under `root` is the representative's member set, in some order. */
  lemma GroupIsMembers(rows: seq<PairRow>, groups: map<string, seq<string>>, root: string)
    requires GroupsOf(groups, Listing(Ids(PairsOf(rows))), PairsOf(rows)) && root in groups
    ensures multiset(groups[root]) == multiset(Members(PairsOf(rows), root))
    ensures |groups[root]| == |Members(PairsOf(rows), root)|
  {
    var pairs := PairsOf(rows);
    ListsElements(Listing(Ids(pairs)), Ids(pairs));
    ListFrom(groups[root], Members(pairs, root));
    assert |multiset(groups[root])| == |multiset(Members(pairs, root))|;
  }

  lemma LargeAreRoots(rows: seq<PairRow>, groups: map<string, seq<string>>)
    requires GroupsOf(groups, Listing(Ids(PairsOf(rows))), PairsOf(rows))
    ensures Large(groups, groups.Keys) == Roots(PairsOf(rows))
  {
    var pairs := PairsOf(rows);
    ListsElements(Listing(Ids(pairs)), Ids(pairs));
    forall root ensures root in Large(groups, groups.Keys) <==> root in Roots(pairs) {
      if root in groups {
        GroupIsMembers(rows, groups, root);
        assert groups[root][0] in groups[root];
      }
    }
  }

  /** One group becomes one cluster. */
  method EmitOne(ghost rows: seq<PairRow>, root: string, group: seq<string>, hostById: map<string, string>)
      returns (c: Cluster)
    requires hostById == HostsOf(rows)
    requires multiset(group) == multiset(Members(PairsOf(rows), root))
    ensures c == ClusterOf(rows, root)
  {
    HostsOfKeys(rows);
    var members := SortStrings(group);
    ghost var m := Members(PairsOf(rows), root);
    ListsUnique(members, Listing(m), m);
    ListsElements(members, m);
    var labels := SortStrings(LabelsOf(hostById, members));
    c := Cluster("cluster:" + root, |members|, members, labels);
  }

  lemma AmongOneMore(rows: seq<PairRow>, roots: set<string>, root: string, c: Cluster)
    ensures IsClusterAmong(rows, roots + {root}, c) <==> IsClusterAmong(rows, roots, c) || c == ClusterOf(rows, root)
  {
    if IsClusterAmong(rows, roots, c) {
      var r :| r in roots && c == ClusterOf(rows, r);
      assert r in roots + {root};
    }
    assert root in roots + {root};
  }

  lemma NewCluster(rows: seq<PairRow>, roots: set<string>, root: string)
    requires root !in roots
    ensures !IsClusterAmong(rows, roots, ClusterOf(rows, root))
  {
    forall r | r in roots ensures ClusterOf(rows, r) != ClusterOf(rows, root) {
      ClusterIdInjective(rows, r, root);
    }
  }

  lemma OneMoreCluster(rows: seq<PairRow>, roots: set<string>, root: string, clusters: seq<Cluster>, c: Cluster)
    requires root !in roots && Collected(rows, roots, clusters) && c == ClusterOf(rows, root)
    ensures Collected(rows, roots + {root}, clusters + [c])
  {
    NewCluster(rows, roots, root);
    forall d ensures d in clusters + [c] <==> IsClusterAmong(rows, roots + {root}, d) {
      AmongOneMore(rows, roots, root, d);
    }
  }

  lemma LargeOneMore(groups: map<string, seq<string>>, done: set<string>, root: string)
    requires root in groups
    ensures Large(groups, done + {root}) == if |groups[root]| >= 2 then Large(groups, done) + {root}
        else Large(groups, done)
  {
  }

  /** Ranges over the groups in any order. */
  method Emit(ghost rows: seq<PairRow>, groups: map<string, seq<string>>, hostById: map<string, string>)
      returns (clusters: seq<Cluster>)
    requires hostById == HostsOf(rows)
    requires forall r :: r in groups ==> multiset(groups[r]) == multiset(Members(PairsOf(rows), r))
    ensures Collected(rows, Large(groups, groups.Keys), clusters)
  {
    clusters := [];
    var rest := groups.Keys;
    ghost var done: set<string> := {};
    while rest != {}
      invariant done !! rest && done + rest == groups.Keys
      invariant Collected(rows, Large(groups, done), clusters)
      decreases |rest|
    {
      var root :| root in rest;
      LargeOneMore(groups, done, root);
      if |groups[root]| >= 2 {
        var c := EmitOne(rows, root, groups[root], hostById);
        OneMoreCluster(rows, Large(groups, done), root, clusters, c);
        clusters := clusters + [c];
      }
      rest, done := rest - {root}, done + {root};
    }
    assert done == groups.Keys;
  }

  /** The rows come in, the clusters go out. */
  method GetInfraClusters(rows: seq<PairRow>) returns (clusters: seq<Cluster>)
    ensures IsClusterList(rows, clusters)
  {
    var pairs, idSet, hostById := ReadRows(rows);
    var ids := SortedKeys(idSet);
    ListsElements(ids, idSet);
    var uf := new UnionFind.UnionFind(ids);
    UnionFind.UnionAll(uf, pairs);
    var groups := Group(uf, ids, pairs);
    forall r | r in groups ensures multiset(groups[r]) == multiset(Members(pairs, r)) {
      GroupIsMembers(rows, groups, r);
    }
    var unsorted := Emit(rows, groups, hostById);
    LargeAreRoots(rows, groups);
    BeforeIsStrictWeak();
    clusters := SortSlice(Before, unsorted);
    SamePermutation(unsorted, clusters);
  }

  lemma {:induction false} SamePermutation<T>(a: seq<T>, b: seq<T>)
    requires multiset(a) == multiset(b)
    ensures forall x :: x in a <==> x in b
    ensures Distinct(a) ==> Distinct(b)
  {
    forall x ensures x in a <==> x in b {
      assert x in a <==> x in multiset(a);
      assert x in b <==> x in multiset(b);
    }
    if Distinct(a) {
      forall i, j | 0 <= i < j < |b| ensures b[i] != b[j] {
        DistinctCount(a, b[i]);
        CountTwice(b, i, j);
      }
    }
  }
}
