/** The clusters, said on the rows of the query alone. */
module ClusterRows {
  import opened Common
  import opened Text
  import opened Sorting
  import opened Partition
  import opened Clusters

  /** The row counts: both ids are there. */
  predicate Counts(row: PairRow) {
    row.id1 != "" && row.id2 != ""
  }

  /** Some row that counts joins the two ids. */
  predicate Joined(rows: seq<PairRow>, x: string, y: string) {
    exists i :: 0 <= i < |rows| && JoinsHere(rows[i], x, y)
  }

  predicate JoinsHere(row: PairRow, x: string, y: string) {
    Counts(row) && ((row.id1 == x && row.id2 == y) || (row.id1 == y && row.id2 == x))
  }

  /** From `x` to `y`, each id joined to the next by a row. */
  predicate IsRowChain(rows: seq<PairRow>, c: seq<string>, x: string, y: string) {
    && c != [] && c[0] == x && c[|c| - 1] == y
    && forall i :: 0 <= i < |c| - 1 ==> Joined(rows, c[i], c[i + 1])
  }

  ghost predicate Chained(rows: seq<PairRow>, x: string, y: string) {
    exists c :: IsRowChain(rows, c, x, y)
  }

  lemma {:induction false} PairsAre(rows: seq<PairRow>, x: string, y: string)
    ensures (x, y) in PairsOf(rows) <==>
            exists i :: 0 <= i < |rows| && Counts(rows[i]) && rows[i].id1 == x && rows[i].id2 == y
  {
    if rows != [] {
      PairsAre(rows[..|rows| - 1], x, y);
    }
  }

  lemma JoinedIff(rows: seq<PairRow>, x: string, y: string)
    ensures Joined(rows, x, y) <==> Adjacent(PairsOf(rows), x, y)
  {
    PairsAre(rows, x, y);
    PairsAre(rows, y, x);
    if i :| 0 <= i < |rows| && Counts(rows[i]) && rows[i].id1 == x && rows[i].id2 == y {
      assert JoinsHere(rows[i], x, y);
    }
    if i :| 0 <= i < |rows| && Counts(rows[i]) && rows[i].id1 == y && rows[i].id2 == x {
      assert JoinsHere(rows[i], x, y);
    }
  }

  lemma ChainedIff(rows: seq<PairRow>, x: string, y: string)
    ensures Chained(rows, x, y) <==> Linked(PairsOf(rows), x, y)
  {
    forall u, v ensures Joined(rows, u, v) <==> Adjacent(PairsOf(rows), u, v) {
      JoinedIff(rows, u, v);
    }
    if c :| IsRowChain(rows, c, x, y) {
      assert IsChain(PairsOf(rows), c, x, y);
    }
    if c :| IsChain(PairsOf(rows), c, x, y) {
      assert IsRowChain(rows, c, x, y);
    }
  }

  lemma ChainedIsId(rows: seq<PairRow>, x: string, y: string)
    requires Chained(rows, x, y) && x != y
    ensures x in Ids(PairsOf(rows)) && y in Ids(PairsOf(rows))
  {
    var c :| IsRowChain(rows, c, x, y);
    JoinedIff(rows, c[0], c[1]);
    JoinedIff(rows, c[|c| - 2], c[|c| - 1]);
  }

  /** Two different ids stand in one cluster exactly when a chain of rows with two non-empty ids joins them. */
  lemma TogetherIffChained(rows: seq<PairRow>, clusters: seq<Cluster>, x: string, y: string)
    requires IsClusterList(rows, clusters) && x != y
    ensures (exists c :: c in clusters && x in c.targetIds && y in c.targetIds) <==> Chained(rows, x, y)
  {
    ChainedIff(rows, x, y);
    if Chained(rows, x, y) {
      ChainedIsId(rows, x, y);
    } else if c :| c in clusters && x in c.targetIds && y in c.targetIds {
      var root := RootOfCluster(rows, clusters, c);
    }
    if x in Ids(PairsOf(rows)) && y in Ids(PairsOf(rows)) {
      SameClusterIffLinked(rows, clusters, x, y);
    }
  }

  /** Every row with two different non-empty ids puts both into one cluster. */
  lemma RowsClustered(rows: seq<PairRow>, clusters: seq<Cluster>, i: nat)
    requires IsClusterList(rows, clusters)
    requires i < |rows| && rows[i].id1 != "" && rows[i].id2 != "" && rows[i].id1 != rows[i].id2
    ensures exists c :: c in clusters && rows[i].id1 in c.targetIds && rows[i].id2 in c.targetIds
  {
    assert JoinsHere(rows[i], rows[i].id1, rows[i].id2);
    assert IsRowChain(rows, [rows[i].id1, rows[i].id2], rows[i].id1, rows[i].id2);
    TogetherIffChained(rows, clusters, rows[i].id1, rows[i].id2);
  }

  /** Row `i` is the last that counts and names `x`, and gives it the host. */
  predicate LastHost(rows: seq<PairRow>, i: nat, x: string, host: string) {
    && i < |rows| && Counts(rows[i]) && (rows[i].id1 == x || rows[i].id2 == x)
    && host == (if rows[i].id2 == x then rows[i].host2 else rows[i].host1)
    && forall j :: i < j < |rows| && Counts(rows[j]) ==> rows[j].id1 != x && rows[j].id2 != x
  }

  ghost predicate LastShown(rows: seq<PairRow>, x: string, host: string) {
    exists i: nat :: LastHost(rows, i, x, host)
  }

  lemma {:induction false} HostsAre(rows: seq<PairRow>, x: string) returns (i: nat)
    requires x in HostsOf(rows)
    ensures LastHost(rows, i, x, HostsOf(rows)[x])
  {
    var n := |rows| - 1;
    if Counts(rows[n]) && (rows[n].id1 == x || rows[n].id2 == x) {
      i := n;
    } else {
      i := HostsAre(rows[..n], x);
      assert forall j :: 0 <= j < n ==> rows[..n][j] == rows[j];
    }
  }

  /** The hosts of the ids, position by position. */
  ghost predicate HostsOfIds(rows: seq<PairRow>, ids: seq<string>, hosts: seq<string>) {
    |hosts| == |ids| && forall k :: 0 <= k < |ids| ==> LastShown(rows, ids[k], hosts[k])
  }

  /** A representative is one of the ids. */
  lemma {:induction false} RootIsMember(pairs: seq<Pair>, x: string)
    requires x in Ids(pairs)
    ensures Rep(pairs, x) in Ids(pairs) && Rep(pairs, Rep(pairs, x)) == Rep(pairs, x)
  {
    RepIsFixed(pairs, x);
    LinkedToRep(pairs, x);
    var c :| IsChain(pairs, c, x, Rep(pairs, x));
    if |c| > 1 {
      assert Adjacent(pairs, c[|c| - 2], c[|c| - 1]);
    }
  }

  /** A cluster is named after one of its ids. */
  lemma ClusterNamed(rows: seq<PairRow>, clusters: seq<Cluster>, c: Cluster)
    requires IsClusterList(rows, clusters) && c in clusters
    ensures exists root :: root in c.targetIds && c.id == "cluster:" + root
  {
    var root := RootOfCluster(rows, clusters, c);
    ClustersWellFormed(rows, clusters);
    assert c.targetIds[0] in c.targetIds;
    RootIsMember(PairsOf(rows), c.targetIds[0]);
    assert root in c.targetIds;
  }

  lemma LabelsAre(rows: seq<PairRow>, ids: seq<string>)
    requires forall x :: x in ids ==> x in HostsOf(rows)
    ensures HostsOfIds(rows, ids, LabelsOf(HostsOf(rows), ids))
  {
    var hosts := LabelsOf(HostsOf(rows), ids);
    forall k | 0 <= k < |ids| ensures LastShown(rows, ids[k], hosts[k]) {
      assert ids[k] in ids;
      var m := HostsAre(rows, ids[k]);
      assert hosts[k] == HostsOf(rows)[ids[k]];
    }
  }

  /** It shows the hosts of its ids, sorted, each as the last row that names the id gave it. */
  lemma ClusterShows(rows: seq<PairRow>, clusters: seq<Cluster>, c: Cluster)
    requires IsClusterList(rows, clusters) && c in clusters
    ensures exists hosts :: HostsOfIds(rows, c.targetIds, hosts) && multiset(c.targetLabels) == multiset(hosts)
    ensures forall i, j :: 0 <= i < j < |c.targetLabels| ==> !Less(c.targetLabels[j], c.targetLabels[i])
  {
    HostsOfKeys(rows);
    var root := RootOfCluster(rows, clusters, c);
    LabelsAre(rows, c.targetIds);
    LabelsSorted(rows, root, c);
  }

  lemma LabelsSorted(rows: seq<PairRow>, root: string, c: Cluster)
    requires c == ClusterOf(rows, root) && forall x :: x in c.targetIds ==> x in HostsOf(rows)
    ensures multiset(c.targetLabels) == multiset(LabelsOf(HostsOf(rows), c.targetIds))
    ensures Ordered(Less, c.targetLabels)
  {
  }

  /** Larger clusters come first, and of one size those with the smaller id. */
  lemma LargestFirst(rows: seq<PairRow>, clusters: seq<Cluster>, i: nat, j: nat)
    requires IsClusterList(rows, clusters) && i < j < |clusters|
    ensures |clusters[i].targetIds| >= |clusters[j].targetIds|
    ensures |clusters[i].targetIds| == |clusters[j].targetIds| ==> Less(clusters[i].id, clusters[j].id)
  {
    ClustersWellFormed(rows, clusters);
    assert clusters[i] in clusters && clusters[j] in clusters;
    assert !Before(clusters[j], clusters[i]);
    LessTotal(clusters[i].id, clusters[j].id);
  }
}
