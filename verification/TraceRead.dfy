/** Reading traceroute paths back: the query's rows, grouped by target and vantage and sorted. */
module TraceRead {
  import opened Common
  import opened Text
  import opened Sorting
  import opened Values
  import opened TraceStore

  datatype Row = Row(key: HopKey, host: string, props: HopProps)

  datatype PathHop = PathHop(hop: int, ip: string, caption: string, timeout: bool, rttMs: Option<real>,
      country: string, city: string, lat: Option<real>, lon: Option<real>)

  datatype Path = Path(target: string, targetLabel: string, vantage: string, vantageLabel: string, hops: seq<PathHop>)

  // ---- The query ----

  /** A hop tied to its target; the filters apply when they are not empty. */
  predicate Matches(g: Graph, target: string, snapshot: string, k: HopKey) {
    && k in g.traced && k in g.hops && k.target in g.targets
    && (target == "" || k.target == target)
    && (snapshot == "" || (k.snapshot == snapshot && g.traced[k].snapshot == snapshot))
  }

  ghost predicate HasRow(rows: seq<Row>, k: HopKey) {
    exists i :: 0 <= i < |rows| && rows[i].key == k
  }

  /** By target, vantage and number. */
  predicate RowBefore(a: Row, b: Row) {
    || Less(a.key.target, b.key.target)
    || (a.key.target == b.key.target && Less(a.key.vantage, b.key.vantage))
    || (a.key.target == b.key.target && a.key.vantage == b.key.vantage && a.key.hop < b.key.hop)
  }

  /** One row for each matching hop, in the query's order. */
  ghost predicate IsQuery(g: Graph, target: string, snapshot: string, rows: seq<Row>) {
    && (forall i, j :: 0 <= i < j < |rows| ==> rows[i].key != rows[j].key)
    && (forall k {:trigger HasRow(rows, k)} {:trigger Matches(g, target, snapshot, k)} :: HasRow(rows, k) <==>
        Matches(g, target, snapshot, k))
    && (forall i :: 0 <= i < |rows| ==> RowShows(g, rows[i]))
    && Ordered(RowBefore, rows)
  }

  predicate RowShows(g: Graph, r: Row) {
    r.key in g.hops && r.key.target in g.targets && r.host == g.targets[r.key.target] && r.props == g.hops[r.key]
  }

  // ---- Grouping ----

  function ReadVantage(v: string): string {
    if TrimSpace(v) == "" then "local" else TrimSpace(v)
  }

  function PathKey(target: string, vantage: string): string {
    target + ":" + vantage
  }

  function RowKey(r: Row): string {
    PathKey(r.key.target, ReadVantage(r.key.vantage))
  }

  function HopLabel(ip: string, timeout: bool): string {
    if timeout || ip == "" then "*" else ip
  }

  function ShowHop(n: int, p: HopProps): PathHop {
    var ip := TrimSpace(p.ip);
    PathHop(n, ip, Decimal(n) + ". " + HopLabel(ip, p.timeout), p.timeout,
        if p.rttMs > 0.0 then Some(p.rttMs) else None,
        TrimSpace(p.country), TrimSpace(p.city),
        if p.latitude != 0.0 then Some(p.latitude) else None,
        if p.longitude != 0.0 then Some(p.longitude) else None)
  }

  function ReadLabel(p: HopProps, vantage: string): string {
    if TrimSpace(p.vantageLabel) == "" then vantage else TrimSpace(p.vantageLabel)
  }

  /** A path as its first row begins it. */
  function Opened(r: Row): Path {
    var v := ReadVantage(r.key.vantage);
    Path(r.key.target, r.host, v, ReadLabel(r.props, v), [])
  }

  /** The rows of one path, in order. */
  function RowsOf(rows: seq<Row>, key: string): seq<Row> {
    if rows == [] then []
    else
      var rest := RowsOf(rows[..|rows| - 1], key);
      if RowKey(rows[|rows| - 1]) == key then rest + [rows[|rows| - 1]] else rest
  }

  function ShowAll(rows: seq<Row>): seq<PathHop> {
    seq(|rows|, i requires 0 <= i < |rows| => ShowHop(rows[i].key.hop, rows[i].props))
  }

  predicate ByHop(a: PathHop, b: PathHop) {
    a.hop < b.hop
  }

  predicate ByLabel(a: Path, b: Path) {
    if a.targetLabel == b.targetLabel then Less(a.vantage, b.vantage) else Less(a.targetLabel, b.targetLabel)
  }

  /** The path of a group: as its first row begins it, with all its hops sorted by number. */
  ghost predicate IsPathOf(rows: seq<Row>, key: string, p: Path) {
    var own := RowsOf(rows, key);
    && own != [] && p.(hops := []) == Opened(own[0])
    && multiset(p.hops) == multiset(ShowAll(own)) && Ordered(ByHop, p.hops)
  }

  function KeyOfPath(p: Path): string {
    PathKey(p.target, p.vantage)
  }

  ghost predicate HasPath(paths: seq<Path>, key: string) {
    exists i :: 0 <= i < |paths| && KeyOfPath(paths[i]) == key
  }

  /** One path for every group, sorted by label and vantage. */
  ghost predicate Grouped(rows: seq<Row>, paths: seq<Path>) {
    && (forall i, j :: 0 <= i < j < |paths| ==> KeyOfPath(paths[i]) != KeyOfPath(paths[j]))
    && (forall i :: 0 <= i < |paths| ==> IsPathOf(rows, KeyOfPath(paths[i]), paths[i]))
    && (forall i :: 0 <= i < |rows| ==> HasPath(paths, RowKey(rows[i])))
    && Ordered(ByLabel, paths)
  }

  // ---- The loops ----

  lemma {:induction false} RowsOfAre(rows: seq<Row>, key: string, i: nat)
    requires i < |RowsOf(rows, key)|
    ensures RowKey(RowsOf(rows, key)[i]) == key && RowsOf(rows, key)[i] in rows
  {
    var rest := RowsOf(rows[..|rows| - 1], key);
    if i < |rest| {
      RowsOfAre(rows[..|rows| - 1], key, i);
    }
  }

  lemma {:induction false} RowsOfHas(rows: seq<Row>, i: nat)
    requires i < |rows|
    ensures rows[i] in RowsOf(rows, RowKey(rows[i]))
    decreases |rows|
  {
    if i < |rows| - 1 {
      RowsOfHas(rows[..|rows| - 1], i);
      assert rows[..|rows| - 1][i] == rows[i];
    }
  }

  lemma ShowAllSnoc(rows: seq<Row>, r: Row)
    ensures ShowAll(rows + [r]) == ShowAll(rows) + [ShowHop(r.key.hop, r.props)]
  {
  }

  /** Groups so far: each open path shows its rows, in the order they came. */
  ghost predicate Collected(rows: seq<Row>, paths: map<string, Path>) {
    forall key {:trigger CollectedAt(rows, paths, key)} :: CollectedAt(rows, paths, key)
  }

  ghost predicate CollectedAt(rows: seq<Row>, paths: map<string, Path>, key: string) {
    && (key in paths <==> RowsOf(rows, key) != [])
    && (key in paths ==> paths[key] == Opened(RowsOf(rows, key)[0]).(hops := ShowAll(RowsOf(rows, key))))
  }

  /** The groups with one more row. */
  function WithRow(paths: map<string, Path>, r: Row): map<string, Path> {
    var path := if RowKey(r) in paths then paths[RowKey(r)] else Opened(r);
    paths[RowKey(r) := path.(hops := path.hops + [ShowHop(r.key.hop, r.props)])]
  }

  /** One row: opens its group if there is none, and appends the hop. */
  method AddRow(ghost rows: seq<Row>, r: Row, paths: map<string, Path>) returns (after: map<string, Path>)
    requires Collected(rows, paths)
    ensures Collected(rows + [r], after)
  {
    CollectedNext(rows, r, paths);
    after := WithRow(paths, r);
  }

  method Group(rows: seq<Row>) returns (paths: map<string, Path>)
    ensures Collected(rows, paths)
  {
    paths := map[];
    for i := 0 to |rows|
      invariant Collected(rows[..i], paths)
    {
      paths := AddRow(rows[..i], rows[i], paths);
      assert rows[..i + 1] == rows[..i] + [rows[i]];
    }
    assert rows[..|rows|] == rows;
  }

  lemma CollectedNext(rows: seq<Row>, r: Row, paths: map<string, Path>)
    requires Collected(rows, paths)
    ensures Collected(rows + [r], WithRow(paths, r))
  {
    var after := WithRow(paths, r);
    assert (rows + [r])[..|rows|] == rows;
    ShowAllSnoc(RowsOf(rows, RowKey(r)), r);
    forall key ensures CollectedAt(rows + [r], after, key) {
      assert CollectedAt(rows, paths, key);
    }
  }

  lemma LabelOrder()
    ensures StrictWeak(ByLabel)
  {
    LessIsTotal();
    forall a: Path, b: Path, c: Path {:trigger ByLabel(a, b), ByLabel(b, c)} | ByLabel(a, b) && ByLabel(b, c)
        ensures ByLabel(a, c) {
      LabelTransitive(a, b, c);
    }
    forall a: Path, b: Path, c: Path {:trigger ByLabel(a, b), ByLabel(b, c)} | ByLabel(a, c)
        ensures ByLabel(a, b) || ByLabel(b, c) {
      LabelSplits(a, b, c);
    }
  }

  lemma LabelTransitive(a: Path, b: Path, c: Path)
    requires ByLabel(a, b) && ByLabel(b, c)
    ensures ByLabel(a, c)
  {
    LessIsTotal();
    assert !Less(a.targetLabel, a.targetLabel);
  }

  lemma LabelSplits(a: Path, b: Path, c: Path)
    requires ByLabel(a, c)
    ensures ByLabel(a, b) || ByLabel(b, c)
  {
    LessTotal(a.targetLabel, b.targetLabel);
    LessTotal(b.targetLabel, c.targetLabel);
    LessTotal(a.vantage, b.vantage);
    LessTotal(b.vantage, c.vantage);
    if Less(b.targetLabel, a.targetLabel) && Less(a.targetLabel, c.targetLabel) {
      LessTransitive(b.targetLabel, a.targetLabel, c.targetLabel);
    }
    if Less(b.vantage, a.vantage) && Less(a.vantage, c.vantage) {
      LessTransitive(b.vantage, a.vantage, c.vantage);
    }
  }

  /** One group's path, sorted. */
  method SortHops(rows: seq<Row>, key: string, begun: Path) returns (p: Path)
    requires RowsOf(rows, key) != [] && begun == Opened(RowsOf(rows, key)[0]).(hops := ShowAll(RowsOf(rows, key)))
    ensures IsPathOf(rows, key, p) && KeyOfPath(p) == key
  {
    var sorted := SortSlice(ByHop, begun.hops);
    p := begun.(hops := sorted);
    RowsOfAre(rows, key, 0);
  }

  /** One finished path for each of the keys. */
  ghost predicate Finished(rows: seq<Row>, keys: seq<string>, found: seq<Path>) {
    && |found| == |keys|
    && forall i :: 0 <= i < |keys| ==> IsPathOf(rows, keys[i], found[i]) && KeyOfPath(found[i]) == keys[i]
  }

  /** Sorts the groups one by one. */
  method SortGroups(rows: seq<Row>, groups: map<string, Path>, keys: seq<string>) returns (found: seq<Path>)
    requires Collected(rows, groups) && forall i :: 0 <= i < |keys| ==> keys[i] in groups
    ensures Finished(rows, keys, found)
  {
    found := [];
    for i := 0 to |keys|
      invariant Finished(rows, keys[..i], found)
    {
      assert CollectedAt(rows, groups, keys[i]);
      var p := SortHops(rows, keys[i], groups[keys[i]]);
      FinishedNext(rows, keys, i, found, p);
      found := found + [p];
    }
    assert keys[..|keys|] == keys;
  }

  lemma FinishedNext(rows: seq<Row>, keys: seq<string>, i: nat, found: seq<Path>, p: Path)
    requires i < |keys| && Finished(rows, keys[..i], found) && IsPathOf(rows, keys[i], p) && KeyOfPath(p) == keys[i]
    ensures Finished(rows, keys[..i + 1], found + [p])
  {
    forall j | 0 <= j < i + 1
      ensures IsPathOf(rows, keys[..i + 1][j], (found + [p])[j]) && KeyOfPath((found + [p])[j]) == keys[..i + 1][j]
    {
      assert j < i ==> keys[..i][j] == keys[j];
    }
  }

  method ReadPaths(rows: seq<Row>) returns (paths: seq<Path>)
    ensures Grouped(rows, paths)
  {
    var groups := Group(rows);
    var keys := Range(groups.Keys);
    var found := SortGroups(rows, groups, keys);
    LabelOrder();
    paths := SortSlice(ByLabel, found);
    EveryGroupOpen(rows, groups);
    Regrouped(rows, keys, found, paths);
  }

  lemma EveryGroupOpen(rows: seq<Row>, groups: map<string, Path>)
    requires Collected(rows, groups)
    ensures forall key :: RowsOf(rows, key) != [] ==> key in groups
  {
    forall key | RowsOf(rows, key) != [] ensures key in groups {
      assert CollectedAt(rows, groups, key);
    }
  }

  lemma Regrouped(rows: seq<Row>, keys: seq<string>, found: seq<Path>, paths: seq<Path>)
    requires Distinct(keys) && Finished(rows, keys, found) && forall key :: RowsOf(rows, key) != [] ==> key in keys
    requires multiset(paths) == multiset(found) && Ordered(ByLabel, paths)
    ensures Grouped(rows, paths)
  {
    DistinctBy(found, paths, KeyOfPath);
    forall i | 0 <= i < |paths| ensures IsPathOf(rows, KeyOfPath(paths[i]), paths[i]) {
      assert paths[i] in multiset(found);
    }
    forall i | 0 <= i < |rows| ensures HasPath(paths, RowKey(rows[i])) {
      RowsOfHas(rows, i);
      var j :| 0 <= j < |keys| && keys[j] == RowKey(rows[i]);
      assert found[j] in multiset(paths);
    }
  }

  /** Rearranging a list keeps its elements apart under any key. */
  lemma DistinctBy<T(!new), K>(s: seq<T>, t: seq<T>, key: T -> K)
    requires multiset(s) == multiset(t)
    requires forall i, j :: 0 <= i < j < |s| ==> key(s[i]) != key(s[j])
    ensures forall i, j :: 0 <= i < j < |t| ==> key(t[i]) != key(t[j])
  {
    assert Distinct(s);
    forall i, j | 0 <= i < j < |t| ensures key(t[i]) != key(t[j]) {
      CountTwice(t, i, j);
      DistinctCount(s, t[i]);
      assert t[i] in multiset(s) && t[j] in multiset(s);
    }
  }

  lemma RowOrder()
    ensures StrictWeak(RowBefore)
  {
    LessIsTotal();
    forall a: Row, b: Row, c: Row {:trigger RowBefore(a, b), RowBefore(b, c)} | RowBefore(a, b) && RowBefore(b, c)
        ensures RowBefore(a, c) {
      RowsTransitive(a, b, c);
    }
    forall a: Row, b: Row, c: Row {:trigger RowBefore(a, b), RowBefore(b, c)} | RowBefore(a, c)
        ensures RowBefore(a, b) || RowBefore(b, c) {
      RowsSplit(a, b, c);
    }
  }

  lemma RowsTransitive(a: Row, b: Row, c: Row)
    requires RowBefore(a, b) && RowBefore(b, c)
    ensures RowBefore(a, c)
  {
    LessIsTotal();
    assert !Less(a.key.target, a.key.target) && !Less(a.key.vantage, a.key.vantage);
  }

  lemma RowsSplit(a: Row, b: Row, c: Row)
    requires RowBefore(a, c)
    ensures RowBefore(a, b) || RowBefore(b, c)
  {
    LessIsTotal();
    assert Less(a.key.target, c.key.target) ==> Less(a.key.target, b.key.target) || Less(b.key.target, c.key.target);
    assert Less(a.key.vantage, c.key.vantage) ==>
        Less(a.key.vantage, b.key.vantage) || Less(b.key.vantage, c.key.vantage);
    LessTotal(a.key.target, b.key.target);
    LessTotal(b.key.target, c.key.target);
    LessTotal(a.key.vantage, b.key.vantage);
    LessTotal(b.key.vantage, c.key.vantage);
  }

  predicate ListsRow(g: Graph, target: string, snapshot: string, ks: seq<HopKey>, rows: seq<Row>) {
    && (forall i, j :: 0 <= i < j < |rows| ==> rows[i].key != rows[j].key)
    && (forall i :: 0 <= i < |rows| ==>
        RowShows(g, rows[i]) && Matches(g, target, snapshot, rows[i].key) && rows[i].key in ks)
    && (forall i :: 0 <= i < |ks| && Matches(g, target, snapshot, ks[i]) ==>
        Row(ks[i], g.targets[ks[i].target], g.hops[ks[i]]) in rows)
  }

  lemma SortedQuery(g: Graph, target: string, snapshot: string, ks: seq<HopKey>, rows: seq<Row>, sorted: seq<Row>)
    requires ListsRow(g, target, snapshot, ks, rows) && forall k :: k in g.hops ==> k in ks
    requires multiset(sorted) == multiset(rows) && Ordered(RowBefore, sorted)
    ensures IsQuery(g, target, snapshot, sorted)
  {
    DistinctBy(rows, sorted, (r: Row) => r.key);
    forall i | 0 <= i < |sorted| ensures RowShows(g, sorted[i]) && Matches(g, target, snapshot, sorted[i].key) {
      assert sorted[i] in multiset(rows);
    }
    forall k | Matches(g, target, snapshot, k) ensures HasRow(sorted, k) {
      var i :| 0 <= i < |ks| && ks[i] == k;
      assert Row(k, g.targets[k.target], g.hops[k]) in multiset(sorted);
    }
    forall k | HasRow(sorted, k) ensures Matches(g, target, snapshot, k) {
      var i :| 0 <= i < |sorted| && sorted[i].key == k;
    }
  }

  /** The query: matching hops, sorted. */
  method Query(g: Graph, target: string, snapshot: string) returns (rows: seq<Row>)
    ensures IsQuery(g, target, snapshot, rows)
  {
    var ks := Range(g.hops.Keys);
    var found: seq<Row> := [];
    for i := 0 to |ks|
      invariant ListsRow(g, target, snapshot, ks[..i], found)
    {
      if Matches(g, target, snapshot, ks[i]) {
        found := found + [Row(ks[i], g.targets[ks[i].target], g.hops[ks[i]])];
      }
    }
    assert ks[..|ks|] == ks;
    RowOrder();
    rows := SortSlice(RowBefore, found);
    SortedQuery(g, target, snapshot, ks, found, rows);
  }

  /** getTraceroutePaths. */
  method GetPaths(g: Graph, target: string, snapshot: string) returns (paths: seq<Path>)
    ensures exists rows :: IsQuery(g, target, snapshot, rows) && Grouped(rows, paths)
  {
    var rows := Query(g, target, snapshot);
    paths := ReadPaths(rows);
  }

  // ---- When the group keys tell targets apart ----

  /** With targets that hold no colon, as UUIDs do, rows share a group exactly if they share target and vantage. */
  lemma GroupsAreTargetAndVantage(a: Row, b: Row)
    requires a.key.target == b.key.target || (ColonFree(a.key.target) && ColonFree(b.key.target))
    ensures RowKey(a) == RowKey(b) <==>
        a.key.target == b.key.target && ReadVantage(a.key.vantage) == ReadVantage(b.key.vantage)
  {
    var s, t := a.key.target, b.key.target;
    var v, w := ReadVantage(a.key.vantage), ReadVantage(b.key.vantage);
    if RowKey(a) == RowKey(b) {
      ColonInside(s, v, t, w);
      ColonInside(t, w, s, v);
      assert |s| == |t|;
      assert (s + ":" + v)[..|s|] == s && (t + ":" + w)[..|t|] == t;
      assert (s + ":" + v)[|s| + 1..] == v && (t + ":" + w)[|t| + 1..] == w;
    }
  }

  /** A colon inside a target's id would let two targets share a group. */
  lemma ColonsMerge()
    ensures exists a: Row, b: Row :: a.key.target != b.key.target && RowKey(a) == RowKey(b)
  {
    var p := HopProps("", false, 0.0, "", "", 0.0, 0.0, "", 0);
    var a, b := Row(HopKey("x", "y:z", 1, ""), "", p), Row(HopKey("x:y", "z", 1, ""), "", p);
    assert !IsSpace('y') && !IsSpace('z');
    TrimSpaceTrimmed("y:z");
    TrimSpaceTrimmed("z");
    assert RowKey(a) == "x" + ":" + "y:z" == "x:y:z" && RowKey(b) == "x:y" + ":" + "z" == "x:y:z";
  }
}
