/** What is read back of the synchronised scans, over any run of synchronisations. */
module TraceRoundTrip {
  import opened Common
  import opened Text
  import opened Sorting
  import opened Json
  import opened Values
  import opened TraceStore
  import opened TraceProofs
  import opened TraceRead

  // ---- Runs ----

  datatype Job = Job(meta: Meta, raw: Document)

  function Run(lib: Lib, g: Graph, jobs: seq<Job>): Graph {
    if jobs == [] then g
    else Sync(lib, Run(lib, g, jobs[..|jobs| - 1]), jobs[|jobs| - 1].meta, jobs[|jobs| - 1].raw)
  }

  /** What is known of the hop with number `n` of vantage `v`. */
  type Sightings = (string, int) -> Option<HopProps>

  /** The hops of one scan, each as last listed. */
  function ScanSeen(lib: Lib, job: Job): Sightings {
    (v: string, n: int) =>
      match LastSeen(lib, ScannedVantages(job.raw), v, n)
      case None => None
      case Some(s) => Some(PropsOf(lib, job.meta, s.vantage, s.hop))
  }

  predicate IsOf(job: Job, target: string, snapshot: string) {
    job.meta.target == target && job.meta.snapshot == snapshot
  }

  /** The hops of all the scans of one snapshot: each as the last scan listed it that listed it at all. */
  function RunSeen(lib: Lib, jobs: seq<Job>, target: string, snapshot: string): Sightings {
    if jobs == [] then (v: string, n: int) => None
    else
      var before, last := RunSeen(lib, jobs[..|jobs| - 1], target, snapshot), jobs[|jobs| - 1];
      if IsOf(last, target, snapshot)
      then (v: string, n: int) => if ScanSeen(lib, last)(v, n).Some? then ScanSeen(lib, last)(v, n) else before(v, n)
      else before
  }

  /** The graph's hops of this target and snapshot are the sighted ones, tied to their target. */
  ghost predicate HoldsAt(g: Graph, target: string, snapshot: string, seen: Sightings, k: HopKey) {
    k.target == target && k.snapshot == snapshot ==>
      && (k in g.hops <==> seen(k.vantage, k.hop).Some?)
      && (k in g.hops ==> seen(k.vantage, k.hop) == Some(g.hops[k]))
      && (k in g.traced <==> k in g.hops)
      && (k in g.traced ==> g.traced[k].snapshot == snapshot)
  }

  ghost predicate Holds(g: Graph, target: string, snapshot: string, seen: Sightings) {
    && target in g.targets
    && forall k {:trigger HoldsAt(g, target, snapshot, seen, k)} :: HoldsAt(g, target, snapshot, seen, k)
  }

  /** Nothing of the snapshot is in the graph yet, and the target is. */
  ghost predicate Fresh(g: Graph, target: string, snapshot: string) {
    && target in g.targets
    && (forall k :: k in g.hops ==> k.target != target || k.snapshot != snapshot)
    && (forall k :: k in g.traced ==> k.target != target || k.snapshot != snapshot)
  }

  lemma OnlyOwn(lib: Lib, meta: Meta, vs: seq<Document>, k: HopKey)
    ensures LastProps(Writes(lib, meta, vs), k).Some? ==> k.target == meta.target && k.snapshot == meta.snapshot
  {
    var ws := Writes(lib, meta, vs);
    LastPropsIn(ws, k);
    if i :| 0 <= i < |ws| && ws[i].key == k {
      WriteKeys(lib, meta, vs, i);
    }
  }

  lemma SyncHoldsAt(lib: Lib, g: Graph, jobs: seq<Job>, target: string, snapshot: string, k: HopKey)
    requires jobs != [] && target in g.targets
    requires HoldsAt(g, target, snapshot, RunSeen(lib, jobs[..|jobs| - 1], target, snapshot), k)
    ensures HoldsAt(Sync(lib, g, jobs[|jobs| - 1].meta, jobs[|jobs| - 1].raw), target, snapshot,
                RunSeen(lib, jobs, target, snapshot), k)
  {
    var job := jobs[|jobs| - 1];
    var vs := ScannedVantages(job.raw);
    AfterWrites(g, Writes(lib, job.meta, vs), ResolvedIp(lib, job.raw), job.meta.Mark(), k);
    LastWrite(lib, job.meta, vs, k.vantage, k.hop);
    OnlyOwn(lib, job.meta, vs, k);
  }

  /** Over any run the graph holds of a snapshot what all its synchronisations together sighted. */
  lemma {:induction false} RunHolds(lib: Lib, g: Graph, jobs: seq<Job>, target: string, snapshot: string)
    requires Fresh(g, target, snapshot)
    ensures Holds(Run(lib, g, jobs), target, snapshot, RunSeen(lib, jobs, target, snapshot))
    ensures Run(lib, g, jobs).targets == g.targets
  {
    if jobs != [] {
      var before, last := jobs[..|jobs| - 1], jobs[|jobs| - 1];
      var a := Run(lib, g, before);
      RunHolds(lib, g, before, target, snapshot);
      AfterWrites(a, Writes(lib, last.meta, ScannedVantages(last.raw)), ResolvedIp(lib, last.raw), last.meta.Mark(),
          HopKey("", "", 0, ""));
      forall k ensures HoldsAt(Run(lib, g, jobs), target, snapshot, RunSeen(lib, jobs, target, snapshot), k) {
        assert HoldsAt(a, target, snapshot, RunSeen(lib, before, target, snapshot), k);
        SyncHoldsAt(lib, a, jobs, target, snapshot, k);
      }
    }
  }

  /** Vantages are named as the reading names them. */
  ghost predicate WellNamed(seen: Sightings) {
    forall v, n :: seen(v, n).Some? ==> ReadVantage(v) == v
  }

  lemma {:induction false} LastSeenNamed(lib: Lib, vs: seq<Document>, id: string, n: int)
    requires LastSeen(lib, vs, id, n).Some?
    ensures ReadVantage(id) == id
  {
    var v := vs[|vs| - 1];
    if VantageId(lib, v) == id && LastIn(List(v, "hops"), n).Some? {
      VantageIdReads(lib, v);
    } else {
      LastSeenNamed(lib, vs[..|vs| - 1], id, n);
    }
  }

  lemma VantageIdReads(lib: Lib, v: Document)
    ensures ReadVantage(VantageId(lib, v)) == VantageId(lib, v)
  {
    if "id" in v {
      TrimSpaceTrimmed(Sprint(lib, v["id"]));
    }
    assert Trimmed("local");
    TrimSpaceTrimmed("local");
  }

  lemma {:induction false} RunWellNamed(lib: Lib, jobs: seq<Job>, target: string, snapshot: string)
    ensures WellNamed(RunSeen(lib, jobs, target, snapshot))
  {
    if jobs != [] {
      RunWellNamed(lib, jobs[..|jobs| - 1], target, snapshot);
      var last := jobs[|jobs| - 1];
      forall v, n | ScanSeen(lib, last)(v, n).Some? ensures ReadVantage(v) == v {
        LastSeenNamed(lib, ScannedVantages(last.raw), v, n);
      }
    }
  }

  // ---- Reading the snapshot ----

  predicate Ascending(hops: seq<PathHop>) {
    forall i, j :: 0 <= i < j < |hops| ==> hops[i].hop < hops[j].hop
  }

  predicate HasHop(hops: seq<PathHop>, n: int) {
    exists i :: 0 <= i < |hops| && hops[i].hop == n
  }

  predicate ShownAsSeen(seen: Sightings, vantage: string, h: PathHop) {
    var s := seen(vantage, h.hop);
    s.Some? && h == ShowHop(h.hop, s.value)
  }

  /** The path of one vantage: each sighted hop number once, ascending, shown as sighted; named by the label its first
      hop was sighted with. */
  ghost predicate IsSeenPath(seen: Sightings, target: string, host: string, p: Path) {
    && p.target == target && p.targetLabel == host
    && Ascending(p.hops) && p.hops != []
    && (forall n :: HasHop(p.hops, n) <==> seen(p.vantage, n).Some?)
    && (forall i :: 0 <= i < |p.hops| ==> ShownAsSeen(seen, p.vantage, p.hops[i]))
    && var first := seen(p.vantage, p.hops[0].hop);
       first.Some? && p.vantageLabel == ReadLabel(first.value, p.vantage)
  }

  ghost predicate HasVantage(paths: seq<Path>, vantage: string) {
    exists i :: 0 <= i < |paths| && paths[i].vantage == vantage
  }

  /** One path for each vantage with a sighted hop. */
  ghost predicate ShowsSeen(seen: Sightings, target: string, host: string, paths: seq<Path>) {
    && (forall i, j :: 0 <= i < j < |paths| ==> paths[i].vantage != paths[j].vantage)
    && (forall i :: 0 <= i < |paths| ==> IsSeenPath(seen, target, host, paths[i]))
    && (forall v, n {:trigger seen(v, n)} :: seen(v, n).Some? ==> HasVantage(paths, v))
  }

  /** The graph holds the sightings, and `rows` are those of the snapshot. */
  ghost predicate Queried(g: Graph, target: string, snapshot: string, seen: Sightings, rows: seq<Row>) {
    && snapshot != "" && target != "" && Holds(g, target, snapshot, seen) && WellNamed(seen)
    && IsQuery(g, target, snapshot, rows)
  }

  lemma RowIsSighting(g: Graph, target: string, snapshot: string, seen: Sightings, rows: seq<Row>, i: nat)
    requires Queried(g, target, snapshot, seen, rows) && i < |rows|
    ensures var k := rows[i].key;
            && k == HopKey(target, k.vantage, k.hop, snapshot) && seen(k.vantage, k.hop) == Some(rows[i].props)
            && rows[i].host == g.targets[target]
            && ReadVantage(k.vantage) == k.vantage && RowKey(rows[i]) == PathKey(target, k.vantage)
  {
    var k := rows[i].key;
    assert HasRow(rows, k);
    assert Matches(g, target, snapshot, k);
    assert HoldsAt(g, target, snapshot, seen, k);
    assert RowShows(g, rows[i]);
  }

  lemma SightingHasRow(g: Graph, target: string, snapshot: string, seen: Sightings, rows: seq<Row>, v: string, n: int)
      returns (i: nat)
    requires Queried(g, target, snapshot, seen, rows) && seen(v, n).Some?
    ensures i < |rows| && rows[i].key == HopKey(target, v, n, snapshot)
  {
    var k := HopKey(target, v, n, snapshot);
    assert HoldsAt(g, target, snapshot, seen, k);
    assert Matches(g, target, snapshot, k);
    assert HasRow(rows, k);
    i :| 0 <= i < |rows| && rows[i].key == k;
  }

  /** What holds of every two rows in order holds of those of one group. */
  lemma {:induction false} RowsOfKeep(rows: seq<Row>, key: string, r: (Row, Row) -> bool, i: nat, j: nat)
    requires forall a, b :: 0 <= a < b < |rows| ==> r(rows[a], rows[b])
    requires i < j < |RowsOf(rows, key)|
    ensures r(RowsOf(rows, key)[i], RowsOf(rows, key)[j])
  {
    var before := rows[..|rows| - 1];
    if j < |RowsOf(before, key)| {
      RowsOfKeep(before, key, r, i, j);
    } else {
      RowsOfAre(before, key, i);
      var a :| 0 <= a < |before| && before[a] == RowsOf(before, key)[i];
      assert rows[a] == before[a];
    }
  }

  predicate InOrder(a: Row, b: Row) {
    a.key != b.key && !RowBefore(b, a)
  }

  /** The group of one vantage: its rows ascend strictly. */
  lemma GroupAscends(g: Graph, target: string, snapshot: string, seen: Sightings, rows: seq<Row>, v: string, i: nat,
                     j: nat)
    requires Queried(g, target, snapshot, seen, rows) && i < j < |RowsOf(rows, PathKey(target, v))|
    ensures var own := RowsOf(rows, PathKey(target, v)); own[i].key.vantage == v && own[i].key.hop < own[j].key.hop
  {
    RowsOfKeep(rows, PathKey(target, v), InOrder, i, j);
    OfVantage(g, target, snapshot, seen, rows, v, i);
    OfVantage(g, target, snapshot, seen, rows, v, j);
  }

  /** A group's rows are the sightings in its vantage. */
  lemma OfVantage(g: Graph, target: string, snapshot: string, seen: Sightings, rows: seq<Row>, v: string, i: nat)
    requires Queried(g, target, snapshot, seen, rows) && i < |RowsOf(rows, PathKey(target, v))|
    ensures var r := RowsOf(rows, PathKey(target, v))[i];
            && r.key == HopKey(target, v, r.key.hop, snapshot) && r.host == g.targets[target]
            && seen(v, r.key.hop) == Some(r.props) && ReadVantage(v) == v
  {
    var key := PathKey(target, v);
    RowsOfAre(rows, key, i);
    var r := RowsOf(rows, key)[i];
    var a :| 0 <= a < |rows| && rows[a] == r;
    RowIsSighting(g, target, snapshot, seen, rows, a);
    SameSuffix(target, r.key.vantage, v);
  }

  lemma SameSuffix(t: string, v: string, w: string)
    requires PathKey(t, v) == PathKey(t, w)
    ensures v == w
  {
    assert (t + ":" + v)[|t| + 1..] == v && (t + ":" + w)[|t| + 1..] == w;
  }

  lemma SortedStrictly(own: seq<PathHop>, hops: seq<PathHop>)
    requires multiset(hops) == multiset(own) && Ordered(ByHop, hops) && Ascending(own)
    ensures hops == own
  {
    assert Ordered(ByHop, own);
    SortedUnique(ByHop, own, hops);
  }

  lemma PathOfVantage(g: Graph, target: string, snapshot: string, seen: Sightings, rows: seq<Row>, v: string, p: Path)
    requires Queried(g, target, snapshot, seen, rows) && IsPathOf(rows, PathKey(target, v), p)
    ensures p.vantage == v && IsSeenPath(seen, target, g.targets[target], p)
  {
    var own := RowsOf(rows, PathKey(target, v));
    OfVantage(g, target, snapshot, seen, rows, v, 0);
    forall i, j | 0 <= i < j < |own| ensures own[i].key.hop < own[j].key.hop {
      GroupAscends(g, target, snapshot, seen, rows, v, i, j);
    }
    SortedStrictly(ShowAll(own), p.hops);
    forall i | 0 <= i < |p.hops| ensures ShownAsSeen(seen, v, p.hops[i]) {
      OfVantage(g, target, snapshot, seen, rows, v, i);
    }
    forall n ensures HasHop(p.hops, n) <==> seen(v, n).Some? {
      SightingsShown(g, target, snapshot, seen, rows, v, n);
    }
  }

  lemma SightingsShown(g: Graph, target: string, snapshot: string, seen: Sightings, rows: seq<Row>, v: string, n: int)
    requires Queried(g, target, snapshot, seen, rows)
    ensures HasHop(ShowAll(RowsOf(rows, PathKey(target, v))), n) <==> seen(v, n).Some?
  {
    var own := RowsOf(rows, PathKey(target, v));
    if HasHop(ShowAll(own), n) {
      var i :| 0 <= i < |own| && ShowAll(own)[i].hop == n;
      OfVantage(g, target, snapshot, seen, rows, v, i);
    }
    if seen(v, n).Some? {
      var a := SightingHasRow(g, target, snapshot, seen, rows, v, n);
      RowIsSighting(g, target, snapshot, seen, rows, a);
      RowsOfHas(rows, a);
      var i :| 0 <= i < |own| && own[i] == rows[a];
      assert ShowAll(own)[i].hop == n;
    }
  }

  /** Reading a snapshot gives what the graph holds of it: one path for each vantage with a sighted hop. */
  lemma ReadBack(g: Graph, target: string, snapshot: string, seen: Sightings, rows: seq<Row>, paths: seq<Path>)
    requires Queried(g, target, snapshot, seen, rows) && Grouped(rows, paths)
    ensures ShowsSeen(seen, target, g.targets[target], paths)
  {
    forall i | 0 <= i < |paths|
        ensures paths[i].target == target && IsSeenPath(seen, target, g.targets[target], paths[i]) {
      var p := paths[i];
      var own := RowsOf(rows, KeyOfPath(p));
      RowsOfAre(rows, KeyOfPath(p), 0);
      var a :| 0 <= a < |rows| && rows[a] == own[0];
      RowIsSighting(g, target, snapshot, seen, rows, a);
      PathOfVantage(g, target, snapshot, seen, rows, p.vantage, p);
    }
    forall v, n | seen(v, n).Some? ensures HasVantage(paths, v) {
      var a := SightingHasRow(g, target, snapshot, seen, rows, v, n);
      RowIsSighting(g, target, snapshot, seen, rows, a);
      assert HasPath(paths, RowKey(rows[a]));
      var i :| 0 <= i < |paths| && KeyOfPath(paths[i]) == PathKey(target, v);
      SameSuffix(target, paths[i].vantage, v);
    }
  }

  /** The round trip over runs: whatever is synchronised in whatever order, reading a snapshot gives exactly the hops
      its synchronisations sighted, each as last sighted. */
  lemma RunReadBack(lib: Lib, g: Graph, jobs: seq<Job>, target: string, snapshot: string, rows: seq<Row>,
                    paths: seq<Path>)
    requires Fresh(g, target, snapshot) && snapshot != "" && target != ""
    requires IsQuery(Run(lib, g, jobs), target, snapshot, rows) && Grouped(rows, paths)
    ensures ShowsSeen(RunSeen(lib, jobs, target, snapshot), target, g.targets[target], paths)
  {
    RunHolds(lib, g, jobs, target, snapshot);
    RunWellNamed(lib, jobs, target, snapshot);
    ReadBack(Run(lib, g, jobs), target, snapshot, RunSeen(lib, jobs, target, snapshot), rows, paths);
  }

  // ---- When the reading is one scan ----

  /** The hops that an earlier synchronisation of the snapshot left and the scan did not sight again. */
  ghost predicate NoneStale(before: Sightings, scan: Sightings) {
    forall v, n :: before(v, n).Some? ==> scan(v, n).Some?
  }

  lemma SameSightings(a: Sightings, b: Sightings, target: string, host: string, paths: seq<Path>)
    requires ShowsSeen(a, target, host, paths) && forall v, n :: a(v, n) == b(v, n)
    ensures ShowsSeen(b, target, host, paths)
  {
    forall i | 0 <= i < |paths| ensures IsSeenPath(b, target, host, paths[i]) {
      assert IsSeenPath(a, target, host, paths[i]);
      forall j | 0 <= j < |paths[i].hops| ensures ShownAsSeen(b, paths[i].vantage, paths[i].hops[j]) {
        assert ShownAsSeen(a, paths[i].vantage, paths[i].hops[j]);
      }
    }
  }

  lemma SameShown(a: Sightings, b: Sightings, target: string, host: string, paths: seq<Path>, v: string, n: int)
    requires ShowsSeen(a, target, host, paths) && ShowsSeen(b, target, host, paths) && a(v, n).Some?
    ensures b(v, n).Some?
  {
    assert HasVantage(paths, v);
    var i :| 0 <= i < |paths| && paths[i].vantage == v;
    assert IsSeenPath(a, target, host, paths[i]) && IsSeenPath(b, target, host, paths[i]);
    assert HasHop(paths[i].hops, n);
  }

  /** After a run that ends with a synchronisation of the snapshot, the reading is its scan exactly when that scan
      sights every hop that an earlier one of the snapshot sighted: hops are never removed. */
  lemma ReadsLastScanIff(lib: Lib, g: Graph, before: seq<Job>, last: Job, rows: seq<Row>, paths: seq<Path>)
    requires Fresh(g, last.meta.target, last.meta.snapshot) && last.meta.snapshot != "" && last.meta.target != ""
    requires IsQuery(Run(lib, g, before + [last]), last.meta.target, last.meta.snapshot, rows) && Grouped(rows, paths)
    ensures ShowsSeen(ScanSeen(lib, last), last.meta.target, g.targets[last.meta.target], paths) <==>
        NoneStale(RunSeen(lib, before, last.meta.target, last.meta.snapshot), ScanSeen(lib, last))
  {
    var target, snapshot := last.meta.target, last.meta.snapshot;
    var jobs := before + [last];
    assert jobs[..|jobs| - 1] == before;
    var earlier, all, scan := RunSeen(lib, before, target, snapshot), RunSeen(lib, jobs, target, snapshot),
        ScanSeen(lib, last);
    RunReadBack(lib, g, jobs, target, snapshot, rows, paths);
    if NoneStale(earlier, scan) {
      forall v, n ensures all(v, n) == scan(v, n) {
        assert earlier(v, n).Some? ==> scan(v, n).Some?;
      }
      SameSightings(all, scan, target, g.targets[target], paths);
    }
    if ShowsSeen(scan, target, g.targets[target], paths) {
      forall v, n | earlier(v, n).Some? ensures scan(v, n).Some? {
        SameShown(all, scan, target, g.targets[target], paths, v, n);
      }
    }
  }

  lemma {:induction false} OneScanSeen(lib: Lib, jobs: seq<Job>, job: Job, v: string, n: int)
    requires forall j :: 0 <= j < |jobs| && IsOf(jobs[j], job.meta.target, job.meta.snapshot) ==> jobs[j] == job
    ensures RunSeen(lib, jobs, job.meta.target, job.meta.snapshot)(v, n)
        == if job in jobs then ScanSeen(lib, job)(v, n) else None
  {
    if jobs != [] {
      var before := jobs[..|jobs| - 1];
      OneScanSeen(lib, before, job, v, n);
      assert jobs == before + [jobs[|jobs| - 1]];
    }
  }

  /** In particular, once a scan was synchronised, and whatever else is synchronised before or after it and however
      often it is repeated, reading its snapshot gives exactly the scan. */
  lemma RoundTrip(lib: Lib, g: Graph, jobs: seq<Job>, job: Job, rows: seq<Row>, paths: seq<Path>)
    requires Fresh(g, job.meta.target, job.meta.snapshot) && job in jobs
    requires forall j :: 0 <= j < |jobs| && IsOf(jobs[j], job.meta.target, job.meta.snapshot) ==> jobs[j] == job
    requires job.meta.snapshot != "" && job.meta.target != ""
    requires IsQuery(Run(lib, g, jobs), job.meta.target, job.meta.snapshot, rows) && Grouped(rows, paths)
    ensures ShowsSeen(ScanSeen(lib, job), job.meta.target, g.targets[job.meta.target], paths)
  {
    var target, snapshot := job.meta.target, job.meta.snapshot;
    RunReadBack(lib, g, jobs, target, snapshot, rows, paths);
    forall v, n ensures RunSeen(lib, jobs, target, snapshot)(v, n) == ScanSeen(lib, job)(v, n) {
      OneScanSeen(lib, jobs, job, v, n);
    }
    SameSightings(RunSeen(lib, jobs, target, snapshot), ScanSeen(lib, job), target, g.targets[target], paths);
  }

  // ---- One reading ----

  /** Two readings of the same sightings are the same list: nothing of it depends on the order of the rows or of a
      map. */
  lemma ReadingsAgree(seen: Sightings, target: string, host: string, a: seq<Path>, b: seq<Path>)
    requires ShowsSeen(seen, target, host, a) && ShowsSeen(seen, target, host, b)
    requires Ordered(ByLabel, a) && Ordered(ByLabel, b)
    ensures a == b
  {
    forall p ensures p in a ==> p in b {
      if p in a { SamePath(seen, target, host, a, b, p); }
    }
    forall p ensures p in b ==> p in a {
      if p in b { SamePath(seen, target, host, b, a, p); }
    }
    assert Distinct(a) && Distinct(b);
    DistinctSameElements(a, b);
    forall i, j | 0 <= i < j < |a| ensures ByLabel(a[i], a[j]) || a[i] == a[j] || ByLabel(a[j], a[i]) {
      LessTotal(a[i].vantage, a[j].vantage);
    }
    SortedUnique(ByLabel, a, b);
  }

  lemma SamePath(seen: Sightings, target: string, host: string, a: seq<Path>, b: seq<Path>, p: Path)
    requires ShowsSeen(seen, target, host, a) && ShowsSeen(seen, target, host, b) && p in a
    ensures p in b
  {
    assert HasHop(p.hops, p.hops[0].hop);
    assert seen(p.vantage, p.hops[0].hop).Some?;
    assert HasVantage(b, p.vantage);
    var j :| 0 <= j < |b| && b[j].vantage == p.vantage;
    SameHops(seen, p.vantage, p.hops, b[j].hops);
  }

  lemma SameHops(seen: Sightings, v: string, a: seq<PathHop>, b: seq<PathHop>)
    requires Ascending(a) && Ascending(b)
    requires forall n :: HasHop(a, n) <==> seen(v, n).Some?
    requires forall n :: HasHop(b, n) <==> seen(v, n).Some?
    requires forall i :: 0 <= i < |a| ==> ShownAsSeen(seen, v, a[i])
    requires forall i :: 0 <= i < |b| ==> ShownAsSeen(seen, v, b[i])
    ensures a == b
  {
    HopsWithin(seen, v, a, b);
    HopsWithin(seen, v, b, a);
    assert Distinct(a) && Distinct(b);
    DistinctSameElements(a, b);
    assert Ordered(ByHop, b);
    SortedStrictly(a, b);
  }

  lemma HopsWithin(seen: Sightings, v: string, a: seq<PathHop>, b: seq<PathHop>)
    requires forall n :: HasHop(a, n) <==> seen(v, n).Some?
    requires forall n :: HasHop(b, n) <==> seen(v, n).Some?
    requires forall i :: 0 <= i < |a| ==> ShownAsSeen(seen, v, a[i])
    requires forall i :: 0 <= i < |b| ==> ShownAsSeen(seen, v, b[i])
    ensures forall x :: x in a ==> x in b
  {
    forall x | x in a ensures x in b {
      assert HasHop(a, x.hop);
      assert HasHop(b, x.hop);
      var j :| 0 <= j < |b| && b[j].hop == x.hop;
      assert ShownAsSeen(seen, v, b[j]);
    }
  }
}
