/** What the traceroute paths show after any run of synchronisations, field by field and said on the scans' JSON. */
module TraceShown {
  import opened Common
  import opened Text
  import opened TextFacts
  import opened Sorting
  import opened Json
  import opened Values
  import opened Readings
  import opened DiffEntries
  import opened TraceStore
  import opened TraceProofs
  import opened TraceRead
  import opened TraceRoundTrip

  // ---- Which hops a scan lists ----

  /** `vs` are the vantages of a scan: none if it has no traceroute or skipped it, else the objects listed, else the
      plain hop list as the local scanner's. */
  ghost predicate VantagesAre(raw: Document, vs: seq<Document>) {
    if "traceroute" in raw && raw["traceroute"].Obj? && "skipped" !in raw["traceroute"].fields then
      var tr := raw["traceroute"].fields;
      var listed, hops := Items(Some(tr), "vantages"), Items(Some(tr), "hops");
      if exists i :: 0 <= i < |listed| && listed[i].Obj? then exists at :: AreObjects(listed, vs, at)
      else if hops != [] then
        vs == [map["id" := Str("local"), "label" := Str("Local scanner"), "hops" := Arr(hops)]]
      else vs == []
    else vs == []
  }

  lemma VantagesListed(raw: Document)
    ensures VantagesAre(raw, ScannedVantages(raw))
  {
    if "traceroute" in raw && raw["traceroute"].Obj? {
      var listed := List(raw["traceroute"].fields, "vantages");
      var at := ObjectsAre(listed);
      if at != [] {
        var first := at[0];
        assert listed[first].Obj?;
      }
      if i :| 0 <= i < |listed| && listed[i].Obj? {
        assert i in at;
      }
    }
  }

  /** The name of a vantage; one without is the local one. */
  ghost predicate NameReads(lib: Lib, v: Document, id: string) {
    exists s :: PropReads(lib, v, "id", s) && id == if s == "" then "local" else s
  }

  lemma NameIs(lib: Lib, v: Document, id: string)
    ensures VantageId(lib, v) == id <==> NameReads(lib, v, id)
  {
    var t := StringProp(lib, v, "id");
    StringPropIs(lib, v, "id", t);
    forall s | PropReads(lib, v, "id", s) ensures s == t { StringPropIs(lib, v, "id", s); }
  }

  /** Entry `j` of vantage `i` is an object with the positive number `n`, and the vantage has the name. */
  ghost predicate Listed(lib: Lib, vs: seq<Document>, id: string, n: int, i: nat, j: nat) {
    && i < |vs| && NameReads(lib, vs[i], id) && EntryIs(vs[i], n, j)
  }

  ghost predicate EntryIs(v: Document, n: int, j: nat) {
    var hops := Items(Some(v), "hops");
    j < |hops| && hops[j].Obj? && NumberReads(Some(hops[j].fields), "hop", 0, n) && n > 0
  }

  /** And no later entry is. */
  ghost predicate LastListed(lib: Lib, vs: seq<Document>, id: string, n: int, i: nat, j: nat) {
    && Listed(lib, vs, id, n, i, j)
    && forall a: nat, b: nat :: Listed(lib, vs, id, n, a, b) ==> a < i || (a == i && b <= j)
  }

  lemma EntryIff(v: Document, n: int, j: nat)
    requires j < |List(v, "hops")|
    ensures EntryIs(v, n, j) <==> IsHop(List(v, "hops")[j]) && HopNumber(List(v, "hops")[j]) == n
  {
    if List(v, "hops")[j].Obj? { IntPropIs(List(v, "hops")[j].fields, "hop", n); }
  }

  lemma {:induction false} LastEntry(v: Document, hops: seq<Json>, n: int)
    requires hops <= List(v, "hops")
    ensures LastIn(hops, n).None? ==> forall j: nat :: j < |hops| ==> !EntryIs(v, n, j)
    ensures LastIn(hops, n).Some? ==>
              exists j: nat :: j < |hops| && IsLastEntry(v, n, j, |hops|, LastIn(hops, n).value)
  {
    if hops != [] {
      var m := |hops| - 1;
      EntryIff(v, n, m);
      LastEntry(v, hops[..m], n);
      if IsHop(hops[m]) && HopNumber(hops[m]) == n {
        assert IsLastEntry(v, n, m, |hops|, hops[m].fields);
      } else if LastIn(hops[..m], n).Some? {
        var x := LastIn(hops[..m], n).value;
        var j: nat :| j < m && IsLastEntry(v, n, j, m, x);
        assert IsLastEntry(v, n, j, |hops|, x);
      }
    }
  }

  ghost predicate IsLastEntry(v: Document, n: int, j: nat, length: nat, x: Document) {
    && EntryIs(v, n, j) && Items(Some(v), "hops")[j] == Obj(x)
    && forall b: nat :: j < b < length ==> !EntryIs(v, n, b)
  }

  /** `v` and `x` are the vantage and the entry that a scan lists last for the number. */
  ghost predicate LastOf(lib: Lib, vs: seq<Document>, id: string, n: int, v: Document, x: Document) {
    exists i: nat, j: nat :: LastListed(lib, vs, id, n, i, j) && vs[i] == v && Items(Some(v), "hops")[j] == Obj(x)
  }

  ghost predicate Lists(lib: Lib, vs: seq<Document>, id: string, n: int) {
    exists i: nat, j: nat :: Listed(lib, vs, id, n, i, j)
  }

  lemma {:induction false} SightingIs(lib: Lib, vs: seq<Document>, id: string, n: int)
    ensures match LastSeen(lib, vs, id, n)
            case None => !Lists(lib, vs, id, n)
            case Some(s) => LastOf(lib, vs, id, n, s.vantage, s.hop)
  {
    if vs != [] {
      var m := |vs| - 1;
      var v := vs[m];
      NameIs(lib, v, id);
      LastEntry(v, List(v, "hops"), n);
      if VantageId(lib, v) == id && LastIn(List(v, "hops"), n).Some? {
        var x := LastIn(List(v, "hops"), n).value;
        var j: nat :| j < |List(v, "hops")| && IsLastEntry(v, n, j, |List(v, "hops")|, x);
        assert LastListed(lib, vs, id, n, m, j);
      } else {
        SightingIs(lib, vs[..m], id, n);
        EarlierVantages(lib, vs, id, n);
      }
    }
  }

  ghost predicate InVantage(lib: Lib, vs: seq<Document>, id: string, n: int, i: nat) {
    exists j: nat :: Listed(lib, vs, id, n, i, j)
  }

  lemma EarlierVantages(lib: Lib, vs: seq<Document>, id: string, n: int)
    requires vs != [] && !InVantage(lib, vs, id, n, |vs| - 1)
    ensures Lists(lib, vs, id, n) <==> Lists(lib, vs[..|vs| - 1], id, n)
    ensures forall v, x :: LastOf(lib, vs[..|vs| - 1], id, n, v, x) ==> LastOf(lib, vs, id, n, v, x)
  {
    var before := vs[..|vs| - 1];
    forall i: nat, j: nat ensures Listed(lib, vs, id, n, i, j) <==> Listed(lib, before, id, n, i, j) {
      assert i < |before| ==> before[i] == vs[i];
    }
    forall v, x | LastOf(lib, before, id, n, v, x) ensures LastOf(lib, vs, id, n, v, x) {
      var i: nat, j: nat :| LastListed(lib, before, id, n, i, j) && before[i] == v
                            && Items(Some(v), "hops")[j] == Obj(x);
      assert LastListed(lib, vs, id, n, i, j);
    }
  }

  // ---- Which scan decides ----

  /** The scan of job `j` lists the number in a vantage of that name. */
  ghost predicate ScanLists(lib: Lib, job: Job, id: string, n: int) {
    exists vs :: VantagesAre(job.raw, vs) && Lists(lib, vs, id, n)
  }

  /** And lists it last as entry `x` of vantage `v`. */
  ghost predicate ScanLast(lib: Lib, job: Job, id: string, n: int, v: Document, x: Document) {
    exists vs :: VantagesAre(job.raw, vs) && LastOf(lib, vs, id, n, v, x)
  }

  lemma OneList(raw: Document, vs: seq<Document>, ws: seq<Document>)
    requires VantagesAre(raw, vs) && VantagesAre(raw, ws)
    ensures vs == ws
  {
    if "traceroute" in raw && raw["traceroute"].Obj? && "skipped" !in raw["traceroute"].fields {
      var listed := Items(Some(raw["traceroute"].fields), "vantages");
      if i :| 0 <= i < |listed| && listed[i].Obj? {
        var a :| AreObjects(listed, vs, a);
        var b :| AreObjects(listed, ws, b);
        OneSelection(listed, vs, a, ws, b);
      }
    }
  }

  lemma {:induction false} OneSelection(xs: seq<Json>, ys: seq<Document>, at: seq<nat>, zs: seq<Document>,
                                        bt: seq<nat>)
    requires AreObjects(xs, ys, at) && AreObjects(xs, zs, bt)
    ensures ys == zs
  {
    SamePositions(at, bt, |xs|);
    assert forall i :: 0 <= i < |at| ==> xs[at[i]] == Obj(ys[i]) && xs[bt[i]] == Obj(zs[i]);
  }

  lemma ScanSeenIs(lib: Lib, job: Job, id: string, n: int)
    ensures ScanSeen(lib, job)(id, n).Some? <==> ScanLists(lib, job, id, n)
    ensures ScanSeen(lib, job)(id, n).Some? ==>
              exists v, x :: ScanLast(lib, job, id, n, v, x)
                             && ScanSeen(lib, job)(id, n).value == PropsOf(lib, job.meta, v, x)
  {
    var vs := ScannedVantages(job.raw);
    VantagesListed(job.raw);
    SightingIs(lib, vs, id, n);
    if ScanLists(lib, job, id, n) {
      var ws :| VantagesAre(job.raw, ws) && Lists(lib, ws, id, n);
      OneList(job.raw, vs, ws);
    }
    if LastSeen(lib, vs, id, n).Some? {
      var s := LastSeen(lib, vs, id, n).value;
      assert ScanLast(lib, job, id, n, s.vantage, s.hop);
      var i: nat, j: nat :| LastListed(lib, vs, id, n, i, j) && vs[i] == s.vantage;
      assert Lists(lib, vs, id, n);
    }
  }

  /** Job `j` is the last of the snapshot whose scan lists the number. */
  ghost predicate Decides(lib: Lib, jobs: seq<Job>, target: string, snapshot: string, id: string, n: int, j: nat) {
    && j < |jobs| && IsOf(jobs[j], target, snapshot) && ScanLists(lib, jobs[j], id, n)
    && NoneAfter(lib, jobs, target, snapshot, id, n, j)
  }

  lemma {:induction false} RunSeenIs(lib: Lib, jobs: seq<Job>, target: string, snapshot: string, id: string, n: int)
    ensures var seen := RunSeen(lib, jobs, target, snapshot)(id, n);
            && (seen.Some? <==> exists j: nat :: Decides(lib, jobs, target, snapshot, id, n, j))
            && (seen.Some? ==> exists j: nat, v, x ::
                  Decides(lib, jobs, target, snapshot, id, n, j) && ScanLast(lib, jobs[j], id, n, v, x)
                  && seen.value == PropsOf(lib, jobs[j].meta, v, x))
  {
    if jobs != [] {
      var m := |jobs| - 1;
      RunSeenIs(lib, jobs[..m], target, snapshot, id, n);
      ScanSeenIs(lib, jobs[m], id, n);
      DecidesNext(lib, jobs, target, snapshot, id, n);
      if IsOf(jobs[m], target, snapshot) && ScanSeen(lib, jobs[m])(id, n).Some? {
        assert Decides(lib, jobs, target, snapshot, id, n, m);
      }
    }
  }

  lemma DecidesNext(lib: Lib, jobs: seq<Job>, target: string, snapshot: string, id: string, n: int)
    requires jobs != []
    ensures var m := |jobs| - 1;
            var own := IsOf(jobs[m], target, snapshot) && ScanLists(lib, jobs[m], id, n);
            forall j: nat :: Decides(lib, jobs, target, snapshot, id, n, j) <==>
                             if own then j == m else Decides(lib, jobs[..m], target, snapshot, id, n, j)
  {
    var m := |jobs| - 1;
    forall j: nat | j < m && !(IsOf(jobs[m], target, snapshot) && ScanLists(lib, jobs[m], id, n))
      ensures Decides(lib, jobs, target, snapshot, id, n, j) <==>
              Decides(lib, jobs[..m], target, snapshot, id, n, j)
    {
      LaterJobs(lib, jobs, target, snapshot, id, n, j);
    }
  }

  /** No later job of the snapshot lists the number. */
  ghost predicate NoneAfter(lib: Lib, jobs: seq<Job>, target: string, snapshot: string, id: string, n: int, j: nat) {
    forall k :: j < k < |jobs| && IsOf(jobs[k], target, snapshot) ==> !ScanLists(lib, jobs[k], id, n)
  }

  lemma LaterJobs(lib: Lib, jobs: seq<Job>, target: string, snapshot: string, id: string, n: int, j: nat)
    requires j < |jobs| - 1
    ensures var m := |jobs| - 1;
            NoneAfter(lib, jobs, target, snapshot, id, n, j) <==>
            NoneAfter(lib, jobs[..m], target, snapshot, id, n, j)
            && (IsOf(jobs[m], target, snapshot) ==> !ScanLists(lib, jobs[m], id, n))
  {
    LastAndLater(jobs, j, job => IsOf(job, target, snapshot) && ScanLists(lib, job, id, n));
  }

  lemma LastAndLater(jobs: seq<Job>, j: nat, p: Job -> bool)
    requires j < |jobs| - 1
    ensures var m := |jobs| - 1;
            (forall k :: j < k < |jobs| ==> !p(jobs[k])) <==>
              (forall k :: j < k < m ==> !p(jobs[..m][k])) && !p(jobs[m])
  {
    forall k | j < k < |jobs| - 1 ensures jobs[..|jobs| - 1][k] == jobs[k] {
    }
  }

  // ---- What is shown ----

  function RealAt(x: Document, key: string): real {
    if key in x && x[key].Num? then x[key].n else 0.0
  }

  /** The hop shows the entry `x`: its texts, its flag, its time if positive, its place if not zero, and its caption. */
  ghost predicate ShowsEntry(lib: Lib, x: Document, n: int, h: PathHop) {
    && h.hop == n && PropReads(lib, x, "ip", h.ip) && PropReads(lib, x, "country", h.country)
    && PropReads(lib, x, "city", h.city)
    && (h.timeout <==> "timeout" in x && x["timeout"] == Bool(true))
    && h.rttMs == (if RealAt(x, "rtt_ms") > 0.0 then Some(RealAt(x, "rtt_ms")) else None)
    && h.lat == (if RealAt(x, "latitude") != 0.0 then Some(RealAt(x, "latitude")) else None)
    && h.lon == (if RealAt(x, "longitude") != 0.0 then Some(RealAt(x, "longitude")) else None)
    && h.caption == Decimal(n) + ". " + if h.timeout || h.ip == "" then "*" else h.ip
  }

  lemma PropsShown(lib: Lib, meta: Meta, v: Document, x: Document, n: int)
    ensures ShowsEntry(lib, x, n, ShowHop(n, PropsOf(lib, meta, v, x)))
  {
    StringPropIs(lib, x, "ip", StringProp(lib, x, "ip"));
    StringPropIs(lib, x, "country", StringProp(lib, x, "country"));
    StringPropIs(lib, x, "city", StringProp(lib, x, "city"));
    PropTrimmed(lib, x, "ip");
    PropTrimmed(lib, x, "country");
    PropTrimmed(lib, x, "city");
  }

  lemma PropTrimmed(lib: Lib, m: Document, key: string)
    ensures TrimSpace(StringProp(lib, m, key)) == StringProp(lib, m, key)
  {
    if key in m && !m[key].Null? { TrimSpaceTrimmed(Sprint(lib, m[key])); }
    assert TrimSpace("") == "";
  }

  /** The label of the vantage, or its name if it has none. */
  ghost predicate LabelReads(lib: Lib, v: Document, id: string, shown: string) {
    exists s :: PropReads(lib, v, "label", s) && shown == if s == "" then id else s
  }

  lemma LabelShown(lib: Lib, meta: Meta, v: Document, x: Document, id: string)
    ensures LabelReads(lib, v, id, ReadLabel(PropsOf(lib, meta, v, x), id))
  {
    var s := StringProp(lib, v, "label");
    StringPropIs(lib, v, "label", s);
    PropTrimmed(lib, v, "label");
  }

  /** The hop shows what the last scan of the snapshot that lists it lists last. */
  ghost predicate ShownFromScan(lib: Lib, jobs: seq<Job>, target: string, snapshot: string, id: string, h: PathHop) {
    exists j: nat, v, x ::
      Decides(lib, jobs, target, snapshot, id, h.hop, j) && ScanLast(lib, jobs[j], id, h.hop, v, x)
      && ShowsEntry(lib, x, h.hop, h)
  }

  ghost predicate LabelFromScan(lib: Lib, jobs: seq<Job>, target: string, snapshot: string, id: string, n: int,
                                shown: string) {
    exists j: nat, v, x ::
      Decides(lib, jobs, target, snapshot, id, n, j) && ScanLast(lib, jobs[j], id, n, v, x)
      && LabelReads(lib, v, id, shown)
  }

  lemma HopShown(lib: Lib, jobs: seq<Job>, target: string, snapshot: string, id: string, h: PathHop)
    requires ShownAsSeen(RunSeen(lib, jobs, target, snapshot), id, h)
    ensures ShownFromScan(lib, jobs, target, snapshot, id, h)
  {
    RunSeenIs(lib, jobs, target, snapshot, id, h.hop);
    var props := RunSeen(lib, jobs, target, snapshot)(id, h.hop).value;
    var j: nat, v, x :| Decides(lib, jobs, target, snapshot, id, h.hop, j) && ScanLast(lib, jobs[j], id, h.hop, v, x)
                        && props == PropsOf(lib, jobs[j].meta, v, x);
    PropsShown(lib, jobs[j].meta, v, x, h.hop);
  }

  lemma LabelOfFirst(lib: Lib, jobs: seq<Job>, target: string, snapshot: string, id: string, n: int)
    requires RunSeen(lib, jobs, target, snapshot)(id, n).Some?
    ensures LabelFromScan(lib, jobs, target, snapshot, id, n,
                          ReadLabel(RunSeen(lib, jobs, target, snapshot)(id, n).value, id))
  {
    RunSeenIs(lib, jobs, target, snapshot, id, n);
    var props := RunSeen(lib, jobs, target, snapshot)(id, n).value;
    var j: nat, v, x :| Decides(lib, jobs, target, snapshot, id, n, j) && ScanLast(lib, jobs[j], id, n, v, x)
                        && props == PropsOf(lib, jobs[j].meta, v, x);
    LabelShown(lib, jobs[j].meta, v, x, id);
  }

  /** The path of one vantage: exactly the numbers some scan of the snapshot lists, ascending, each as last listed,
      under the label its first hop was last listed with. */
  ghost predicate PathFromScans(lib: Lib, jobs: seq<Job>, target: string, snapshot: string, host: string, p: Path) {
    && p.target == target && p.targetLabel == host && p.hops != []
    && (forall i, j :: 0 <= i < j < |p.hops| ==> p.hops[i].hop < p.hops[j].hop)
    && (forall n :: HasHop(p.hops, n) <==> exists j: nat :: Decides(lib, jobs, target, snapshot, p.vantage, n, j))
    && (forall i :: 0 <= i < |p.hops| ==> ShownFromScan(lib, jobs, target, snapshot, p.vantage, p.hops[i]))
    && LabelFromScan(lib, jobs, target, snapshot, p.vantage, p.hops[0].hop, p.vantageLabel)
  }

  lemma PathShown(lib: Lib, jobs: seq<Job>, target: string, snapshot: string, host: string, p: Path)
    requires IsSeenPath(RunSeen(lib, jobs, target, snapshot), target, host, p)
    ensures PathFromScans(lib, jobs, target, snapshot, host, p)
  {
    forall n ensures HasHop(p.hops, n) <==> exists j: nat :: Decides(lib, jobs, target, snapshot, p.vantage, n, j) {
      RunSeenIs(lib, jobs, target, snapshot, p.vantage, n);
    }
    forall i | 0 <= i < |p.hops| ensures ShownFromScan(lib, jobs, target, snapshot, p.vantage, p.hops[i]) {
      HopShown(lib, jobs, target, snapshot, p.vantage, p.hops[i]);
    }
    LabelOfFirst(lib, jobs, target, snapshot, p.vantage, p.hops[0].hop);
  }

  /** After any run of synchronisations the reading of a snapshot shows one path for each vantage some scan of it
      lists a hop in, sorted by name, and every hop field by field as the last scan that lists it listed it last. */
  lemma RunShows(lib: Lib, g: Graph, jobs: seq<Job>, target: string, snapshot: string, rows: seq<Row>,
                 paths: seq<Path>)
    requires Fresh(g, target, snapshot) && snapshot != "" && target != ""
    requires IsQuery(Run(lib, g, jobs), target, snapshot, rows) && Grouped(rows, paths)
    ensures forall i :: 0 <= i < |paths| ==> PathFromScans(lib, jobs, target, snapshot, g.targets[target], paths[i])
    ensures forall i, j :: 0 <= i < j < |paths| ==>
              paths[i].vantage != paths[j].vantage && !Less(paths[j].vantage, paths[i].vantage)
    ensures forall id, n, j: nat :: Decides(lib, jobs, target, snapshot, id, n, j) ==>
              exists i :: 0 <= i < |paths| && paths[i].vantage == id
  {
    RunReadBack(lib, g, jobs, target, snapshot, rows, paths);
    forall i | 0 <= i < |paths| ensures PathFromScans(lib, jobs, target, snapshot, g.targets[target], paths[i]) {
      PathShown(lib, jobs, target, snapshot, g.targets[target], paths[i]);
    }
    forall id, n, j: nat | Decides(lib, jobs, target, snapshot, id, n, j)
      ensures exists i :: 0 <= i < |paths| && paths[i].vantage == id
    {
      VantageShown(lib, jobs, target, snapshot, g.targets[target], paths, id, n);
    }
    SortedByName(RunSeen(lib, jobs, target, snapshot), target, g.targets[target], paths);
  }

  lemma VantageShown(lib: Lib, jobs: seq<Job>, target: string, snapshot: string, host: string, paths: seq<Path>,
                     id: string, n: int)
    requires ShowsSeen(RunSeen(lib, jobs, target, snapshot), target, host, paths)
    requires exists j: nat :: Decides(lib, jobs, target, snapshot, id, n, j)
    ensures HasVantage(paths, id)
  {
    RunSeenIs(lib, jobs, target, snapshot, id, n);
    assert RunSeen(lib, jobs, target, snapshot)(id, n).Some?;
  }

  lemma SortedByName(seen: Sightings, target: string, host: string, paths: seq<Path>)
    requires ShowsSeen(seen, target, host, paths) && Ordered(ByLabel, paths)
    ensures forall i, j :: 0 <= i < j < |paths| ==> !Less(paths[j].vantage, paths[i].vantage)
  {
    forall i, j | 0 <= i < j < |paths| ensures !Less(paths[j].vantage, paths[i].vantage) {
      assert IsSeenPath(seen, target, host, paths[i]) && IsSeenPath(seen, target, host, paths[j]);
      assert !ByLabel(paths[j], paths[i]);
    }
  }
}
