/** What a synchronisation leaves in the graph, that repeating it changes nothing, and what it leaves alone. */
module TraceProofs {
  import opened Common
  import opened Json
  import opened Values
  import opened TraceStore

  // ---- The last scan of a hop ----

  /** The last entry with number `n` in one hop list. */
  function LastIn(hops: seq<Json>, n: int): Option<Document> {
    if hops == [] then None
    else
      var x := hops[|hops| - 1];
      if IsHop(x) && HopNumber(x) == n then Some(x.fields) else LastIn(hops[..|hops| - 1], n)
  }

  datatype Sighting = Sighting(vantage: Document, hop: Document)

  /** The last entry with number `n` in the hop lists of the vantages named `id`. */
  function LastSeen(lib: Lib, vs: seq<Document>, id: string, n: int): Option<Sighting> {
    if vs == [] then None
    else
      var v := vs[|vs| - 1];
      var h := if VantageId(lib, v) == id then LastIn(List(v, "hops"), n) else None;
      if h.Some? then Some(Sighting(v, h.value)) else LastSeen(lib, vs[..|vs| - 1], id, n)
  }

  function LastProps(ws: seq<Write>, k: HopKey): Option<HopProps> {
    if ws == [] then None
    else if ws[|ws| - 1].key == k then Some(ws[|ws| - 1].props)
    else LastProps(ws[..|ws| - 1], k)
  }

  lemma {:induction false} LastPropsAppend(a: seq<Write>, b: seq<Write>, k: HopKey)
    ensures LastProps(a + b, k) == if LastProps(b, k).Some? then LastProps(b, k) else LastProps(a, k)
  {
    if b == [] {
      assert a + b == a;
    } else {
      assert (a + b)[..|a + b| - 1] == a + b[..|b| - 1];
      LastPropsAppend(a, b[..|b| - 1], k);
    }
  }

  lemma {:induction false} LastHopWrite(lib: Lib, meta: Meta, v: Document, hops: seq<Json>, k: HopKey)
    ensures LastProps(HopWrites(lib, meta, v, hops), k) ==
            if k == KeyOf(lib, meta, v, k.hop) && LastIn(hops, k.hop).Some?
                then Some(PropsOf(lib, meta, v, LastIn(hops, k.hop).value)) else None
  {
    if hops != [] {
      LastHopWrite(lib, meta, v, hops[..|hops| - 1], k);
      var ws := HopWrites(lib, meta, v, hops);
      if IsHop(hops[|hops| - 1]) {
        assert ws[..|ws| - 1] == HopWrites(lib, meta, v, hops[..|hops| - 1]);
      }
    }
  }

  /** The writes end with the scan's last sighting of each hop. */
  lemma {:induction false} LastWrite(lib: Lib, meta: Meta, vs: seq<Document>, id: string, n: int)
    ensures LastProps(Writes(lib, meta, vs), HopKey(meta.target, id, n, meta.snapshot)) ==
            match LastSeen(lib, vs, id, n)
            case None => None
            case Some(s) => Some(PropsOf(lib, meta, s.vantage, s.hop))
  {
    if vs != [] {
      var v := vs[|vs| - 1];
      var k := HopKey(meta.target, id, n, meta.snapshot);
      LastWrite(lib, meta, vs[..|vs| - 1], id, n);
      LastHopWrite(lib, meta, v, List(v, "hops"), k);
      LastPropsAppend(Writes(lib, meta, vs[..|vs| - 1]), HopWrites(lib, meta, v, List(v, "hops")), k);
    }
  }

  lemma {:induction false} LastPropsIn(ws: seq<Write>, k: HopKey)
    ensures LastProps(ws, k).Some? <==> exists i :: 0 <= i < |ws| && ws[i].key == k
  {
    if ws != [] {
      LastPropsIn(ws[..|ws| - 1], k);
      if i :| 0 <= i < |ws| && ws[i].key == k {
        assert i < |ws| - 1 ==> ws[..|ws| - 1][i].key == k;
      }
    }
  }

  // ---- The hops after the writes ----

  /** Every hop holds its last write, or what it held before; those of a known target are tied to it. */
  lemma {:induction false} AfterWrites(g: Graph, ws: seq<Write>, resolved: string, stamp: Stamp, k: HopKey)
    ensures var a := ApplyAll(g, ws, resolved, stamp);
            && a.targets == g.targets
            && (k in a.hops <==> k in g.hops || LastProps(ws, k).Some?)
            && (k in a.hops ==> a.hops[k] == if LastProps(ws, k).Some? then LastProps(ws, k).value else g.hops[k])
            && (k in a.traced <==> k in g.traced || (LastProps(ws, k).Some? && k.target in g.targets))
            && (k in a.traced ==>
                a.traced[k] == if LastProps(ws, k).Some? && k.target in g.targets then stamp else g.traced[k])
  {
    if ws != [] {
      AfterWrites(g, ws[..|ws| - 1], resolved, stamp, k);
    }
  }

  // ---- Repeating ----

  /** All that a write leaves behind, apart from the hop's properties. */
  predicate Written(g: Graph, w: Write, resolved: string, stamp: Stamp) {
    && w.key in g.hops
    && (w.key.target in g.targets ==> w.key in g.traced && g.traced[w.key] == stamp)
    && (w.prev.Some? ==>
        w.prev.value in g.hops && (w.prev.value, w.key) in g.next && g.next[(w.prev.value, w.key)] == stamp)
    && (w.props.ip != "" && !w.props.timeout ==>
          w.props.ip in g.sharedHops && (w.key, w.props.ip) in g.sharedAt && g.sharedAt[(w.key, w.props.ip)] == stamp)
    && (w.props.ip != "" && resolved != "" && w.props.ip == resolved ==>
          w.props.ip in g.ips && (w.key, w.props.ip) in g.reaches && g.reaches[(w.key, w.props.ip)] == stamp)
  }

  lemma ApplyWrites(g: Graph, w: Write, resolved: string, stamp: Stamp)
    requires w.prev.Some? ==> w.prev.value in g.hops
    ensures Written(Apply(g, w, resolved, stamp), w, resolved, stamp)
  {
  }

  lemma ApplyKeepsWritten(g: Graph, w: Write, x: Write, resolved: string, stamp: Stamp)
    requires Written(g, x, resolved, stamp)
    ensures Written(Apply(g, w, resolved, stamp), x, resolved, stamp)
  {
  }

  /** Every write's previous hop was written before it. */
  predicate Chained(ws: seq<Write>) {
    forall i :: 0 <= i < |ws| && ws[i].prev.Some? ==> LastProps(ws[..i], ws[i].prev.value).Some?
  }

  lemma ChainedAppend(a: seq<Write>, b: seq<Write>)
    requires Chained(a) && Chained(b)
    ensures Chained(a + b)
  {
    forall i | 0 <= i < |a + b| && (a + b)[i].prev.Some? ensures LastProps((a + b)[..i], (a + b)[i].prev.value).Some? {
      if i < |a| {
        assert (a + b)[..i] == a[..i];
      } else {
        assert (a + b)[..i] == a + b[..i - |a|];
        LastPropsAppend(a, b[..i - |a|], (a + b)[i].prev.value);
      }
    }
  }

  lemma {:induction false} HopsChained(lib: Lib, meta: Meta, v: Document, hops: seq<Json>)
    ensures Chained(HopWrites(lib, meta, v, hops))
  {
    if hops != [] {
      var before := HopWrites(lib, meta, v, hops[..|hops| - 1]);
      var ws := HopWrites(lib, meta, v, hops);
      HopsChained(lib, meta, v, hops[..|hops| - 1]);
      forall i | 0 <= i < |ws| && ws[i].prev.Some? ensures LastProps(ws[..i], ws[i].prev.value).Some? {
        assert ws[..i] == before[..i];
        assert i == |before| ==> before[..i] == before;
      }
    }
  }

  lemma {:induction false} WritesChained(lib: Lib, meta: Meta, vs: seq<Document>)
    ensures Chained(Writes(lib, meta, vs))
  {
    if vs != [] {
      WritesChained(lib, meta, vs[..|vs| - 1]);
      HopsChained(lib, meta, vs[|vs| - 1], List(vs[|vs| - 1], "hops"));
      ChainedAppend(Writes(lib, meta, vs[..|vs| - 1]), HopWrites(lib, meta, vs[|vs| - 1], List(vs[|vs| - 1], "hops")));
    }
  }

  lemma {:induction false} AllWritten(g: Graph, ws: seq<Write>, resolved: string, stamp: Stamp, i: nat)
    requires Chained(ws) && i < |ws|
    ensures Written(ApplyAll(g, ws, resolved, stamp), ws[i], resolved, stamp)
    decreases |ws|
  {
    var before, w := ws[..|ws| - 1], ws[|ws| - 1];
    var a := ApplyAll(g, before, resolved, stamp);
    if i < |before| {
      forall j | 0 <= j < |before| && before[j].prev.Some? ensures LastProps(before[..j], before[j].prev.value).Some? {
        assert before[..j] == ws[..j];
      }
      AllWritten(g, before, resolved, stamp, i);
      ApplyKeepsWritten(a, w, ws[i], resolved, stamp);
    } else {
      if w.prev.Some? {
        AfterWrites(g, before, resolved, stamp, w.prev.value);
      }
      ApplyWrites(a, w, resolved, stamp);
    }
  }

  lemma ApplyAgain(g: Graph, w: Write, resolved: string, stamp: Stamp)
    requires Written(g, w, resolved, stamp)
    ensures Apply(g, w, resolved, stamp) == g.(hops := g.hops[w.key := w.props])
  {
    var a := Apply(g, w, resolved, stamp);
    assert a.traced == g.traced && a.next == g.next && a.sharedAt == g.sharedAt && a.reaches == g.reaches;
    assert a.sharedHops == g.sharedHops && a.ips == g.ips;
  }

  lemma {:induction false} ApplyAllAgain(g: Graph, ws: seq<Write>, resolved: string, stamp: Stamp)
    requires forall i :: 0 <= i < |ws| ==> Written(g, ws[i], resolved, stamp)
    ensures ApplyAll(g, ws, resolved, stamp) == g.(hops := ApplyAll(g, ws, resolved, stamp).hops)
  {
    if ws != [] {
      var before, w := ws[..|ws| - 1], ws[|ws| - 1];
      ApplyAllAgain(g, before, resolved, stamp);
      var a := ApplyAll(g, before, resolved, stamp);
      AfterWrites(g, before, resolved, stamp, w.key);
      assert w == ws[|ws| - 1] && Written(g, w, resolved, stamp);
      if w.prev.Some? {
        AfterWrites(g, before, resolved, stamp, w.prev.value);
      }
      ApplyAgain(a, w, resolved, stamp);
    }
  }

  /** Synchronising the same snapshot again changes nothing at all. */
  lemma SyncTwice(lib: Lib, g: Graph, meta: Meta, raw: Document)
    ensures Sync(lib, Sync(lib, g, meta, raw), meta, raw) == Sync(lib, g, meta, raw)
  {
    var ws, resolved, stamp := Writes(lib, meta, ScannedVantages(raw)), ResolvedIp(lib, raw), meta.Mark();
    var a := Sync(lib, g, meta, raw);
    var b := Sync(lib, a, meta, raw);
    WritesChained(lib, meta, ScannedVantages(raw));
    forall i | 0 <= i < |ws| ensures Written(a, ws[i], resolved, stamp) {
      AllWritten(g, ws, resolved, stamp, i);
    }
    ApplyAllAgain(a, ws, resolved, stamp);
    forall k ensures (k in a.hops <==> k in b.hops) && (k in a.hops ==> a.hops[k] == b.hops[k]) {
      AfterWrites(g, ws, resolved, stamp, k);
      AfterWrites(a, ws, resolved, stamp, k);
    }
    assert a.hops == b.hops;
  }

  // ---- Other snapshots ----

  lemma {:induction false} HopWriteKeys(lib: Lib, meta: Meta, v: Document, hops: seq<Json>, i: nat)
    requires i < |HopWrites(lib, meta, v, hops)|
    ensures HopWrites(lib, meta, v, hops)[i].key.snapshot == meta.snapshot
        && HopWrites(lib, meta, v, hops)[i].key.target == meta.target
    ensures HopWrites(lib, meta, v, hops)[i].key.vantage == VantageId(lib, v)
    ensures HopWrites(lib, meta, v, hops)[i].key.hop > 0
  {
    var before := HopWrites(lib, meta, v, hops[..|hops| - 1]);
    if i < |before| {
      HopWriteKeys(lib, meta, v, hops[..|hops| - 1], i);
    }
  }

  lemma {:induction false} WriteKeys(lib: Lib, meta: Meta, vs: seq<Document>, i: nat)
    requires i < |Writes(lib, meta, vs)|
    ensures Writes(lib, meta, vs)[i].key.snapshot == meta.snapshot && Writes(lib, meta, vs)[i].key.target == meta.target
    ensures Writes(lib, meta, vs)[i].key.hop > 0
    ensures exists j :: 0 <= j < |vs| && Writes(lib, meta, vs)[i].key.vantage == VantageId(lib, vs[j])
  {
    var before, v := Writes(lib, meta, vs[..|vs| - 1]), vs[|vs| - 1];
    if i < |before| {
      WriteKeys(lib, meta, vs[..|vs| - 1], i);
      var j :| 0 <= j < |vs| - 1 && before[i].key.vantage == VantageId(lib, vs[..|vs| - 1][j]);
      assert vs[j] == vs[..|vs| - 1][j];
    } else {
      HopWriteKeys(lib, meta, v, List(v, "hops"), i - |before|);
    }
  }

  /** The hops of the snapshot, with their ties to targets. */
  predicate SameSnapshot(a: Graph, b: Graph, snapshot: string, k: HopKey) {
    && (k.snapshot == snapshot ==> (k in a.hops <==> k in b.hops) && (k in a.traced <==> k in b.traced))
    && (k.snapshot == snapshot && k in a.hops && k in b.hops ==> a.hops[k] == b.hops[k])
    && (k.snapshot == snapshot && k in a.traced && k in b.traced ==> a.traced[k] == b.traced[k])
  }

  /** Synchronising one snapshot leaves every other snapshot's hops as they were. */
  lemma OtherSnapshotsKept(lib: Lib, g: Graph, meta: Meta, raw: Document, snapshot: string)
    requires snapshot != meta.snapshot
    ensures Sync(lib, g, meta, raw).targets == g.targets
    ensures forall k :: SameSnapshot(g, Sync(lib, g, meta, raw), snapshot, k)
  {
    var ws := Writes(lib, meta, ScannedVantages(raw));
    AfterWrites(g, ws, ResolvedIp(lib, raw), meta.Mark(), HopKey("", "", 0, ""));
    forall k ensures SameSnapshot(g, Sync(lib, g, meta, raw), snapshot, k) {
      AfterWrites(g, ws, ResolvedIp(lib, raw), meta.Mark(), k);
      LastPropsIn(ws, k);
      if k.snapshot == snapshot && LastProps(ws, k).Some? {
        var i :| 0 <= i < |ws| && ws[i].key == k;
        WriteKeys(lib, meta, ScannedVantages(raw), i);
      }
    }
  }
}
