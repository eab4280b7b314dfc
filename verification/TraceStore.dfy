/** Traceroute hops in the graph: what a synchronisation writes. */
module TraceStore {
  import opened Common
  import opened Json
  import opened Values

  /** The properties a Hop node is merged by. */
  datatype HopKey = HopKey(target: string, vantage: string, hop: int, snapshot: string)

  datatype HopProps = HopProps(ip: string, timeout: bool, rttMs: real, country: string, city: string,
                               latitude: real, longitude: real, vantageLabel: string, scannedAt: int)

  /** What every relationship carries. */
  datatype Stamp = Stamp(snapshot: string, scannedAt: int)

  /** Target nodes with their hosts, Hop nodes, and the relationships TRACEROUTE_HOP (from the hop's target,
      with the hop's number and vantage), NEXT_HOP, SHARED_AT and REACHES. */
  datatype Graph = Graph(
    targets: map<string, string>,
    hops: map<HopKey, HopProps>,
    traced: map<HopKey, Stamp>,
    next: map<(HopKey, HopKey), Stamp>,
    sharedHops: set<string>,
    sharedAt: map<(HopKey, string), Stamp>,
    ips: set<string>,
    reaches: map<(HopKey, string), Stamp>)

  datatype Meta = Meta(target: string, snapshot: string, scannedAt: int) {
    function Mark(): Stamp { Stamp(snapshot, scannedAt) }
  }

  /** One hop to merge, and the hop before it in the same vantage's list. */
  datatype Write = Write(key: HopKey, props: HopProps, prev: Option<HopKey>)

  // ---- From the scan to the writes ----

  function VantageId(lib: Lib, v: Document): string {
    var id := StringProp(lib, v, "id");
    if id == "" then "local" else id
  }

  /** tracerouteVantagesFromRaw: the listed vantages, or the plain hop list as one local vantage. */
  function Vantages(tr: Document): seq<Document> {
    var listed := Objects(List(tr, "vantages"));
    if listed != [] then listed
    else if List(tr, "hops") == [] then []
    else [map["id" := Str("local"), "label" := Str("Local scanner"), "hops" := tr["hops"]]]
  }

  /** The vantages a synchronisation reads: none without a traceroute, or if it was skipped. */
  function ScannedVantages(raw: Document): seq<Document> {
    match Section(raw, "traceroute")
    case None => []
    case Some(tr) => if "skipped" in tr then [] else Vantages(tr)
  }

  function ResolvedIp(lib: Lib, raw: Document): string {
    match Section(raw, "asn")
    case None => ""
    case Some(asn) => StringProp(lib, asn, "ip")
  }

  /** Entries that are no object or have no positive number are passed over. */
  predicate IsHop(x: Json) {
    x.Obj? && IntProp(x.fields, "hop") > 0
  }

  function HopNumber(x: Json): int
    requires x.Obj?
  {
    IntProp(x.fields, "hop")
  }

  function PropsOf(lib: Lib, meta: Meta, v: Document, h: Document): HopProps {
    HopProps(StringProp(lib, h, "ip"), BoolProp(h, "timeout"), FloatProp(h, "rtt_ms"), StringProp(lib, h, "country"),
             StringProp(lib, h, "city"), FloatProp(h, "latitude"), FloatProp(h, "longitude"),
             StringProp(lib, v, "label"), meta.scannedAt)
  }

  function KeyOf(lib: Lib, meta: Meta, v: Document, n: int): HopKey {
    HopKey(meta.target, VantageId(lib, v), n, meta.snapshot)
  }

  function Previous(ws: seq<Write>): Option<HopKey> {
    if ws == [] then None else Some(ws[|ws| - 1].key)
  }

  /** The writes for the first hops of one vantage. */
  function HopWrites(lib: Lib, meta: Meta, v: Document, hops: seq<Json>): seq<Write> {
    if hops == [] then []
    else
      var ws := HopWrites(lib, meta, v, hops[..|hops| - 1]);
      var x := hops[|hops| - 1];
      if !IsHop(x) then ws
      else ws + [Write(KeyOf(lib, meta, v, HopNumber(x)), PropsOf(lib, meta, v, x.fields), Previous(ws))]
  }

  function Writes(lib: Lib, meta: Meta, vs: seq<Document>): seq<Write> {
    if vs == [] then []
    else Writes(lib, meta, vs[..|vs| - 1]) + HopWrites(lib, meta, vs[|vs| - 1], List(vs[|vs| - 1], "hops"))
  }

  // ---- What the writes do to the graph ----

  /** The four statements for one hop. */
  function Apply(g: Graph, w: Write, resolved: string, stamp: Stamp): Graph {
    var hops := g.hops[w.key := w.props];
    var shared := w.props.ip != "" && !w.props.timeout;
    var reached := w.props.ip != "" && resolved != "" && w.props.ip == resolved;
    Graph(
      g.targets,
      hops,
      if w.key.target in g.targets then g.traced[w.key := stamp] else g.traced,
      if w.prev.Some? && w.prev.value in hops then g.next[(w.prev.value, w.key) := stamp] else g.next,
      if shared then g.sharedHops + {w.props.ip} else g.sharedHops,
      if shared then g.sharedAt[(w.key, w.props.ip) := stamp] else g.sharedAt,
      if reached then g.ips + {w.props.ip} else g.ips,
      if reached then g.reaches[(w.key, w.props.ip) := stamp] else g.reaches)
  }

  function ApplyAll(g: Graph, ws: seq<Write>, resolved: string, stamp: Stamp): Graph {
    if ws == [] then g else Apply(ApplyAll(g, ws[..|ws| - 1], resolved, stamp), ws[|ws| - 1], resolved, stamp)
  }

  lemma {:induction false} ApplyAppend(g: Graph, a: seq<Write>, b: seq<Write>, resolved: string, stamp: Stamp)
    ensures ApplyAll(g, a + b, resolved, stamp) == ApplyAll(ApplyAll(g, a, resolved, stamp), b, resolved, stamp)
  {
    if b == [] {
      assert a + b == a;
    } else {
      assert (a + b)[..|a + b| - 1] == a + b[..|b| - 1];
      ApplyAppend(g, a, b[..|b| - 1], resolved, stamp);
    }
  }

  /** syncTracerouteGraph. */
  function Sync(lib: Lib, g: Graph, meta: Meta, raw: Document): Graph {
    ApplyAll(g, Writes(lib, meta, ScannedVantages(raw)), ResolvedIp(lib, raw), meta.Mark())
  }
}

/** The synchronisation itself, statement by statement. */
module TraceSync {
  import opened Common
  import opened Json
  import opened Values
  import opened TraceStore

  class Store {
    var targets: map<string, string>
    var hops: map<HopKey, HopProps>
    var traced: map<HopKey, Stamp>
    var next: map<(HopKey, HopKey), Stamp>
    var sharedHops: set<string>
    var sharedAt: map<(HopKey, string), Stamp>
    var ips: set<string>
    var reaches: map<(HopKey, string), Stamp>

    constructor (g: Graph)
      ensures Shown() == g
    {
      targets, hops, traced, next := g.targets, g.hops, g.traced, g.next;
      sharedHops, sharedAt, ips, reaches := g.sharedHops, g.sharedAt, g.ips, g.reaches;
    }

    function Shown(): Graph
      reads this
    {
      Graph(targets, hops, traced, next, sharedHops, sharedAt, ips, reaches)
    }

    /** Finds or creates the hop, sets its properties, and ties it to its target if there is one. */
    method MergeHop(key: HopKey, props: HopProps, stamp: Stamp)
      modifies this`hops, this`traced
      ensures hops == old(hops)[key := props]
      ensures traced == if key.target in targets then old(traced)[key := stamp] else old(traced)
    {
      hops := hops[key := props];
      if key.target in targets {
        traced := traced[key := stamp];
      }
    }

    method LinkNext(prev: HopKey, key: HopKey, stamp: Stamp)
      modifies this`next
      ensures next == if prev in hops && key in hops then old(next)[(prev, key) := stamp] else old(next)
    {
      if prev in hops && key in hops {
        next := next[(prev, key) := stamp];
      }
    }

    method LinkShared(key: HopKey, ip: string, stamp: Stamp)
      modifies this`sharedHops, this`sharedAt
      ensures sharedHops == old(sharedHops) + {ip}
      ensures sharedAt == if key in hops then old(sharedAt)[(key, ip) := stamp] else old(sharedAt)
    {
      sharedHops := sharedHops + {ip};
      if key in hops {
        sharedAt := sharedAt[(key, ip) := stamp];
      }
    }

    method LinkReached(key: HopKey, ip: string, stamp: Stamp)
      modifies this`ips, this`reaches
      ensures ips == old(ips) + {ip}
      ensures reaches == if key in hops then old(reaches)[(key, ip) := stamp] else old(reaches)
    {
      ips := ips + {ip};
      if key in hops {
        reaches := reaches[(key, ip) := stamp];
      }
    }

    method SyncHop(key: HopKey, props: HopProps, prevHop: int, resolved: string, stamp: Stamp)
      modifies this
      ensures Shown()
          == Apply(old(Shown()), Write(key, props, if prevHop > 0 then Some(key.(hop := prevHop)) else None), resolved,
          stamp)
    {
      MergeHop(key, props, stamp);
      if prevHop > 0 {
        LinkNext(key.(hop := prevHop), key, stamp);
      }
      if props.ip != "" && !props.timeout {
        LinkShared(key, props.ip, stamp);
      }
      if props.ip != "" && resolved != "" && props.ip == resolved {
        LinkReached(key, props.ip, stamp);
      }
    }

    method SyncVantage(lib: Lib, meta: Meta, v: Document, resolved: string)
      modifies this
      ensures Shown() == ApplyAll(old(Shown()), HopWrites(lib, meta, v, List(v, "hops")), resolved, meta.Mark())
    {
      var hopList := List(v, "hops");
      var prevHop := 0;
      for i := 0 to |hopList|
        invariant Shown() == ApplyAll(old(Shown()), HopWrites(lib, meta, v, hopList[..i]), resolved, meta.Mark())
        invariant Previous(HopWrites(lib, meta, v, hopList[..i])) ==
            if prevHop > 0 then Some(KeyOf(lib, meta, v, prevHop)) else None
      {
        var x := hopList[i];
        NextHop(old(Shown()), lib, meta, v, hopList, i, resolved);
        if IsHop(x) {
          SyncHop(KeyOf(lib, meta, v, HopNumber(x)), PropsOf(lib, meta, v, x.fields), prevHop, resolved, meta.Mark());
          prevHop := HopNumber(x);
        }
      }
      assert hopList[..|hopList|] == hopList;
    }

    method SyncTraceroute(lib: Lib, meta: Meta, raw: Document)
      modifies this
      ensures Shown() == Sync(lib, old(Shown()), meta, raw)
    {
      var tr := Section(raw, "traceroute");
      if tr.None? || "skipped" in tr.value {
        return;
      }
      var vs := ReadVantages(tr.value);
      var resolved := ResolvedIp(lib, raw);
      for i := 0 to |vs|
        invariant Shown() == ApplyAll(old(Shown()), Writes(lib, meta, vs[..i]), resolved, meta.Mark())
      {
        assert vs[..i + 1][..i] == vs[..i];
        SyncVantage(lib, meta, vs[i], resolved);
        ApplyAppend(old(Shown()), Writes(lib, meta, vs[..i]), HopWrites(lib, meta, vs[i], List(vs[i], "hops")),
            resolved, meta.Mark());
      }
      assert vs[..|vs|] == vs;
    }
  }

  /** tracerouteVantagesFromRaw's loop. */
  method ReadVantages(tr: Document) returns (r: seq<Document>)
    ensures r == Vantages(tr)
  {
    r := ReadObjects(List(tr, "vantages"));
    if r == [] && List(tr, "hops") != [] {
      r := [map["id" := Str("local"), "label" := Str("Local scanner"), "hops" := tr["hops"]]];
    }
  }

  /** One more entry of a hop list. */
  lemma NextHop(g: Graph, lib: Lib, meta: Meta, v: Document, hops: seq<Json>, i: nat, resolved: string)
    requires i < |hops|
    ensures var before, ws := HopWrites(lib, meta, v, hops[..i]), HopWrites(lib, meta, v, hops[..i + 1]);
            if !IsHop(hops[i]) then ws == before
            else
              var key := KeyOf(lib, meta, v, HopNumber(hops[i]));
              && Previous(ws) == Some(key)
              && ApplyAll(g, ws, resolved, meta.Mark())
                 == Apply(ApplyAll(g, before, resolved, meta.Mark()),
                          Write(key, PropsOf(lib, meta, v, hops[i].fields), Previous(before)), resolved, meta.Mark())
  {
    assert hops[..i + 1][..i] == hops[..i];
    var ws := HopWrites(lib, meta, v, hops[..i + 1]);
    if IsHop(hops[i]) {
      assert ws[..|ws| - 1] == HopWrites(lib, meta, v, hops[..i]);
    }
  }
}
