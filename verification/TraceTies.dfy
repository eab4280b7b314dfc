/** The relationships of the traceroute graph after a synchronisation, said on the scan's JSON, and what the filters of
    the reading let through. */
module TraceTies {
  import opened Common
  import opened Json
  import opened Values
  import opened Readings
  import opened DiffEntries
  import opened TraceStore
  import opened TraceProofs
  import opened TraceRead
  import opened TraceShown

  // ---- What the list of hops ties together ----

  /** The hop with this key is listed by the scan. */
  ghost predicate OwnHop(lib: Lib, meta: Meta, vs: seq<Document>, k: HopKey) {
    k.target == meta.target && k.snapshot == meta.snapshot && Lists(lib, vs, k.vantage, k.hop)
  }

  /** In some vantage an entry of hop `a` is followed by one of hop `b`, with no entry of any hop between them. */
  ghost predicate OwnNext(lib: Lib, meta: Meta, vs: seq<Document>, a: HopKey, b: HopKey) {
    && a == b.(hop := a.hop) && b.target == meta.target && b.snapshot == meta.snapshot
    && exists v :: v in vs && NameReads(lib, v, b.vantage) && Followed(v, a.hop, b.hop)
  }

  ghost predicate Followed(v: Document, m: int, n: int) {
    exists i: nat, j: nat :: FollowedAt(v, m, n, i, j)
  }

  ghost predicate FollowedAt(v: Document, m: int, n: int, i: nat, j: nat) {
    i < j && EntryIs(v, m, i) && EntryIs(v, n, j) && forall l: nat, o :: i < l < j ==> !EntryIs(v, o, l)
  }

  /** Some entry of the hop names the address, and it answered if `answered` is asked for. */
  ghost predicate OwnAddress(lib: Lib, meta: Meta, vs: seq<Document>, k: HopKey, ip: string, answered: bool) {
    && ip != "" && k.target == meta.target && k.snapshot == meta.snapshot
    && exists v :: v in vs && NameReads(lib, v, k.vantage) && Names(lib, v, k.hop, ip, answered)
  }

  ghost predicate Names(lib: Lib, v: Document, n: int, ip: string, answered: bool) {
    exists j: nat :: EntryIs(v, n, j) && NamesAt(lib, Items(Some(v), "hops")[j].fields, ip, answered)
  }

  ghost predicate NamesAt(lib: Lib, x: Document, ip: string, answered: bool) {
    PropReads(lib, x, "ip", ip) && (answered ==> "timeout" !in x || x["timeout"] != Bool(true))
  }

  /** The address the scan resolved its target to. */
  ghost predicate Resolved(lib: Lib, raw: Document, ip: string) {
    if "asn" in raw && raw["asn"].Obj? then PropReads(lib, raw["asn"].fields, "ip", ip) else ip == ""
  }

  lemma ResolvedIs(lib: Lib, raw: Document, ip: string)
    ensures ResolvedIp(lib, raw) == ip <==> Resolved(lib, raw, ip)
  {
    if "asn" in raw && raw["asn"].Obj? { StringPropIs(lib, raw["asn"].fields, "ip", ip); }
  }

  /** A relationship is there afterwards if it was before or is the scan's own; the scan's own carry its stamp. */
  ghost predicate Marked<K(!new)>(before: map<K, Stamp>, after: map<K, Stamp>, k: K, own: bool, stamp: Stamp) {
    && (k in after <==> k in before || own)
    && (k in after ==> after[k] == if own then stamp else before[k])
  }

  // ---- The writes ----

  ghost predicate AnyNext(ws: seq<Write>, a: HopKey, b: HopKey) {
    exists w :: w in ws && w.prev == Some(a) && w.key == b
  }

  ghost predicate AnyAddress(ws: seq<Write>, k: HopKey, ip: string, answered: bool) {
    ip != "" && exists w :: w in ws && w.key == k && w.props.ip == ip && (answered ==> !w.props.timeout)
  }

  lemma OneMoreWrite(ws: seq<Write>, w: Write, a: HopKey, b: HopKey, ip: string, answered: bool)
    ensures AnyNext(ws + [w], a, b) <==> AnyNext(ws, a, b) || (w.prev == Some(a) && w.key == b)
    ensures AnyAddress(ws + [w], b, ip, answered) <==>
            AnyAddress(ws, b, ip, answered)
            || (ip != "" && w.key == b && w.props.ip == ip && (answered ==> !w.props.timeout))
  {
    assert w in ws + [w];
    assert forall x :: x in ws + [w] <==> x in ws || x == w;
  }

  /** Adding writes adds their ties. */
  lemma AnyAppend(s: seq<Write>, t: seq<Write>, a: HopKey, b: HopKey, ip: string, answered: bool)
    ensures AnyNext(s + t, a, b) <==> AnyNext(s, a, b) || AnyNext(t, a, b)
    ensures AnyAddress(s + t, b, ip, answered) <==> AnyAddress(s, b, ip, answered) || AnyAddress(t, b, ip, answered)
  {
    assert forall x :: x in s + t <==> x in s || x in t;
  }

  ghost predicate TiesAre(g: Graph, after: Graph, ws: seq<Write>, resolved: string, stamp: Stamp, a: HopKey, b: HopKey,
                          ip: string) {
    && Marked(g.next, after.next, (a, b), AnyNext(ws, a, b), stamp)
    && Marked(g.sharedAt, after.sharedAt, (b, ip), AnyAddress(ws, b, ip, true), stamp)
    && Marked(g.reaches, after.reaches, (b, ip), ip == resolved && AnyAddress(ws, b, ip, false), stamp)
  }

  lemma {:induction false} TiesAfter(g: Graph, ws: seq<Write>, resolved: string, stamp: Stamp, a: HopKey, b: HopKey,
                                     ip: string)
    requires Chained(ws)
    ensures TiesAre(g, ApplyAll(g, ws, resolved, stamp), ws, resolved, stamp, a, b, ip)
  {
    if ws != [] {
      var before, w := ws[..|ws| - 1], ws[|ws| - 1];
      ChainedPrefix(ws);
      TiesAfter(g, before, resolved, stamp, a, b, ip);
      assert ws == before + [w];
      if w.prev.Some? { AfterWrites(g, before, resolved, stamp, w.prev.value); }
      TiesStep(g, ApplyAll(g, before, resolved, stamp), before, w, resolved, stamp, a, b, ip);
    }
  }

  lemma TiesStep(g: Graph, mid: Graph, ws: seq<Write>, w: Write, resolved: string, stamp: Stamp, a: HopKey, b: HopKey,
                 ip: string)
    requires TiesAre(g, mid, ws, resolved, stamp, a, b, ip)
    requires w.prev.Some? ==> w.prev.value in mid.hops
    ensures TiesAre(g, Apply(mid, w, resolved, stamp), ws + [w], resolved, stamp, a, b, ip)
  {
    OneMoreWrite(ws, w, a, b, ip, true);
    OneMoreWrite(ws, w, a, b, ip, false);
  }

  lemma ChainedPrefix(ws: seq<Write>)
    requires Chained(ws) && ws != []
    ensures Chained(ws[..|ws| - 1])
  {
    var before := ws[..|ws| - 1];
    forall i | 0 <= i < |before| && before[i].prev.Some?
      ensures LastProps(before[..i], before[i].prev.value).Some?
    {
      assert before[..i] == ws[..i];
    }
  }

  ghost predicate AnyShared(ws: seq<Write>, ip: string, answered: bool) {
    exists k :: AnyAddress(ws, k, ip, answered)
  }

  lemma {:induction false} AddressesAfter(g: Graph, ws: seq<Write>, resolved: string, stamp: Stamp, ip: string)
    ensures var after := ApplyAll(g, ws, resolved, stamp);
            && (ip in after.sharedHops <==> ip in g.sharedHops || AnyShared(ws, ip, true))
            && (ip in after.ips <==> ip in g.ips || (ip == resolved && AnyShared(ws, ip, false)))
  {
    if ws != [] {
      var before, w := ws[..|ws| - 1], ws[|ws| - 1];
      AddressesAfter(g, before, resolved, stamp, ip);
      assert ws == before + [w];
      OneMoreAddress(before, w, ip, true);
      OneMoreAddress(before, w, ip, false);
    }
  }

  lemma OneMoreAddress(ws: seq<Write>, w: Write, ip: string, answered: bool)
    ensures AnyShared(ws + [w], ip, answered) <==>
            AnyShared(ws, ip, answered) || (ip != "" && w.props.ip == ip && (answered ==> !w.props.timeout))
  {
    forall k
      ensures AnyAddress(ws + [w], k, ip, answered) <==>
              AnyAddress(ws, k, ip, answered)
              || (ip != "" && w.key == k && w.props.ip == ip && (answered ==> !w.props.timeout))
    {
      OneMoreWrite(ws, w, k, k, ip, answered);
    }
    if ip != "" && w.props.ip == ip && (answered ==> !w.props.timeout) {
      assert AnyAddress(ws + [w], w.key, ip, answered);
    }
  }

  // ---- From the writes to the entries ----

  /** The last entry of any hop among the first `length`. */
  ghost predicate LastBefore(v: Document, m: int, length: nat) {
    exists i: nat :: LastBeforeAt(v, m, length, i)
  }

  ghost predicate LastBeforeAt(v: Document, m: int, length: nat, i: nat) {
    i < length && EntryIs(v, m, i) && forall l: nat, o :: i < l < length ==> !EntryIs(v, o, l)
  }

  lemma LastNext(v: Document, m: int, length: nat)
    ensures LastBefore(v, m, length + 1) <==>
            EntryIs(v, m, length) || (LastBefore(v, m, length) && forall o :: !EntryIs(v, o, length))
  {
    if EntryIs(v, m, length) {
      assert LastBeforeAt(v, m, length + 1, length);
    }
    if i: nat :| LastBeforeAt(v, m, length, i) && forall o :: !EntryIs(v, o, length) {
      assert LastBeforeAt(v, m, length + 1, i);
    }
    if LastBefore(v, m, length + 1) {
      var i: nat :| LastBeforeAt(v, m, length + 1, i);
      assert i < length ==> LastBeforeAt(v, m, length, i);
    }
  }

  lemma {:induction false} PreviousIs(lib: Lib, meta: Meta, v: Document, hops: seq<Json>, a: HopKey)
    requires hops <= List(v, "hops")
    ensures Previous(HopWrites(lib, meta, v, hops)) == Some(a) <==>
            a == KeyOf(lib, meta, v, a.hop) && LastBefore(v, a.hop, |hops|)
  {
    if hops != [] {
      var m := |hops| - 1;
      PreviousIs(lib, meta, v, hops[..m], a);
      forall n ensures EntryIs(v, n, m) <==> IsHop(hops[m]) && HopNumber(hops[m]) == n { EntryIff(v, n, m); }
      LastNext(v, a.hop, m);
      if IsHop(hops[m]) {
        assert EntryIs(v, HopNumber(hops[m]), m);
      }
    }
  }

  lemma {:induction false} HopTies(lib: Lib, meta: Meta, v: Document, hops: seq<Json>, a: HopKey, b: HopKey, ip: string,
                                   answered: bool)
    requires hops <= List(v, "hops")
    ensures AnyNext(HopWrites(lib, meta, v, hops), a, b) <==>
            && a == KeyOf(lib, meta, v, a.hop) && b == KeyOf(lib, meta, v, b.hop)
            && FollowedIn(v, a.hop, b.hop, |hops|)
    ensures AnyAddress(HopWrites(lib, meta, v, hops), b, ip, answered) <==>
            ip != "" && b == KeyOf(lib, meta, v, b.hop) && NamesIn(lib, v, b.hop, ip, answered, |hops|)
  {
    if hops != [] {
      var m := |hops| - 1;
      HopTies(lib, meta, v, hops[..m], a, b, ip, answered);
      EntryIff(v, b.hop, m);
      FollowedNext(v, a.hop, b.hop, m);
      NamesNext(lib, v, b.hop, ip, answered, m);
      if IsHop(hops[m]) {
        var ws := HopWrites(lib, meta, v, hops[..m]);
        var n := HopNumber(hops[m]);
        PreviousIs(lib, meta, v, hops[..m], a);
        StringPropIs(lib, hops[m].fields, "ip", ip);
        OneMoreWrite(ws, Write(KeyOf(lib, meta, v, n), PropsOf(lib, meta, v, hops[m].fields), Previous(ws)), a, b, ip,
                     answered);
      }
    }
  }

  ghost predicate FollowedIn(v: Document, m: int, n: int, length: nat) {
    exists j: nat :: j < length && EntryIs(v, n, j) && LastBefore(v, m, j)
  }

  lemma FollowedNext(v: Document, m: int, n: int, length: nat)
    ensures FollowedIn(v, m, n, length + 1) <==>
            FollowedIn(v, m, n, length) || (EntryIs(v, n, length) && LastBefore(v, m, length))
  {
  }

  ghost predicate NamesIn(lib: Lib, v: Document, n: int, ip: string, answered: bool, length: nat) {
    exists j: nat ::
      j < length && EntryIs(v, n, j) && NamesAt(lib, Items(Some(v), "hops")[j].fields, ip, answered)
  }

  lemma NamesNext(lib: Lib, v: Document, n: int, ip: string, answered: bool, length: nat)
    ensures NamesIn(lib, v, n, ip, answered, length + 1) <==>
            NamesIn(lib, v, n, ip, answered, length)
            || (EntryIs(v, n, length) && NamesAt(lib, Items(Some(v), "hops")[length].fields, ip, answered))
  {
  }

  lemma WholeList(lib: Lib, v: Document, m: int, n: int, ip: string, answered: bool)
    ensures FollowedIn(v, m, n, |List(v, "hops")|) <==> Followed(v, m, n)
    ensures NamesIn(lib, v, n, ip, answered, |List(v, "hops")|) <==> Names(lib, v, n, ip, answered)
  {
    if FollowedIn(v, m, n, |List(v, "hops")|) {
      var j: nat :| j < |List(v, "hops")| && EntryIs(v, n, j) && LastBefore(v, m, j);
      var i: nat :| LastBeforeAt(v, m, j, i);
      assert FollowedAt(v, m, n, i, j);
    }
    if Followed(v, m, n) {
      var i: nat, j: nat :| FollowedAt(v, m, n, i, j);
      assert LastBeforeAt(v, m, j, i);
      assert LastBefore(v, m, j);
    }
  }

  lemma {:induction false} ScanTies(lib: Lib, meta: Meta, vs: seq<Document>, a: HopKey, b: HopKey, ip: string,
                                    answered: bool)
    ensures AnyNext(Writes(lib, meta, vs), a, b) <==> OwnNext(lib, meta, vs, a, b)
    ensures AnyAddress(Writes(lib, meta, vs), b, ip, answered) <==> OwnAddress(lib, meta, vs, b, ip, answered)
  {
    if vs != [] {
      var before, v := vs[..|vs| - 1], vs[|vs| - 1];
      ScanTies(lib, meta, before, a, b, ip, answered);
      HopTies(lib, meta, v, List(v, "hops"), a, b, ip, answered);
      AnyAppend(Writes(lib, meta, before), HopWrites(lib, meta, v, List(v, "hops")), a, b, ip, answered);
      WholeList(lib, v, a.hop, b.hop, ip, answered);
      NameIs(lib, v, b.vantage);
      assert forall x :: x in vs <==> x in before || x == v;
    }
  }

  // ---- The graph after a synchronisation ----

  /** Hop `b`, its link from `a` and its ties to the address `ip`. */
  ghost predicate SyncedAt(lib: Lib, meta: Meta, raw: Document, vs: seq<Document>, g: Graph, after: Graph, a: HopKey,
                           b: HopKey, ip: string) {
    var stamp := Stamp(meta.snapshot, meta.scannedAt);
    && (b in after.hops <==> b in g.hops || OwnHop(lib, meta, vs, b))
    && Marked(g.traced, after.traced, b, b.target in g.targets && OwnHop(lib, meta, vs, b), stamp)
    && Marked(g.next, after.next, (a, b), OwnNext(lib, meta, vs, a, b), stamp)
    && Marked(g.sharedAt, after.sharedAt, (b, ip), OwnAddress(lib, meta, vs, b, ip, true), stamp)
    && Marked(g.reaches, after.reaches, (b, ip),
              Resolved(lib, raw, ip) && OwnAddress(lib, meta, vs, b, ip, false), stamp)
  }

  /** Some hop of the scan names the address. */
  ghost predicate SomeAddress(lib: Lib, meta: Meta, vs: seq<Document>, ip: string, answered: bool) {
    exists k :: OwnAddress(lib, meta, vs, k, ip, answered)
  }

  ghost predicate AddressSynced(lib: Lib, meta: Meta, raw: Document, vs: seq<Document>, g: Graph, after: Graph,
                                ip: string) {
    && (ip in after.sharedHops <==> ip in g.sharedHops || SomeAddress(lib, meta, vs, ip, true))
    && (ip in after.ips <==> ip in g.ips || (Resolved(lib, raw, ip) && SomeAddress(lib, meta, vs, ip, false)))
  }

  lemma HopListed(lib: Lib, meta: Meta, vs: seq<Document>, k: HopKey)
    ensures LastProps(Writes(lib, meta, vs), k).Some? <==> OwnHop(lib, meta, vs, k)
  {
    LastPropsIn(Writes(lib, meta, vs), k);
    if i :| 0 <= i < |Writes(lib, meta, vs)| && Writes(lib, meta, vs)[i].key == k {
      WriteKeys(lib, meta, vs, i);
    }
    LastWrite(lib, meta, vs, k.vantage, k.hop);
    SightingIs(lib, vs, k.vantage, k.hop);
    if LastSeen(lib, vs, k.vantage, k.hop).Some? {
      var s := LastSeen(lib, vs, k.vantage, k.hop).value;
      var i: nat, j: nat :| LastListed(lib, vs, k.vantage, k.hop, i, j) && vs[i] == s.vantage;
      assert Listed(lib, vs, k.vantage, k.hop, i, j);
    }
  }

  lemma SyncedHere(lib: Lib, g: Graph, meta: Meta, raw: Document, vs: seq<Document>, a: HopKey, b: HopKey, ip: string)
    requires vs == ScannedVantages(raw)
    ensures SyncedAt(lib, meta, raw, vs, g, Sync(lib, g, meta, raw), a, b, ip)
  {
    var ws, resolved, stamp := Writes(lib, meta, vs), ResolvedIp(lib, raw), meta.Mark();
    WritesChained(lib, meta, vs);
    HopListed(lib, meta, vs, b);
    AfterWrites(g, ws, resolved, stamp, b);
    TiesAfter(g, ws, resolved, stamp, a, b, ip);
    ScanTies(lib, meta, vs, a, b, ip, true);
    ScanTies(lib, meta, vs, a, b, ip, false);
    ResolvedIs(lib, raw, ip);
  }

  lemma AddressHere(lib: Lib, g: Graph, meta: Meta, raw: Document, vs: seq<Document>, ip: string)
    requires vs == ScannedVantages(raw)
    ensures AddressSynced(lib, meta, raw, vs, g, Sync(lib, g, meta, raw), ip)
  {
    var ws := Writes(lib, meta, vs);
    AddressesAfter(g, ws, ResolvedIp(lib, raw), meta.Mark(), ip);
    ResolvedIs(lib, raw, ip);
    forall answered, k
      ensures AnyAddress(ws, k, ip, answered) <==> OwnAddress(lib, meta, vs, k, ip, answered)
    {
      ScanTies(lib, meta, vs, k, k, ip, answered);
    }
    assert forall answered :: AnyShared(ws, ip, answered) <==> SomeAddress(lib, meta, vs, ip, answered);
  }

  /** One synchronisation, said on the scan: its hops are there and tied to their target if that is known, every two
      that follow each other are linked, each is tied to every address it answered from, and to the target's own address
      if it named that. Everything else is as it was. */
  lemma SyncIsExact(lib: Lib, g: Graph, meta: Meta, raw: Document, vs: seq<Document>)
    requires VantagesAre(raw, vs)
    ensures var after := Sync(lib, g, meta, raw);
            && after.targets == g.targets
            && (forall a, b, ip :: SyncedAt(lib, meta, raw, vs, g, after, a, b, ip))
            && (forall ip :: AddressSynced(lib, meta, raw, vs, g, after, ip))
  {
    VantagesListed(raw);
    OneList(raw, vs, ScannedVantages(raw));
    AfterWrites(g, Writes(lib, meta, vs), ResolvedIp(lib, raw), meta.Mark(), HopKey("", "", 0, ""));
    var after := Sync(lib, g, meta, raw);
    forall a, b, ip ensures SyncedAt(lib, meta, raw, vs, g, after, a, b, ip) {
      SyncedHere(lib, g, meta, raw, vs, a, b, ip);
    }
    forall ip ensures AddressSynced(lib, meta, raw, vs, g, after, ip) {
      AddressHere(lib, g, meta, raw, vs, ip);
    }
  }

  // ---- The filters of the reading ----

  /** The query returns each hop tied to a known target once: all of them without filters, those of one target or of one
      snapshot with one. */
  lemma QueryIsExact(g: Graph, target: string, snapshot: string, rows: seq<Row>)
    requires IsQuery(g, target, snapshot, rows)
    ensures forall i, j :: 0 <= i < j < |rows| ==> rows[i].key != rows[j].key
    ensures forall i :: 0 <= i < |rows| ==>
              var k := rows[i].key;
              k in g.hops && k.target in g.targets && rows[i] == Row(k, g.targets[k.target], g.hops[k])
    ensures forall k :: HasRow(rows, k) <==>
              && k in g.traced && k in g.hops && k.target in g.targets && target in {"", k.target}
              && (snapshot == "" || k.snapshot == g.traced[k].snapshot == snapshot)
  {
    forall i | 0 <= i < |rows|
      ensures var k := rows[i].key;
              k in g.hops && k.target in g.targets && rows[i] == Row(k, g.targets[k.target], g.hops[k])
    {
      assert RowShows(g, rows[i]);
    }
  }
}
