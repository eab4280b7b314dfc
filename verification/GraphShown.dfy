/** Which nodes and edges a graph response holds, and under which ids, said on the records. */
module GraphShown {
  import opened Common
  import opened Text
  import opened TextFacts
  import opened Json
  import opened Values
  import opened Readings
  import opened NodeIds
  import opened GraphView

  // ---- Ids ----

  datatype IdRule = IdRule(kind: string, tag: string, property: string)

  /** How the ids of the known types are made: the tag, a colon, and the property. */
  const RULES: seq<IdRule> := [
    IdRule("Target", "Target", "id"), IdRule("Snapshot", "Snapshot", "id"), IdRule("ASN", "asn", "number"),
    IdRule("IP", "ip", "address"), IdRule("JARM", "jarm", "hash"), IdRule("JA3S", "ja3s", "hash"),
    IdRule("Favicon", "favicon", "mmh3"), IdRule("CertIssuer", "issuer", "name"), IdRule("Prefix", "prefix", "cidr"),
    IdRule("IX", "ix", "id"), IdRule("Subdomain", "subdomain", "host"), IdRule("DNSHost", "dnshost", "host"),
    IdRule("DMARCPolicy", "dmarc", "policy"), IdRule("SOAZone", "soa", "zone"),
    IdRule("SharedHop", "sharedhop", "ip"), IdRule("CertSAN", "certsan", "name")]

  ghost predicate RuleReads(lib: Lib, tag: string, property: string, props: Document, id: string) {
    exists s :: PropReads(lib, props, property, s) && id == tag + ":" + s
  }

  lemma TagIs(i: nat)
    requires i < |RULES|
    ensures Tag(RULES[i].kind) == Some(RULES[i].tag) && RULES[i].kind != "Hop"
  {
  }

  lemma KeyIs(i: nat)
    requires i < |RULES|
    ensures KeyProperty(RULES[i].kind) == RULES[i].property
  {
  }

  /** The id of a node of one of the types with a rule. */
  lemma RuleIs(lib: Lib, i: nat, props: Document)
    requires i < |RULES|
    ensures RuleReads(lib, RULES[i].tag, RULES[i].property, props, NodeId(lib, RULES[i].kind, props))
  {
    TagIs(i);
    KeyIs(i);
    StringPropIs(lib, props, RULES[i].property, StringProp(lib, props, RULES[i].property));
  }

  /** The type has no rule of its own. */
  predicate Unruled(kind: string) {
    kind != "Hop" && forall i :: 0 <= i < |RULES| ==> RULES[i].kind != kind
  }

  lemma UnruledHasNoTag(kind: string)
    requires Unruled(kind)
    ensures Tag(kind).None?
  {
    assert RULES[0].kind == "Target" && RULES[1].kind == "Snapshot" && RULES[2].kind == "ASN" && RULES[3].kind == "IP";
    assert RULES[4].kind == "JARM" && RULES[5].kind == "JA3S" && RULES[6].kind == "Favicon";
    assert RULES[7].kind == "CertIssuer" && RULES[8].kind == "Prefix" && RULES[9].kind == "IX";
    assert RULES[10].kind == "Subdomain" && RULES[11].kind == "DNSHost" && RULES[12].kind == "DMARCPolicy";
    assert RULES[13].kind == "SOAZone" && RULES[14].kind == "SharedHop" && RULES[15].kind == "CertSAN";
  }

  /** Any other type's id begins with the type in small letters. */
  lemma UnruledIs(lib: Lib, kind: string, props: Document)
    requires Unruled(kind)
    ensures RuleReads(lib, ToLower(lib, kind), "id", props, NodeId(lib, kind, props))
  {
    UnruledHasNoTag(kind);
    StringPropIs(lib, props, "id", StringProp(lib, props, "id"));
  }

  datatype HopFields = HopFields(target: string, vantage: string, number: int, snapshot: string)

  ghost predicate HopFieldsRead(lib: Lib, props: Document, h: HopFields) {
    && PropReads(lib, props, "target_id", h.target) && PropReads(lib, props, "vantage", h.vantage)
    && NumberReads(Some(props), "hop", 0, h.number) && PropReads(lib, props, "snapshot_id", h.snapshot)
  }

  /** A hop's id lists target, vantage, number and, if it has one, snapshot; without target or positive number it is
      empty. */
  ghost predicate HopReads(lib: Lib, props: Document, id: string) {
    exists h ::
      && HopFieldsRead(lib, props, h)
      && id == if h.target == "" || h.number <= 0 then "" else
                 "hop:" + h.target + ":" + (if h.vantage == "" then "local" else h.vantage) + ":" + Decimal(h.number)
                 + if h.snapshot == "" then "" else ":" + h.snapshot
  }

  lemma HopIs(lib: Lib, props: Document)
    ensures HopReads(lib, props, NodeId(lib, "Hop", props))
  {
    var target, vantage := StringProp(lib, props, "target_id"), StringProp(lib, props, "vantage");
    var number, snapshot := IntProp(props, "hop"), StringProp(lib, props, "snapshot_id");
    StringPropIs(lib, props, "target_id", target);
    StringPropIs(lib, props, "vantage", vantage);
    StringPropIs(lib, props, "snapshot_id", snapshot);
    IntPropIs(props, "hop", number);
    assert HopFieldsRead(lib, props, HopFields(target, vantage, number, snapshot));
  }

  ghost predicate IdReads(lib: Lib, kind: string, props: Document, id: string) {
    && (kind == "Hop" ==> HopReads(lib, props, id))
    && (forall i :: 0 <= i < |RULES| && RULES[i].kind == kind ==>
          RuleReads(lib, RULES[i].tag, RULES[i].property, props, id))
    && (Unruled(kind) ==> RuleReads(lib, ToLower(lib, kind), "id", props, id))
  }

  /** The reading of an id has one result. */
  lemma IdIs(lib: Lib, kind: string, props: Document, id: string)
    ensures NodeId(lib, kind, props) == id <==> IdReads(lib, kind, props, id)
  {
    var own := NodeId(lib, kind, props);
    HopIs(lib, props);
    forall i | 0 <= i < |RULES|
      ensures RuleReads(lib, RULES[i].tag, RULES[i].property, props, NodeId(lib, RULES[i].kind, props))
    {
      RuleIs(lib, i, props);
    }
    if Unruled(kind) { UnruledIs(lib, kind, props); }
    assert IdReads(lib, kind, props, own);
    if IdReads(lib, kind, props, id) {
      if kind == "Hop" {
        OneHopId(lib, props, own, id);
      } else if Unruled(kind) {
        OneRuleId(lib, ToLower(lib, kind), "id", props, own, id);
      } else {
        var i :| 0 <= i < |RULES| && RULES[i].kind == kind;
        OneRuleId(lib, RULES[i].tag, RULES[i].property, props, own, id);
      }
    }
  }

  lemma OneRuleId(lib: Lib, tag: string, property: string, props: Document, a: string, b: string)
    requires RuleReads(lib, tag, property, props, a) && RuleReads(lib, tag, property, props, b)
    ensures a == b
  {
    var s :| PropReads(lib, props, property, s) && a == tag + ":" + s;
    var t :| PropReads(lib, props, property, t) && b == tag + ":" + t;
    StringPropIs(lib, props, property, s);
    StringPropIs(lib, props, property, t);
  }

  lemma OneHopId(lib: Lib, props: Document, a: string, b: string)
    requires HopReads(lib, props, a) && HopReads(lib, props, b)
    ensures a == b
  {
    forall h | HopFieldsRead(lib, props, h)
      ensures h == HopFields(StringProp(lib, props, "target_id"), StringProp(lib, props, "vantage"),
                             IntProp(props, "hop"), StringProp(lib, props, "snapshot_id"))
    {
      StringPropIs(lib, props, "target_id", h.target);
      StringPropIs(lib, props, "vantage", h.vantage);
      StringPropIs(lib, props, "snapshot_id", h.snapshot);
      IntPropIs(props, "hop", h.number);
    }
  }

  // ---- Nodes ----

  /** The stored node is shown as `g`: its first label is its type, its properties stay, and its id is not empty. */
  ghost predicate NodeShows(lib: Lib, n: Node, g: GraphNode) {
    && n.labels != [] && n.labels[0] == g.kind != "" && n.props == g.props
    && g.id != "" && IdReads(lib, g.kind, g.props, g.id)
  }

  lemma ShownIs(lib: Lib, n: Node, g: GraphNode)
    ensures Shown(lib, n) == Some(g) <==> NodeShows(lib, n, g)
  {
    IdIs(lib, g.kind, g.props, g.id);
  }

  /** The end at position `p` shows `g`: the first end of record `p / 2` if `p` is even, else the second, which only
      counts if the first is shown. Records with a missing end show nothing. */
  ghost predicate ShowsAt(lib: Lib, rs: seq<Record>, p: nat, g: GraphNode) {
    && p / 2 < |rs| && rs[p / 2].a.Some? && rs[p / 2].b.Some?
    && if p % 2 == 0 then NodeShows(lib, rs[p / 2].a.value, g)
       else NodeShows(lib, rs[p / 2].b.value, g) && exists h :: NodeShows(lib, rs[p / 2].a.value, h)
  }

  /** `g` is the last node of its id that the records show. */
  ghost predicate LastShown(lib: Lib, rs: seq<Record>, g: GraphNode) {
    exists p: nat :: LastShownAt(lib, rs, g, p)
  }

  ghost predicate LastShownAt(lib: Lib, rs: seq<Record>, g: GraphNode, p: nat) {
    ShowsAt(lib, rs, p, g) && forall q: nat, h :: ShowsAt(lib, rs, q, h) && h.id == g.id ==> q <= p
  }

  /** The nodes of a response are, for each id, the last node with it that the records show. */
  lemma {:induction false} NodesExact(lib: Lib, rs: seq<Record>, g: GraphNode)
    ensures g.id in Nodes(lib, rs) && Nodes(lib, rs)[g.id] == g <==> LastShown(lib, rs, g)
  {
    if rs != [] {
      var before, r := rs[..|rs| - 1], rs[|rs| - 1];
      NodesExact(lib, before, g);
      ByIdTwo(Added(lib, before), Adds(lib, r));
      OneMoreRecord(lib, rs, g);
    }
  }

  /** What the last record's end at position `p` adds. */
  predicate AddsAt(lib: Lib, r: Record, n: nat, p: nat, g: GraphNode) {
    || (p == 2 * n && |Adds(lib, r)| >= 1 && Adds(lib, r)[0] == g)
    || (p == 2 * n + 1 && |Adds(lib, r)| == 2 && Adds(lib, r)[1] == g)
  }

  lemma LastRecordShows(lib: Lib, rs: seq<Record>, p: nat, g: GraphNode)
    requires rs != []
    ensures var n := |rs| - 1;
            ShowsAt(lib, rs, p, g) <==>
              if p < 2 * n then ShowsAt(lib, rs[..n], p, g) else AddsAt(lib, rs[n], n, p, g)
  {
    var n := |rs| - 1;
    if p >= 2 * n && p / 2 < |rs| && rs[n].a.Some? && rs[n].b.Some? {
      assert p == 2 * n || p == 2 * n + 1;
      ShownIs(lib, rs[n].a.value, g);
      ShownIs(lib, rs[n].b.value, g);
      forall h ensures Shown(lib, rs[n].a.value) == Some(h) <==> NodeShows(lib, rs[n].a.value, h) {
        ShownIs(lib, rs[n].a.value, h);
      }
    }
  }

  lemma OneMoreRecord(lib: Lib, rs: seq<Record>, g: GraphNode)
    requires rs != []
    ensures var n, added := |rs| - 1, Adds(lib, rs[|rs| - 1]);
            LastShown(lib, rs, g) <==>
              if |added| == 2 && added[1].id == g.id then added[1] == g
              else if |added| >= 1 && added[0].id == g.id then added[0] == g
              else LastShown(lib, rs[..n], g)
  {
    var n, added := |rs| - 1, Adds(lib, rs[|rs| - 1]);
    forall p: nat, h
      ensures ShowsAt(lib, rs, p, h) <==>
              if p < 2 * n then ShowsAt(lib, rs[..n], p, h) else AddsAt(lib, rs[n], n, p, h)
    {
      LastRecordShows(lib, rs, p, h);
    }
    if |added| == 2 && added[1].id == g.id {
      assert ShowsAt(lib, rs, 2 * n + 1, added[1]);
      assert added[1] == g ==> LastShownAt(lib, rs, g, 2 * n + 1);
    } else if |added| >= 1 && added[0].id == g.id {
      assert ShowsAt(lib, rs, 2 * n, added[0]);
      assert added[0] == g ==> LastShownAt(lib, rs, g, 2 * n);
    } else {
      forall p: nat ensures LastShownAt(lib, rs, g, p) <==> LastShownAt(lib, rs[..n], g, p) {
      }
    }
  }

  // ---- Edges ----

  /** The edge runs from the first end of its record to the second, with the record's relationship. */
  ghost predicate RecordEdge(lib: Lib, r: Record, e: GraphEdge) {
    && r.a.Some? && r.b.Some? && EndHasId(lib, r.a.value, e.source) && EndHasId(lib, r.b.value, e.target)
    && e.rel == r.rel && e.props == r.props && e.id == e.source + "|" + e.rel + "|" + e.target
  }

  ghost predicate EndHasId(lib: Lib, n: Node, id: string) {
    exists g :: NodeShows(lib, n, g) && g.id == id
  }

  /** Both ends are shown. */
  ghost predicate Linked(lib: Lib, r: Record) {
    && r.a.Some? && r.b.Some?
    && (exists id :: EndHasId(lib, r.a.value, id)) && (exists id :: EndHasId(lib, r.b.value, id))
  }

  /** `ys` are made of the `xs` at the positions `at`, in order, and these are all that are chosen. */
  ghost predicate Picked<A(!new), B(!new)>(xs: seq<A>, ys: seq<B>, at: seq<nat>, chosen: A -> bool,
                                           made: (A, B) -> bool) {
    && Rising(at, |xs|) && |at| == |ys| && (forall i :: 0 <= i < |at| ==> made(xs[at[i]], ys[i]))
    && (forall k :: 0 <= k < |xs| && chosen(xs[k]) ==> k in at)
    && forall i :: 0 <= i < |at| ==> chosen(xs[at[i]])
  }

  lemma OneMorePicked<A(!new), B(!new)>(xs: seq<A>, ys: seq<B>, at: seq<nat>, chosen: A -> bool, made: (A, B) -> bool,
                                        x: A, y: B)
    requires Picked(xs, ys, at, chosen, made) && chosen(x) && made(x, y)
    ensures Picked(xs + [x], ys + [y], at + [|xs|], chosen, made)
  {
    var more, n := at + [|xs|], |xs|;
    forall k | 0 <= k < |xs + [x]| && chosen((xs + [x])[k]) ensures k in more {
      assert k < n ==> k in at;
      assert more[|at|] == n;
    }
  }

  /** The edges are those of the records at the positions `at`, in order, and these are the ones with two shown ends. */
  ghost predicate EdgesAre(lib: Lib, rs: seq<Record>, es: seq<GraphEdge>, at: seq<nat>) {
    Picked(rs, es, at, r => Linked(lib, r), (r, e) => RecordEdge(lib, r, e))
  }

  lemma EdgeIs(lib: Lib, r: Record)
    ensures Linked(lib, r) <==> |EdgeOf(lib, r)| == 1
    ensures EdgeOf(lib, r) == [] || (|EdgeOf(lib, r)| == 1 && RecordEdge(lib, r, EdgeOf(lib, r)[0]))
  {
    if r.a.Some? && r.b.Some? {
      forall g ensures Shown(lib, r.a.value) == Some(g) <==> NodeShows(lib, r.a.value, g) {
        ShownIs(lib, r.a.value, g);
      }
      forall g ensures Shown(lib, r.b.value) == Some(g) <==> NodeShows(lib, r.b.value, g) {
        ShownIs(lib, r.b.value, g);
      }
      if Shown(lib, r.a.value).Some? {
        assert EndHasId(lib, r.a.value, Shown(lib, r.a.value).value.id);
      }
      if Shown(lib, r.b.value).Some? {
        assert EndHasId(lib, r.b.value, Shown(lib, r.b.value).value.id);
      }
    }
  }

  lemma {:induction false} AllPicked<A(!new), B(!new)>(xs: seq<A>, f: A -> seq<B>, chosen: A -> bool,
                                                       made: (A, B) -> bool) returns (at: seq<nat>)
    requires forall x :: PicksOne(f, chosen, made, x)
    ensures Picked(xs, Flat(f, xs), at, chosen, made)
  {
    at := [];
    if xs != [] {
      var before, x := xs[..|xs| - 1], xs[|xs| - 1];
      at := AllPicked(before, f, chosen, made);
      assert PicksOne(f, chosen, made, x) && xs == before + [x];
      if chosen(x) {
        OneMorePicked(before, Flat(f, before), at, chosen, made, x, f(x)[0]);
        at := at + [|before|];
      } else {
        assert Flat(f, xs) == Flat(f, before);
      }
    }
  }

  function Flat<A(!new), B(!new)>(f: A -> seq<B>, xs: seq<A>): seq<B> {
    if xs == [] then [] else Flat(f, xs[..|xs| - 1]) + f(xs[|xs| - 1])
  }

  ghost predicate PicksOne<A(!new), B(!new)>(f: A -> seq<B>, chosen: A -> bool, made: (A, B) -> bool, x: A) {
    if chosen(x) then |f(x)| == 1 && made(x, f(x)[0]) else f(x) == []
  }

  lemma {:induction false} EdgesFlat(lib: Lib, rs: seq<Record>)
    ensures Edges(lib, rs) == Flat(r => EdgeOf(lib, r), rs)
  {
    if rs != [] { EdgesFlat(lib, rs[..|rs| - 1]); }
  }

  /** The edges of a response, in record order: one for each record both whose ends are shown, from the first to the
      second. */
  lemma EdgesExact(lib: Lib, rs: seq<Record>) returns (at: seq<nat>)
    ensures EdgesAre(lib, rs, Edges(lib, rs), at)
  {
    var f: Record -> seq<GraphEdge>, chosen: Record -> bool := r => EdgeOf(lib, r), r => Linked(lib, r);
    var made: (Record, GraphEdge) -> bool := (r, e) => RecordEdge(lib, r, e);
    forall r ensures PicksOne(f, chosen, made, r) { EdgeIs(lib, r); }
    EdgesFlat(lib, rs);
    at := AllPicked(rs, f, chosen, made);
  }
}
