/** The ids of graph nodes, and when two nodes share one. */
module NodeIds {
  import opened Common
  import opened Text
  import opened Json
  import opened Values

  /** What tells a node apart: its type's identifying property, or the four fields of a hop. */
  datatype Identity =
    | Named(kind: string, value: string)
    | Hop(target: string, vantage: string, number: int, snapshot: string)

  /** The types of the nodes in the graph views, with the tag their ids begin with. */
  function Tag(kind: string): Option<string> {
    if kind == "Target" then Some("Target")
    else if kind == "Snapshot" then Some("Snapshot")
    else if kind == "ASN" then Some("asn")
    else if kind == "IP" then Some("ip")
    else if kind == "JARM" then Some("jarm")
    else if kind == "JA3S" then Some("ja3s")
    else if kind == "Favicon" then Some("favicon")
    else if kind == "CertIssuer" then Some("issuer")
    else if kind == "Prefix" then Some("prefix")
    else if kind == "Hop" then Some("hop")
    else if kind == "IX" then Some("ix")
    else if kind == "Subdomain" then Some("subdomain")
    else if kind == "DNSHost" then Some("dnshost")
    else if kind == "DMARCPolicy" then Some("dmarc")
    else if kind == "SOAZone" then Some("soa")
    else if kind == "SharedHop" then Some("sharedhop")
    else if kind == "CertSAN" then Some("certsan")
    else None
  }

  /** The type a tag stands for. */
  function KindOf(tag: string): string {
    if tag == "asn" then "ASN"
    else if tag == "ip" then "IP"
    else if tag == "jarm" then "JARM"
    else if tag == "ja3s" then "JA3S"
    else if tag == "favicon" then "Favicon"
    else if tag == "issuer" then "CertIssuer"
    else if tag == "prefix" then "Prefix"
    else if tag == "hop" then "Hop"
    else if tag == "ix" then "IX"
    else if tag == "subdomain" then "Subdomain"
    else if tag == "dnshost" then "DNSHost"
    else if tag == "dmarc" then "DMARCPolicy"
    else if tag == "soa" then "SOAZone"
    else if tag == "sharedhop" then "SharedHop"
    else if tag == "certsan" then "CertSAN"
    else tag
  }

  lemma TagsDistinct(kind: string)
    requires Tag(kind).Some?
    ensures ColonFree(Tag(kind).value) && KindOf(Tag(kind).value) == kind
  {
    TagsColonFree(kind);
    if InfraKind(kind) { InfraTags(kind); } else { OtherTags(kind); }
  }

  /** The types of the infrastructure view. */
  predicate InfraKind(kind: string) {
    || kind == "Target" || kind == "Snapshot" || kind == "ASN" || kind == "IP" || kind == "JARM" || kind == "JA3S"
    || kind == "Favicon" || kind == "CertIssuer"
  }

  lemma InfraTags(kind: string)
    requires InfraKind(kind)
    ensures Tag(kind).Some? && KindOf(Tag(kind).value) == kind
  {
  }

  lemma OtherTags(kind: string)
    requires Tag(kind).Some? && !InfraKind(kind)
    ensures KindOf(Tag(kind).value) == kind
  {
  }

  lemma TagsColonFree(kind: string)
    requires Tag(kind).Some?
    ensures ColonFree(Tag(kind).value)
  {
  }

  /** The property that identifies a type's nodes. */
  function KeyProperty(kind: string): string {
    if kind == "ASN" then "number"
    else if kind == "IP" then "address"
    else if kind == "JARM" || kind == "JA3S" then "hash"
    else if kind == "Favicon" then "mmh3"
    else if kind == "CertIssuer" || kind == "CertSAN" then "name"
    else if kind == "Prefix" then "cidr"
    else if kind == "Subdomain" || kind == "DNSHost" then "host"
    else if kind == "DMARCPolicy" then "policy"
    else if kind == "SOAZone" then "zone"
    else if kind == "SharedHop" then "ip"
    else "id"
  }

  function OrLocal(vantage: string): string {
    if vantage == "" then "local" else vantage
  }

  /** What the node is; a hop without target or positive number is not shown. */
  function Identify(lib: Lib, kind: string, props: Document): Option<Identity> {
    if kind != "Hop" then Some(Named(kind, StringProp(lib, props, KeyProperty(kind))))
    else
      var target, number := StringProp(lib, props, "target_id"), IntProp(props, "hop");
      if target == "" || number <= 0 then None
      else Some(Hop(target, OrLocal(StringProp(lib, props, "vantage")), number, StringProp(lib, props, "snapshot_id")))
  }

  function HopId(target: string, vantage: string, number: int, snapshot: string): string {
    if snapshot == "" then "hop:" + target + ":" + vantage + ":" + Decimal(number)
    else "hop:" + target + ":" + vantage + ":" + Decimal(number) + ":" + snapshot
  }

  /** graphNodeID; the empty string for a hop that is not shown. */
  function NodeId(lib: Lib, kind: string, props: Document): string {
    if kind == "Hop" then
      var target, number := StringProp(lib, props, "target_id"), IntProp(props, "hop");
      if target == "" || number <= 0 then ""
      else HopId(target, OrLocal(StringProp(lib, props, "vantage")), number, StringProp(lib, props, "snapshot_id"))
    else
      match Tag(kind)
      case Some(tag) => tag + ":" + StringProp(lib, props, KeyProperty(kind))
      case None => ToLower(lib, kind) + ":" + StringProp(lib, props, "id")
  }

  // ---- Taking ids apart ----

  lemma SplitAtFirstColon(a: string, x: string, b: string, y: string)
    requires a + ":" + x == b + ":" + y && ColonFree(a) && ColonFree(b)
    ensures a == b && x == y
  {
    ColonInside(a, x, b, y);
    ColonInside(b, y, a, x);
    assert |a| == |b|;
    assert (a + ":" + x)[..|a|] == a && (b + ":" + y)[..|b|] == b;
    assert (a + ":" + x)[|a| + 1..] == x && (b + ":" + y)[|b| + 1..] == y;
  }

  lemma SplitAtLastColon(a: string, x: string, b: string, y: string)
    requires a + ":" + x == b + ":" + y && ColonFree(x) && ColonFree(y)
    ensures a == b && x == y
  {
    ColonAfter(a, x, b, y);
    ColonAfter(b, y, a, x);
    assert |a| == |b|;
    assert (a + ":" + x)[..|a|] == a && (b + ":" + y)[..|b|] == b;
    assert (a + ":" + x)[|a| + 1..] == x && (b + ":" + y)[|b| + 1..] == y;
  }

  lemma ColonAfter(a: string, x: string, b: string, y: string)
    requires a + ":" + x == b + ":" + y
    ensures |a| < |b| ==> ':' in x
  {
    if |a| < |b| {
      assert (b + ":" + y)[|b|] == ':';
      assert (a + ":" + x)[|b|] == x[|b| - |a| - 1];
    }
  }

  lemma DecimalColonFree(n: int)
    ensures ColonFree(Decimal(n))
  {
  }

  lemma HopIdParts(target: string, vantage: string, number: int, snapshot: string)
    ensures HopId(target, vantage, number, snapshot) == "hop" + ":"
        + (target + ":" + HopTail(vantage, number, snapshot))
  {
    var d := Decimal(number);
    if snapshot == "" {
      assert "hop:" + target + ":" + vantage + ":" + d == "hop" + ":" + (target + ":" + (vantage + ":" + d));
    } else {
      assert "hop:" + target + ":" + vantage + ":" + d + ":" + snapshot == "hop" + ":"
          + (target + ":" + (vantage + ":" + d + ":" + snapshot));
    }
  }

  function HopTail(vantage: string, number: int, snapshot: string): string {
    if snapshot == "" then vantage + ":" + Decimal(number) else vantage + ":" + Decimal(number) + ":" + snapshot
  }

  /** A hop without snapshot whose vantage and number read like vantage, number and snapshot of the other. */
  predicate Mimics(a: Identity, b: Identity)
    requires a.Hop? && b.Hop?
  {
    a.target == b.target && a.snapshot == "" && b.snapshot == Decimal(a.number)
        && a.vantage == b.vantage + ":" + Decimal(b.number)
  }

  lemma TailsEqual(v: string, n: int, s: string, w: string, m: int, t: string)
    requires ColonFree(s) && ColonFree(t) && HopTail(v, n, s) == HopTail(w, m, t)
    ensures (v == w && n == m && s == t) || (s == "" && t == Decimal(n) && v == w + ":" + Decimal(m))
         || (t == "" && s == Decimal(m) && w == v + ":" + Decimal(n))
  {
    DecimalColonFree(n);
    DecimalColonFree(m);
    var left := if s == "" then v else v + ":" + Decimal(n);
    var right := if t == "" then w else w + ":" + Decimal(m);
    SplitAtLastColon(left, if s == "" then Decimal(n) else s, right, if t == "" then Decimal(m) else t);
    if s == "" && t == "" {
      DecimalInjective(n, m);
    } else if s != "" && t != "" {
      SplitAtLastColon(v, Decimal(n), w, Decimal(m));
      DecimalInjective(n, m);
    }
  }

  /** Hop ids are equal exactly for equal hops, or when one hop without snapshot mimics the other. */
  lemma HopIdsEqualIff(a: Identity, b: Identity)
    requires a.Hop? && b.Hop? && ColonFree(a.target) && ColonFree(b.target) && ColonFree(a.snapshot)
        && ColonFree(b.snapshot)
    ensures HopId(a.target, a.vantage, a.number, a.snapshot) == HopId(b.target, b.vantage, b.number, b.snapshot)
            <==> a == b || Mimics(a, b) || Mimics(b, a)
  {
    HopIdParts(a.target, a.vantage, a.number, a.snapshot);
    HopIdParts(b.target, b.vantage, b.number, b.snapshot);
    var ta, tb := HopTail(a.vantage, a.number, a.snapshot), HopTail(b.vantage, b.number, b.snapshot);
    if HopId(a.target, a.vantage, a.number, a.snapshot) == HopId(b.target, b.vantage, b.number, b.snapshot) {
      SplitAtFirstColon("hop", a.target + ":" + ta, "hop", b.target + ":" + tb);
      SplitAtFirstColon(a.target, ta, b.target, tb);
      TailsEqual(a.vantage, a.number, a.snapshot, b.vantage, b.number, b.snapshot);
    }
    if Mimics(a, b) {
      DecimalNotEmpty(a.number);
      assert ta == tb;
    }
    if Mimics(b, a) {
      DecimalNotEmpty(b.number);
      assert ta == tb;
    }
  }

  lemma DecimalNotEmpty(n: int)
    ensures Decimal(n) != ""
  {
  }

  /** A hop's target and snapshot are UUIDs: no colon, and no plain number. */
  predicate UuidLike(s: string) {
    ColonFree(s) && (s == "" || exists i :: 0 <= i < |s| && !('0' <= s[i] <= '9'))
  }

  predicate WellKeyed(i: Identity) {
    i.Hop? ==> ColonFree(i.target) && UuidLike(i.snapshot)
  }

  lemma NoMimic(a: Identity, b: Identity)
    requires a.Hop? && b.Hop? && a.number > 0 && WellKeyed(b)
    ensures !Mimics(a, b)
  {
    var d := Decimal(a.number);
    assert d == Digits(a.number) && d != "";
    assert forall i :: 0 <= i < |d| ==> '0' <= d[i] <= '9';
  }

  lemma IdBegins(lib: Lib, kind: string, props: Document)
    requires Tag(kind).Some? && Identify(lib, kind, props).Some?
    ensures exists rest :: NodeId(lib, kind, props) == Tag(kind).value + ":" + rest
  {
    if kind == "Hop" {
      var i := Identify(lib, kind, props).value;
      HopIdParts(i.target, i.vantage, i.number, i.snapshot);
    } else {
      assert NodeId(lib, kind, props) == Tag(kind).value + ":" + StringProp(lib, props, KeyProperty(kind));
    }
  }

  /** Among the types of the graph views, ids are equal exactly for the same node. */
  lemma IdsInjective(lib: Lib, kind: string, props: Document, kind': string, props': Document)
    requires Tag(kind).Some? && Tag(kind').Some?
    requires Identify(lib, kind, props).Some? && Identify(lib, kind', props').Some?
    requires WellKeyed(Identify(lib, kind, props).value) && WellKeyed(Identify(lib, kind', props').value)
    ensures NodeId(lib, kind, props) == NodeId(lib, kind', props') <==>
        Identify(lib, kind, props) == Identify(lib, kind', props')
  {
    var a, b := Identify(lib, kind, props).value, Identify(lib, kind', props').value;
    if NodeId(lib, kind, props) == NodeId(lib, kind', props') {
      SameKind(lib, kind, props, kind', props');
    }
    if kind == kind' {
      if kind == "Hop" {
        HopIdsEqualIff(a, b);
        NoMimic(a, b);
        NoMimic(b, a);
      } else if NodeId(lib, kind, props) == NodeId(lib, kind', props') {
        TagsDistinct(kind);
        SplitAtFirstColon(Tag(kind).value, a.value, Tag(kind').value, b.value);
      }
    }
  }

  lemma SameKind(lib: Lib, kind: string, props: Document, kind': string, props': Document)
    requires Tag(kind).Some? && Tag(kind').Some?
    requires Identify(lib, kind, props).Some? && Identify(lib, kind', props').Some?
    requires NodeId(lib, kind, props) == NodeId(lib, kind', props')
    ensures kind == kind'
  {
    TagsDistinct(kind);
    TagsDistinct(kind');
    IdBegins(lib, kind, props);
    IdBegins(lib, kind', props');
    var rest :| NodeId(lib, kind, props) == Tag(kind).value + ":" + rest;
    var rest' :| NodeId(lib, kind', props') == Tag(kind').value + ":" + rest';
    SplitAtFirstColon(Tag(kind).value, rest, Tag(kind').value, rest');
  }

  /** The id is missing exactly when the node is not shown. */
  lemma NoIdIff(lib: Lib, kind: string, props: Document)
    ensures NodeId(lib, kind, props) == "" <==> Identify(lib, kind, props).None?
  {
    if kind == "Hop" && Identify(lib, kind, props).Some? {
      var i := Identify(lib, kind, props).value;
      HopIdParts(i.target, i.vantage, i.number, i.snapshot);
    }
  }

  /** With a plain number for a snapshot two hops would share an id. */
  lemma NumberedSnapshotsCollide()
    ensures exists a: Identity, b: Identity :: a.Hop? && b.Hop? && a != b
              && HopId(a.target, a.vantage, a.number, a.snapshot) == HopId(b.target, b.vantage, b.number, b.snapshot)
  {
    var a, b := Hop("t", "v:1", 2, ""), Hop("t", "v", 1, "2");
    assert Decimal(1) == "1" && Decimal(2) == "2";
    assert Mimics(a, b);
    HopIdsEqualIff(a, b);
  }
}
