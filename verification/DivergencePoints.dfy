/** What a report on two vantages says, on their hops. */
module DivergencePoints {
  import opened Common
  import opened Text
  import opened TextFacts
  import opened Sorting
  import opened TraceRead
  import opened Divergence

  /** The hop did not answer: it timed out, or has no address. */
  predicate Silent(h: PathHop) {
    h.timeout || h.ip == "" || h.ip == "*"
  }

  predicate SameAnswer(a: PathHop, b: PathHop) {
    if Silent(a) then Silent(b) else !Silent(b) && a.ip == b.ip
  }

  /** The first `n` hops answer alike. */
  predicate Alike(a: seq<PathHop>, b: seq<PathHop>, n: nat) {
    n <= |a| && n <= |b| && forall i :: 0 <= i < n ==> SameAnswer(a[i], b[i])
  }

  /** Hop `n` is the first that one path lacks or that answers differently. */
  predicate PartAt(a: seq<PathHop>, b: seq<PathHop>, n: nat) {
    && Alike(a, b, n) && (n < |a| || n < |b|)
    && (n < |a| && n < |b| ==> !SameAnswer(a[n], b[n]))
  }

  ghost predicate Answers(hops: seq<PathHop>, ip: string) {
    exists i :: 0 <= i < |hops| && !Silent(hops[i]) && hops[i].ip == ip
  }

  /** The addresses that answered in the one and not in the other, each once and in order. */
  ghost predicate OnlyIn(xs: seq<string>, a: seq<PathHop>, b: seq<PathHop>) {
    && (forall i, j :: 0 <= i < j < |xs| ==> Less(xs[i], xs[j]))
    && forall ip :: ip in xs <==> Answers(a, ip) && !Answers(b, ip)
  }

  lemma SameIp(a: PathHop, b: PathHop)
    ensures HopIp(a) == HopIp(b) <==> SameAnswer(a, b)
  {
  }

  lemma PrefixesAlike(a: seq<PathHop>, b: seq<PathHop>, n: nat)
    requires n <= |a| && n <= |b|
    ensures Ips(a)[..n] == Ips(b)[..n] <==> Alike(a, b, n)
  {
    forall i | 0 <= i < n ensures Ips(a)[i] == Ips(b)[i] <==> SameAnswer(a[i], b[i]) {
      SameIp(a[i], b[i]);
    }
    if Ips(a)[..n] == Ips(b)[..n] {
      forall i | 0 <= i < n ensures SameAnswer(a[i], b[i]) {
        assert Ips(a)[i] == Ips(a)[..n][i] == Ips(b)[..n][i] == Ips(b)[i];
      }
    }
  }

  lemma AddressesAnswer(hops: seq<PathHop>, ip: string)
    ensures ip in Addresses(Ips(hops)) <==> Answers(hops, ip)
  {
    if i :| 0 <= i < |hops| && !Silent(hops[i]) && hops[i].ip == ip {
      assert Ips(hops)[i] == ip;
    }
    if ip in Addresses(Ips(hops)) {
      var i :| 0 <= i < |Ips(hops)| && Ips(hops)[i] == ip;
      assert !Silent(hops[i]) && hops[i].ip == ip;
    }
  }

  /** A report names the first hop at which the two paths part, counting from one, and on each side the addresses only
      it has. */
  lemma ReportMeans(d: Divergence, a: Path, b: Path)
    requires Reports(d, a, b)
    ensures d.target == a.target && d.targetLabel == a.targetLabel
    ensures d.vantageA == a.vantageLabel && d.vantageB == b.vantageLabel
    ensures d.divergesAt > 0 && PartAt(a.hops, b.hops, d.divergesAt - 1)
    ensures OnlyIn(d.onlyInA, a.hops, b.hops) && OnlyIn(d.onlyInB, b.hops, a.hops)
  {
    PartsThere(a.hops, b.hops);
    OnlyInIs(a.hops, b.hops);
    OnlyInIs(b.hops, a.hops);
  }

  lemma PartsThere(a: seq<PathHop>, b: seq<PathHop>)
    requires DivergesAt(Ips(a), Ips(b)) > 0
    ensures PartAt(a, b, DivergesAt(Ips(a), Ips(b)) - 1)
  {
    var p, q := Ips(a), Ips(b);
    var n := CommonPrefix(p, q);
    CommonPrefixLongest(p, q);
    PrefixesAlike(a, b, n);
    if n < |a| && n < |b| {
      PrefixesAlike(a, b, n + 1);
    }
    assert p[..|p|] == p && q[..|q|] == q;
  }

  lemma OnlyInIs(a: seq<PathHop>, b: seq<PathHop>)
    ensures OnlyIn(Listing(Addresses(Ips(a)) - Addresses(Ips(b))), a, b)
  {
    var s := Addresses(Ips(a)) - Addresses(Ips(b));
    ListsElements(Listing(s), s);
    forall ip ensures ip in Listing(s) <==> Answers(a, ip) && !Answers(b, ip) {
      AddressesAnswer(a, ip);
      AddressesAnswer(b, ip);
    }
  }

  /** Two paths are reported exactly when they are of one target, neither is empty, and they part somewhere. */
  lemma DivergeIff(a: Path, b: Path)
    ensures Diverge(a, b) <==>
            a.target == b.target && a.hops != [] && b.hops != [] && exists n: nat :: PartAt(a.hops, b.hops, n)
  {
    var p, q := Ips(a.hops), Ips(b.hops);
    if p != q {
      PartsThere(a.hops, b.hops);
      assert PartAt(a.hops, b.hops, DivergesAt(p, q) - 1);
    }
    if n: nat :| PartAt(a.hops, b.hops, n) {
      if n < |p| && n < |q| {
        SameIp(a.hops[n], b.hops[n]);
        assert p[n] != q[n];
      }
      assert p != q;
    }
  }
}
