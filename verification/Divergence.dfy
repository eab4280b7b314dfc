/** Set differences of string lists, as sorted lists. */
module SetDiff {
  import opened Common
  import opened Sorting

  function Elements(s: seq<string>): set<string> {
    set x | x in s
  }

  /** toStringSet. */
  method ToSet(s: seq<string>) returns (r: set<string>)
    ensures r == Elements(s)
  {
    r := {};
    for i := 0 to |s|
      invariant r == Elements(s[..i])
    {
      r := r + {s[i]};
    }
    assert s[..|s|] == s;
  }

  /** Ranges over `a`, keeps what is not in `b`, and sorts. */
  method Minus(a: set<string>, b: set<string>) returns (r: seq<string>)
    ensures r == Listing(a - b)
  {
    var xs := Range(a);
    var kept := {};
    for i := 0 to |xs|
      invariant kept == Elements(xs[..i]) - b
    {
      if xs[i] !in b {
        kept := kept + {xs[i]};
      }
    }
    assert xs[..|xs|] == xs && Elements(xs) == a;
    r := SortedKeys(kept);
  }

  /** stringDiff and stringSetDiff. */
  method StringDiff(previous: seq<string>, current: seq<string>) returns (added: seq<string>, removed: seq<string>)
    ensures added == Listing(Elements(current) - Elements(previous))
    ensures removed == Listing(Elements(previous) - Elements(current))
  {
    var p := ToSet(previous);
    var c := ToSet(current);
    added := Minus(c, p);
    removed := Minus(p, c);
  }

  /** Nothing added and nothing removed: the same elements. */
  lemma NothingAddedOrRemoved(a: set<string>, b: set<string>)
    ensures Listing(a - b) == [] && Listing(b - a) == [] <==> a == b
  {
    ListsElements(Listing(a - b), a - b);
    ListsElements(Listing(b - a), b - a);
    if a - b == {} && b - a == {} {
      assert a == b;
    }
  }
}

/** Where two vantages' paths to one target part. */
module Divergence {
  import opened Common
  import opened Text
  import opened Sorting
  import opened SetDiff
  import opened TraceRead

  datatype Divergence = Divergence(target: string, targetLabel: string, vantageA: string, vantageB: string,
      divergesAt: nat,
      onlyInA: seq<string>, onlyInB: seq<string>)

  /** A hop's address; a hop that timed out or has no address counts as "*". */
  function HopIp(h: PathHop): string {
    if h.timeout || h.ip == "" then "*" else h.ip
  }

  function Ips(hops: seq<PathHop>): seq<string> {
    seq(|hops|, i requires 0 <= i < |hops| => HopIp(hops[i]))
  }

  function CommonPrefix(a: seq<string>, b: seq<string>): nat {
    if a == [] || b == [] || a[0] != b[0] then 0 else 1 + CommonPrefix(a[1..], b[1..])
  }

  lemma {:induction false} CommonPrefixIs(a: seq<string>, b: seq<string>, n: nat)
    requires n <= |a| && n <= |b| && a[..n] == b[..n]
    requires n < |a| && n < |b| ==> a[n] != b[n]
    ensures CommonPrefix(a, b) == n
  {
    if n > 0 {
      assert a[0] == a[..n][0] && b[0] == b[..n][0];
      assert a[1..][..n - 1] == a[..n][1..] && b[1..][..n - 1] == b[..n][1..];
      CommonPrefixIs(a[1..], b[1..], n - 1);
    }
  }

  /** The longest common prefix is common, and longer ones are not. */
  lemma {:induction false} CommonPrefixLongest(a: seq<string>, b: seq<string>)
    ensures var n := CommonPrefix(a, b);
            && n <= |a| && n <= |b| && a[..n] == b[..n]
            && forall m :: n < m <= |a| && m <= |b| ==> a[..m] != b[..m]
  {
    if a != [] && b != [] && a[0] == b[0] {
      CommonPrefixLongest(a[1..], b[1..]);
      var n := CommonPrefix(a, b);
      assert a[..n] == [a[0]] + a[1..][..n - 1] && b[..n] == [b[0]] + b[1..][..n - 1];
      forall m | n < m <= |a| && m <= |b| ensures a[..m] != b[..m] {
        assert a[..m][1..] == a[1..][..m - 1] && b[..m][1..] == b[1..][..m - 1];
      }
    } else {
      forall m | 0 < m <= |a| && m <= |b| ensures a[..m] != b[..m] {
        assert a[..m][0] == a[0] && b[..m][0] == b[0];
      }
    }
  }

  function DivergesAt(a: seq<string>, b: seq<string>): nat {
    if a == b then 0 else CommonPrefix(a, b) + 1
  }

  /** The addresses seen, timeouts aside. */
  function Addresses(ips: seq<string>): set<string> {
    set x | x in ips && x != "*"
  }

  method PathHopIps(hops: seq<PathHop>) returns (ips: seq<string>)
    ensures ips == Ips(hops)
  {
    ips := [];
    for i := 0 to |hops|
      invariant ips == Ips(hops[..i])
    {
      if hops[i].timeout || hops[i].ip == "" {
        ips := ips + ["*"];
      } else {
        ips := ips + [hops[i].ip];
      }
    }
    assert hops[..|hops|] == hops;
  }

  method AddressSet(ips: seq<string>) returns (r: set<string>)
    ensures r == Addresses(ips)
  {
    r := {};
    for i := 0 to |ips|
      invariant r == Addresses(ips[..i])
    {
      if ips[i] != "*" {
        r := r + {ips[i]};
      }
    }
    assert ips[..|ips|] == ips;
  }

  /** The position after the longest common prefix, or 0 for equal paths; and the addresses only one side has. */
  method CompareTraceroutePaths(a: seq<string>, b: seq<string>) returns (onlyA: seq<string>, onlyB: seq<string>,
                                divergesAt: nat)
    ensures divergesAt == DivergesAt(a, b)
    ensures onlyA == Listing(Addresses(a) - Addresses(b)) && onlyB == Listing(Addresses(b) - Addresses(a))
  {
    var minLen := if |b| < |a| then |b| else |a|;
    divergesAt := 0;
    var i := 0;
    while i < minLen
      invariant i <= minLen && divergesAt == 0 && a[..i] == b[..i]
    {
      if a[i] != b[i] {
        divergesAt := i + 1;
        break;
      }
      i := i + 1;
    }
    CommonPrefixIs(a, b, i);
    if divergesAt == 0 && |a| != |b| {
      divergesAt := minLen + 1;
    }
    assert divergesAt == 0 ==> a == a[..i] && b == b[..i];
    var setA := AddressSet(a);
    var setB := AddressSet(b);
    onlyA := Minus(setA, setB);
    onlyB := Minus(setB, setA);
  }

  // ---- All pairs of vantages ----

  /** What the report of two paths says. */
  ghost predicate Reports(d: Divergence, a: Path, b: Path) {
    && d.target == a.target && d.targetLabel == a.targetLabel && d.vantageA == a.vantageLabel
        && d.vantageB == b.vantageLabel
    && d.divergesAt == DivergesAt(Ips(a.hops), Ips(b.hops)) > 0
    && d.onlyInA == Listing(Addresses(Ips(a.hops)) - Addresses(Ips(b.hops)))
    && d.onlyInB == Listing(Addresses(Ips(b.hops)) - Addresses(Ips(a.hops)))
  }

  /** Two paths of one target, neither empty, with different hop sequences. */
  predicate Diverge(a: Path, b: Path) {
    a.target == b.target && a.hops != [] && b.hops != [] && Ips(a.hops) != Ips(b.hops)
  }

  function Own(paths: seq<Path>, target: string): seq<nat> {
    if paths == [] then []
    else
      var n := |paths| - 1;
      var rest := Own(paths[..n], target);
      if paths[n].hops != [] && paths[n].target == target then rest + [n] else rest
  }

  lemma {:induction false} OwnIs(paths: seq<Path>, target: string)
    ensures IsGroup(paths, target, Own(paths, target))
  {
    if paths != [] {
      OwnIs(paths[..|paths| - 1], target);
      GroupMore(paths, target, Own(paths[..|paths| - 1], target));
    }
  }

  lemma GroupMore(paths: seq<Path>, target: string, own: seq<nat>)
    requires paths != [] && IsGroup(paths[..|paths| - 1], target, own)
    ensures var n := |paths| - 1;
            IsGroup(paths, target, if paths[n].hops != [] && paths[n].target == target then own + [n] else own)
  {
    var n := |paths| - 1;
    var before := paths[..n];
    var all := if paths[n].hops != [] && paths[n].target == target then own + [n] else own;
    forall i | 0 <= i < |all| ensures all[i] < |paths| && paths[all[i]].hops != [] && paths[all[i]].target == target {
      assert i < |own| ==> before[own[i]] == paths[own[i]];
    }
    forall k | 0 <= k < |paths| && paths[k].hops != [] && paths[k].target == target ensures k in all {
      if k < n {
        assert before[k] == paths[k] && k in own;
      } else {
        assert all[|own|] == k;
      }
    }
  }

  function Pick(paths: seq<Path>, own: seq<nat>): seq<Path>
    requires forall i :: 0 <= i < |own| ==> own[i] < |paths|
  {
    seq(|own|, i requires 0 <= i < |own| => paths[own[i]])
  }

  ghost predicate ByTarget(paths: seq<Path>, groups: map<string, seq<Path>>) {
    forall t {:trigger GroupOf(paths, groups, t)} :: GroupOf(paths, groups, t)
  }

  ghost predicate GroupOf(paths: seq<Path>, groups: map<string, seq<Path>>, t: string) {
    OwnIs(paths, t);
    && (t in groups <==> Own(paths, t) != [])
    && (t in groups ==> groups[t] == Pick(paths, Own(paths, t)))
  }

  method GroupByTarget(paths: seq<Path>) returns (groups: map<string, seq<Path>>)
    ensures ByTarget(paths, groups)
  {
    groups := map[];
    for i := 0 to |paths|
      invariant ByTarget(paths[..i], groups)
    {
      var p := paths[i];
      assert paths[..i + 1][..i] == paths[..i];
      ghost var before := groups;
      if p.hops != [] {
        var group := if p.target in groups then groups[p.target] else [];
        groups := groups[p.target := group + [p]];
      }
      ghost var now := paths[..i + 1];
      forall t ensures GroupOf(now, groups, t) {
        assert GroupOf(paths[..i], before, t);
        GroupNext(now, before, t);
      }
    }
    assert paths[..|paths|] == paths;
  }

  lemma GroupNext(paths: seq<Path>, groups: map<string, seq<Path>>, t: string)
    requires paths != [] && GroupOf(paths[..|paths| - 1], groups, t)
    ensures var p := paths[|paths| - 1];
            var group := if p.target in groups then groups[p.target] else [];
            GroupOf(paths, if p.hops != [] then groups[p.target := group + [p]] else groups, t)
  {
    var n := |paths| - 1;
    var before := Own(paths[..n], t);
    OwnIs(paths, t);
    OwnIs(paths[..n], t);
    assert Pick(paths, before) == Pick(paths[..n], before);
    PickMore(paths, before, n);
  }

  lemma PickMore(paths: seq<Path>, own: seq<nat>, n: nat)
    requires n < |paths| && forall i :: 0 <= i < |own| ==> own[i] < |paths|
    ensures Pick(paths, own + [n]) == Pick(paths, own) + [paths[n]]
  {
  }

  datatype Pair = Pair(a: nat, b: nat)

  /** `pairs` holds once each the pairs that diverge and that the condition picks. */
  ghost predicate Listed(paths: seq<Path>, picked: Pair -> bool, pairs: seq<Pair>) {
    && Distinct(pairs)
    && (forall q {:trigger Wanted(paths, picked, q)} {:trigger q in pairs} :: q in pairs <==> Wanted(paths, picked, q))
  }

  predicate Wanted(paths: seq<Path>, picked: Pair -> bool, q: Pair) {
    q.a < q.b < |paths| && Diverge(paths[q.a], paths[q.b]) && picked(q)
  }

  /** `found` reports the pairs one by one. */
  ghost predicate Told(paths: seq<Path>, pairs: seq<Pair>, found: seq<Divergence>) {
    |found| == |pairs| && forall k {:trigger found[k]} :: 0 <= k < |pairs| ==> ToldOf(paths, pairs[k], found[k])
  }

  ghost predicate ToldOf(paths: seq<Path>, q: Pair, d: Divergence) {
    q.a < |paths| && q.b < |paths| && Reports(d, paths[q.a], paths[q.b])
  }

  ghost predicate ReportsAll(paths: seq<Path>, picked: Pair -> bool, pairs: seq<Pair>, found: seq<Divergence>) {
    Listed(paths, picked, pairs) && Told(paths, pairs, found)
  }

  predicate Before(i: nat, j: nat, q: Pair) {
    q.a < i || (q.a == i && q.b < j)
  }

  /** One pair: reported unless nothing differs. */
  method ComparePair(a: Path, b: Path) returns (d: Option<Divergence>)
    requires a.target == b.target && a.hops != [] && b.hops != []
    ensures d.Some? <==> Diverge(a, b)
    ensures d.Some? ==> Reports(d.value, a, b)
  {
    var ipsA := PathHopIps(a.hops);
    var ipsB := PathHopIps(b.hops);
    var onlyA, onlyB, divergesAt := CompareTraceroutePaths(ipsA, ipsB);
    if onlyA == [] && onlyB == [] && divergesAt == 0 {
      return None;
    }
    if ipsA == ipsB {
      NothingAddedOrRemoved(Addresses(ipsA), Addresses(ipsB));
    }
    d := Some(Divergence(a.target, a.targetLabel, a.vantageLabel, b.vantageLabel, divergesAt, onlyA, onlyB));
  }

  function UpTo(i: nat, j: nat): Pair -> bool {
    (q: Pair) => Before(i, j, q)
  }

  function Any(): Pair -> bool {
    (q: Pair) => true
  }

  lemma SamePicked(paths: seq<Path>, picked: Pair -> bool, other: Pair -> bool, pairs: seq<Pair>)
    requires Listed(paths, picked, pairs)
    requires forall q: Pair :: q.a < q.b < |paths| ==> picked(q) == other(q)
    ensures Listed(paths, other, pairs)
  {
    forall q ensures Wanted(paths, picked, q) == Wanted(paths, other, q) {
    }
  }

  lemma PairListed(paths: seq<Path>, pairs: seq<Pair>, i: nat, j: nat)
    requires i < j < |paths| && Listed(paths, UpTo(i, j), pairs)
    ensures Listed(paths, UpTo(i, j + 1), if Diverge(paths[i], paths[j]) then pairs + [Pair(i, j)] else pairs)
  {
    var p := Pair(i, j);
    assert !Wanted(paths, UpTo(i, j), p);
    forall q ensures Wanted(paths, UpTo(i, j + 1), q) <==>
        Wanted(paths, UpTo(i, j), q) || (q == p && Diverge(paths[i], paths[j])) {
    }
  }

  /** The inner loop. */
  method CompareWith(own: seq<Path>, i: nat, before: seq<Divergence>, ghost pairsBefore: seq<Pair>)
    returns (found: seq<Divergence>, ghost pairs: seq<Pair>)
    requires forall k :: 0 <= k < |own| ==> own[k].hops != [] && own[k].target == own[0].target
    requires i < |own| && ReportsAll(own, UpTo(i, 0), pairsBefore, before)
    ensures ReportsAll(own, UpTo(i + 1, 0), pairs, found)
  {
    found, pairs := before, pairsBefore;
    SamePicked(own, UpTo(i, 0), UpTo(i, i + 1), pairs);
    for j := i + 1 to |own|
      invariant ReportsAll(own, UpTo(i, j), pairs, found)
    {
      var d := ComparePair(own[i], own[j]);
      PairListed(own, pairs, i, j);
      if d.Some? {
        found, pairs := found + [d.value], pairs + [Pair(i, j)];
      }
    }
    SamePicked(own, UpTo(i, |own|), UpTo(i + 1, 0), pairs);
  }

  /** The two loops over one target's paths. */
  method CompareGroup(own: seq<Path>) returns (found: seq<Divergence>)
    requires forall i :: 0 <= i < |own| ==> own[i].hops != [] && own[i].target == own[0].target
    ensures exists pairs :: ReportsAll(own, Any(), pairs, found)
  {
    found := [];
    ghost var pairs: seq<Pair> := [];
    for i := 0 to |own|
      invariant ReportsAll(own, UpTo(i, 0), pairs, found)
    {
      found, pairs := CompareWith(own, i, found, pairs);
    }
    SamePicked(own, UpTo(|own|, 0), Any(), pairs);
    assert ReportsAll(own, Any(), pairs, found);
  }

  /** Pairs of positions in a group as pairs of positions in the whole list. */
  ghost function Lift(pairs: seq<Pair>, own: seq<nat>): seq<Pair>
    requires forall k :: 0 <= k < |pairs| ==> pairs[k].a < |own| && pairs[k].b < |own|
  {
    seq(|pairs|, k requires 0 <= k < |pairs| => Pair(own[pairs[k].a], own[pairs[k].b]))
  }

  function OfTargets(paths: seq<Path>, targets: seq<string>): Pair -> bool {
    (q: Pair) => q.a < |paths| && paths[q.a].target in targets
  }

  /** The group of one target, as positions in the whole list. */
  ghost predicate IsGroup(paths: seq<Path>, t: string, own: seq<nat>) {
    && (forall i, j :: 0 <= i < j < |own| ==> own[i] < own[j])
    && (forall i :: 0 <= i < |own| ==> own[i] < |paths| && paths[own[i]].hops != [] && paths[own[i]].target == t)
    && (forall k :: 0 <= k < |paths| && paths[k].hops != [] && paths[k].target == t ==> k in own)
  }

  lemma LiftedWanted(paths: seq<Path>, t: string, own: seq<nat>, local: seq<Pair>, q: Pair)
    requires IsGroup(paths, t, own) && Listed(Pick(paths, own), Any(), local)
    requires forall k :: 0 <= k < |local| ==> local[k].a < local[k].b < |own|
    ensures q in Lift(local, own) <==> Wanted(paths, OfTargets(paths, [t]), q)
  {
    if q in Lift(local, own) {
      LiftedIsWanted(paths, t, own, local, q);
    }
    if Wanted(paths, OfTargets(paths, [t]), q) {
      WantedIsLifted(paths, t, own, local, q);
    }
  }

  lemma LiftedIsWanted(paths: seq<Path>, t: string, own: seq<nat>, local: seq<Pair>, q: Pair)
    requires IsGroup(paths, t, own) && Listed(Pick(paths, own), Any(), local)
    requires forall k :: 0 <= k < |local| ==> local[k].a < local[k].b < |own|
    requires q in Lift(local, own)
    ensures Wanted(paths, OfTargets(paths, [t]), q)
  {
    var k :| 0 <= k < |local| && Lift(local, own)[k] == q;
    assert local[k] in local;
    assert Wanted(Pick(paths, own), Any(), local[k]);
  }

  lemma WantedIsLifted(paths: seq<Path>, t: string, own: seq<nat>, local: seq<Pair>, q: Pair)
    requires IsGroup(paths, t, own) && Listed(Pick(paths, own), Any(), local)
    requires forall k :: 0 <= k < |local| ==> local[k].a < local[k].b < |own|
    requires Wanted(paths, OfTargets(paths, [t]), q)
    ensures q in Lift(local, own)
  {
    var i :| 0 <= i < |own| && own[i] == q.a;
    var j :| 0 <= j < |own| && own[j] == q.b;
    assert i < j;
    assert Wanted(Pick(paths, own), Any(), Pair(i, j));
    var k :| 0 <= k < |local| && local[k] == Pair(i, j);
    assert Lift(local, own)[k] == q;
  }

  lemma PairsInside(own: seq<Path>, local: seq<Pair>)
    requires Listed(own, Any(), local)
    ensures forall k :: 0 <= k < |local| ==> local[k].a < local[k].b < |own|
  {
    forall k | 0 <= k < |local| ensures local[k].a < local[k].b < |own| {
      assert local[k] in local && Wanted(own, Any(), local[k]);
    }
  }

  lemma LiftedListed(paths: seq<Path>, t: string, own: seq<nat>, local: seq<Pair>)
    requires IsGroup(paths, t, own) && Listed(Pick(paths, own), Any(), local)
    requires forall k :: 0 <= k < |local| ==> local[k].a < local[k].b < |own|
    ensures Listed(paths, OfTargets(paths, [t]), Lift(local, own))
  {
    forall q ensures q in Lift(local, own) <==> Wanted(paths, OfTargets(paths, [t]), q) {
      LiftedWanted(paths, t, own, local, q);
    }
  }

  lemma ListedMore(paths: seq<Path>, targets: seq<string>, t: string, pairs: seq<Pair>, more: seq<Pair>)
    requires t !in targets && Listed(paths, OfTargets(paths, targets), pairs)
        && Listed(paths, OfTargets(paths, [t]), more)
    ensures Listed(paths, OfTargets(paths, targets + [t]), pairs + more)
  {
    var all := pairs + more;
    forall q ensures q in all <==> Wanted(paths, OfTargets(paths, targets + [t]), q) {
      assert q in pairs <==> Wanted(paths, OfTargets(paths, targets), q);
      assert q in more <==> Wanted(paths, OfTargets(paths, [t]), q);
    }
    forall i, j | 0 <= i < j < |all| ensures all[i] != all[j] {
      if i < |pairs| <= j {
        assert all[i] in pairs && Wanted(paths, OfTargets(paths, targets), all[i]);
        assert all[j] in more && Wanted(paths, OfTargets(paths, [t]), all[j]);
      }
    }
  }

  lemma LiftedTold(paths: seq<Path>, t: string, own: seq<nat>, local: seq<Pair>, more: seq<Divergence>)
    requires IsGroup(paths, t, own) && Told(Pick(paths, own), local, more)
    requires forall k :: 0 <= k < |local| ==> local[k].a < local[k].b < |own|
    ensures Told(paths, Lift(local, own), more)
  {
    forall k | 0 <= k < |local| ensures ToldOf(paths, Lift(local, own)[k], more[k]) {
      assert ToldOf(Pick(paths, own), local[k], more[k]);
    }
  }

  lemma ToldMore(paths: seq<Path>, pairs: seq<Pair>, found: seq<Divergence>, pairs2: seq<Pair>, found2: seq<Divergence>)
    requires Told(paths, pairs, found) && Told(paths, pairs2, found2)
    ensures Told(paths, pairs + pairs2, found + found2)
  {
    Together((q: Pair, d: Divergence) => ToldOf(paths, q, d), pairs, found, pairs2, found2);
  }

  lemma Together<A, B>(p: (A, B) -> bool, a: seq<A>, b: seq<B>, a': seq<A>, b': seq<B>)
    requires |a| == |b| && |a'| == |b'|
    requires forall k {:trigger b[k]} :: 0 <= k < |a| ==> p(a[k], b[k])
    requires forall k {:trigger b'[k]} :: 0 <= k < |a'| ==> p(a'[k], b'[k])
    ensures forall k {:trigger (b + b')[k]} :: 0 <= k < |a + a'| ==> p((a + a')[k], (b + b')[k])
  {
  }

  lemma GroupReported(paths: seq<Path>, targets: seq<string>, t: string, own: seq<nat>, pairs: seq<Pair>,
                      found: seq<Divergence>,
                      local: seq<Pair>, more: seq<Divergence>) returns (all: seq<Pair>)
    requires t !in targets && ReportsAll(paths, OfTargets(paths, targets), pairs, found)
    requires IsGroup(paths, t, own) && ReportsAll(Pick(paths, own), Any(), local, more)
    ensures ReportsAll(paths, OfTargets(paths, targets + [t]), all, found + more)
  {
    PairsInside(Pick(paths, own), local);
    LiftedListed(paths, t, own, local);
    ListedMore(paths, targets, t, pairs, Lift(local, own));
    LiftedTold(paths, t, own, local, more);
    ToldMore(paths, pairs, found, Lift(local, own), more);
    all := pairs + Lift(local, own);
  }

  predicate ByTargetLabel(a: Divergence, b: Divergence) {
    Less(a.targetLabel, b.targetLabel)
  }

  /** buildVantageDivergence: every pair of paths of one target, neither empty, whose hop sequences differ is
      reported once and no other; sorted by target. */
  method BuildVantageDivergence(paths: seq<Path>) returns (r: seq<Divergence>, ghost pairs: seq<Pair>,
                                ghost found: seq<Divergence>)
    ensures ReportsAll(paths, Any(), pairs, found)
    ensures multiset(r) == multiset(found) && Ordered(ByTargetLabel, r)
  {
    var groups := GroupByTarget(paths);
    var targets := Range(groups.Keys);
    var all: seq<Divergence> := [];
    pairs := [];
    for i := 0 to |targets|
      invariant ReportsAll(paths, OfTargets(paths, targets[..i]), pairs, all)
    {
      var t := targets[i];
      assert GroupOf(paths, groups, t);
      OwnIs(paths, t);
      var more := CompareGroup(groups[t]);
      ghost var local :| ReportsAll(groups[t], Any(), local, more);
      pairs := GroupReported(paths, targets[..i], t, Own(paths, t), pairs, all, local, more);
      all := all + more;
      assert targets[..i + 1] == targets[..i] + [t];
    }
    assert targets[..|targets|] == targets;
    AllTargets(paths, groups, targets, pairs, all);
    LessIsTotal();
    found := all;
    r := SortSlice(ByTargetLabel, all);
  }

  lemma AllTargets(paths: seq<Path>, groups: map<string, seq<Path>>, targets: seq<string>, pairs: seq<Pair>,
                   found: seq<Divergence>)
    requires ByTarget(paths, groups) && forall t :: t in groups ==> t in targets
    requires ReportsAll(paths, OfTargets(paths, targets), pairs, found)
    ensures ReportsAll(paths, Any(), pairs, found)
  {
    forall q ensures Wanted(paths, Any(), q) == Wanted(paths, OfTargets(paths, targets), q) {
      if Wanted(paths, Any(), q) {
        var t := paths[q.a].target;
        OwnIs(paths, t);
        assert GroupOf(paths, groups, t);
      }
    }
  }
}
