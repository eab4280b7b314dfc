/** Routes compared twice: for the graph views and for the alerts. */
module Routes {
  import opened Common
  import opened Text
  import opened Sorting
  import opened Json
  import opened Values
  import opened SetDiff
  import opened DiffEntries
  import Rpki

  /** The routing section of a scan. */
  function Routing(raw: Document): Option<Document> {
    Sub(Section(raw, "asn"), "routing")
  }

  function PathItem(lib: Lib): Json -> string {
    (x: Json) => TrimSpace(Sprint(lib, x))
  }

  /** normalizeASNValue, as the graph reads an origin. */
  function GraphOrigin(lib: Lib): Json -> string {
    (x: Json) => TrimPrefix(ToUpper(lib, TrimSpace(Sprint(lib, x))), "AS")
  }

  /** An origin as the alerts read it. */
  function AlertOrigin(lib: Lib): Json -> string {
    (x: Json) => TrimPrefix(TrimSpace(Sprint(lib, x)), "AS")
  }

  predicate Answers(hop: Json) {
    hop.Obj? && !BoolProp(hop.fields, "timeout")
  }

  function GraphIp(lib: Lib): Json -> string {
    (x: Json) => if Answers(x) then StringProp(lib, x.fields, "ip") else ""
  }

  function AlertIp(lib: Lib): Json -> string {
    (x: Json) => if Answers(x) then StringVal(lib, Some(x.fields), "ip") else ""
  }

  function AsPaths(lib: Lib, routing: Option<Document>): seq<string> {
    SortStrings(Collected(PathItem(lib), Items(routing, "as_paths")))
  }

  function GraphOrigins(lib: Lib, routing: Option<Document>): seq<string> {
    SortStrings(Collected(GraphOrigin(lib), Items(routing, "visible_origins")))
  }

  function AlertOrigins(lib: Lib, routing: Option<Document>): seq<string> {
    SortStrings(Collected(AlertOrigin(lib), Items(routing, "visible_origins")))
  }

  function GraphIps(lib: Lib, raw: Document): seq<string> {
    Collected(GraphIp(lib), Items(Section(raw, "traceroute"), "hops"))
  }

  function AlertIps(lib: Lib, raw: Document): seq<string> {
    Collected(AlertIp(lib), Items(Section(raw, "traceroute"), "hops"))
  }

  /** asPaths of both packages. */
  method ReadAsPaths(lib: Lib, routing: Option<Document>) returns (r: seq<string>)
    ensures r == AsPaths(lib, routing)
  {
    r := Collect(PathItem(lib), Items(routing, "as_paths"));
    r := SortStrings(r);
  }

  // ---- For the graph views ----

  datatype BgpDiff = BgpDiff(riskFrom: string, riskTo: string, rpkiFrom: string, rpkiTo: string,
      originsAdded: seq<string>,
      originsRemoved: seq<string>, pathsAdded: seq<string>, pathsRemoved: seq<string>,
      changed: bool)

  function Risk(lib: Lib, routing: Option<Document>): string {
    if routing.None? then "" else StringProp(lib, routing.value, "hijack_risk")
  }

  /** compareBGPRoutes: both ends of every value, exact differences, and changed exactly if one of them changed. */
  method CompareBgpRoutes(lib: Lib, previous: Document, current: Document) returns (d: BgpDiff)
    ensures d.riskFrom == Risk(lib, Routing(previous)) && d.riskTo == Risk(lib, Routing(current))
    ensures d.rpkiFrom == Rpki.Overall(lib, Routing(previous)) && d.rpkiTo == Rpki.Overall(lib, Routing(current))
    ensures d.originsAdded
        == Listing(Elements(GraphOrigins(lib, Routing(current))) - Elements(GraphOrigins(lib, Routing(previous))))
    ensures d.originsRemoved
        == Listing(Elements(GraphOrigins(lib, Routing(previous))) - Elements(GraphOrigins(lib, Routing(current))))
    ensures d.pathsAdded
        == Listing(Elements(AsPaths(lib, Routing(current))) - Elements(AsPaths(lib, Routing(previous))))
    ensures d.pathsRemoved
        == Listing(Elements(AsPaths(lib, Routing(previous))) - Elements(AsPaths(lib, Routing(current))))
    ensures d.changed <==> || Risk(lib, Routing(previous)) != Risk(lib, Routing(current))
                           || Rpki.Overall(lib, Routing(previous)) != Rpki.Overall(lib, Routing(current))
                           || Elements(GraphOrigins(lib, Routing(previous))) != Elements(GraphOrigins(lib,
                               Routing(current)))
                           || Elements(AsPaths(lib, Routing(previous))) != Elements(AsPaths(lib, Routing(current)))
  {
    var prev, cur := Routing(previous), Routing(current);
    var rpkiFrom := Rpki.OverallRpkiStatus(lib, prev);
    var rpkiTo := Rpki.OverallRpkiStatus(lib, cur);
    var prevOrigins := Collect(GraphOrigin(lib), Items(prev, "visible_origins"));
    var curOrigins := Collect(GraphOrigin(lib), Items(cur, "visible_origins"));
    var originsAdded, originsRemoved := StringDiff(SortStrings(prevOrigins), SortStrings(curOrigins));
    var prevPaths := ReadAsPaths(lib, prev);
    var curPaths := ReadAsPaths(lib, cur);
    var pathsAdded, pathsRemoved := StringDiff(prevPaths, curPaths);
    NothingAddedOrRemoved(Elements(GraphOrigins(lib, cur)), Elements(GraphOrigins(lib, prev)));
    NothingAddedOrRemoved(Elements(curPaths), Elements(prevPaths));
    var changed := Risk(lib, prev) != Risk(lib, cur) || rpkiFrom != rpkiTo || |originsAdded| > 0 || |originsRemoved| > 0
                   || |pathsAdded| > 0 || |pathsRemoved| > 0;
    d := BgpDiff(Risk(lib, prev), Risk(lib, cur), rpkiFrom, rpkiTo, originsAdded, originsRemoved, pathsAdded,
        pathsRemoved, changed);
  }

  datatype TraceDiff = TraceDiff(countFrom: nat, countTo: nat, added: seq<string>, removed: seq<string>, changed: bool)

  /** Another number of answering hops, or another set of addresses. */
  predicate Changed(lib: Lib, previous: Document, current: Document) {
    || |GraphIps(lib, previous)| != |GraphIps(lib, current)|
    || Elements(GraphIps(lib, previous)) != Elements(GraphIps(lib, current))
  }

  /** compareTracerouteRoutes. */
  method CompareTracerouteRoutes(lib: Lib, previous: Document, current: Document) returns (d: TraceDiff)
    ensures d.countFrom == |GraphIps(lib, previous)| && d.countTo == |GraphIps(lib, current)|
    ensures d.added == Listing(Elements(GraphIps(lib, current)) - Elements(GraphIps(lib, previous)))
    ensures d.removed == Listing(Elements(GraphIps(lib, previous)) - Elements(GraphIps(lib, current)))
    ensures d.changed <==> Changed(lib, previous, current)
  {
    var prev := Collect(GraphIp(lib), Items(Section(previous, "traceroute"), "hops"));
    var cur := Collect(GraphIp(lib), Items(Section(current, "traceroute"), "hops"));
    var added, removed := StringDiff(prev, cur);
    NothingAddedOrRemoved(Elements(cur), Elements(prev));
    d := TraceDiff(|prev|, |cur|, added, removed, |prev| != |cur| || |added| > 0 || |removed| > 0);
  }

  // ---- For the alerts ----

  function HopAdded(ip: string): Entry {
    Entry("graph_traceroute_hop_added", Info, "traceroute.hops", [ip], ip)
  }

  function HopRemoved(ip: string): Entry {
    Entry("graph_traceroute_hop_removed", Warning, "traceroute.hops", [ip], ip)
  }

  const Reordered := Entry("graph_traceroute_reordered", Warning, "traceroute.hops", [], "")

  method SameOrdered(a: seq<string>, b: seq<string>) returns (r: bool)
    ensures r <==> a == b
  {
    if |a| != |b| {
      return false;
    }
    for i := 0 to |a|
      invariant a[..i] == b[..i]
    {
      if a[i] != b[i] {
        return false;
      }
    }
    assert a[..|a|] == a && b[..|b|] == b;
    r := true;
  }

  /** The hops that appeared and went, or else the mark of another order. */
  ghost function HopDrift(prev: seq<string>, cur: seq<string>): seq<Entry> {
    if Elements(prev) == Elements(cur) then When(prev != cur, Reordered)
    else SetChanges(Elements(prev), Elements(cur), HopAdded, HopRemoved)
  }

  ghost function TracerouteDrift(lib: Lib, previous: Document, current: Document): seq<Entry> {
    HopDrift(AlertIps(lib, previous), AlertIps(lib, current))
  }

  method CompareHops(prev: seq<string>, cur: seq<string>) returns (r: seq<Entry>)
    ensures r == HopDrift(prev, cur)
  {
    if |cur| == 0 && |prev| == 0 {
      return [];
    }
    var added, removed := StringDiff(prev, cur);
    var entriesAdded := Report(HopAdded, added);
    var entriesRemoved := Report(HopRemoved, removed);
    r := entriesAdded + entriesRemoved;
    NothingAddedOrRemoved(Elements(cur), Elements(prev));
    if |added| == 0 && |removed| == 0 && |prev| > 0 && |cur| > 0 {
      var same := SameOrdered(prev, cur);
      if !same {
        r := r + [Reordered];
      }
    } else {
      EmptySame(prev, cur);
    }
  }

  lemma EmptySame(prev: seq<string>, cur: seq<string>)
    ensures Elements(prev) == Elements(cur) ==> (prev == [] <==> cur == [])
  {
    assert prev != [] ==> prev[0] in Elements(prev);
    assert cur != [] ==> cur[0] in Elements(cur);
  }

  /** diffTracerouteDrift. */
  method DiffTracerouteDrift(lib: Lib, previous: Document, current: Document) returns (r: seq<Entry>)
    ensures r == TracerouteDrift(lib, previous, current)
  {
    var prev := Collect(AlertIp(lib), Items(Section(previous, "traceroute"), "hops"));
    var cur := Collect(AlertIp(lib), Items(Section(current, "traceroute"), "hops"));
    r := CompareHops(prev, cur);
  }

  /** The alert is silent exactly when the answering hops are the same in the same order. */
  lemma DriftEmptyIff(lib: Lib, previous: Document, current: Document)
    ensures TracerouteDrift(lib, previous, current) == [] <==> AlertIps(lib, previous) == AlertIps(lib, current)
  {
    HopDriftEmptyIff(AlertIps(lib, previous), AlertIps(lib, current));
  }

  lemma HopDriftEmptyIff(prev: seq<string>, cur: seq<string>)
    ensures HopDrift(prev, cur) == [] <==> prev == cur
  {
    NothingAddedOrRemoved(Elements(cur), Elements(prev));
    SetChangesEmptyIff(Elements(prev), Elements(cur), HopAdded, HopRemoved);
  }

  // ---- Do the two agree? ----

  /** The packages read an address alike exactly when it is missing, a string, or prints as something trimmed that is
      not null. */
  predicate ReadsAlike(lib: Lib, hop: Json) {
    Answers(hop) && "ip" in hop.fields && !hop.fields["ip"].Str? ==>
      !hop.fields["ip"].Null? && Trimmed(Sprint(lib, hop.fields["ip"]))
  }

  lemma IpsAgreeIff(lib: Lib, hop: Json)
    ensures GraphIp(lib)(hop) == AlertIp(lib)(hop) <==> ReadsAlike(lib, hop)
  {
    if Answers(hop) && "ip" in hop.fields {
      TrimSpaceTrimmed(Sprint(lib, hop.fields["ip"]));
    }
  }

  predicate AllReadAlike(lib: Lib, raw: Document) {
    var hops := Items(Section(raw, "traceroute"), "hops");
    forall i :: 0 <= i < |hops| ==> ReadsAlike(lib, hops[i])
  }

  lemma IpsAgree(lib: Lib, raw: Document)
    requires AllReadAlike(lib, raw)
    ensures GraphIps(lib, raw) == AlertIps(lib, raw)
  {
    var hops := Items(Section(raw, "traceroute"), "hops");
    forall i | 0 <= i < |hops| ensures GraphIp(lib)(hops[i]) == AlertIp(lib)(hops[i]) {
      IpsAgreeIff(lib, hops[i]);
    }
    CollectedSame(GraphIp(lib), AlertIp(lib), hops);
  }

  /** On addresses both read alike, the alert reports whatever the route diff calls changed, and beyond that exactly
      the rearrangements: the same number of hops over the same addresses in another sequence. */
  lemma AlertCoversRouteDiff(lib: Lib, previous: Document, current: Document)
    requires AllReadAlike(lib, previous) && AllReadAlike(lib, current)
    ensures Changed(lib, previous, current) ==> TracerouteDrift(lib, previous, current) != []
    ensures TracerouteDrift(lib, previous, current) != [] && !Changed(lib, previous, current) <==>
            var p, c := GraphIps(lib, previous), GraphIps(lib, current);
            p != c && |p| == |c| && Elements(p) == Elements(c)
  {
    IpsAgree(lib, previous);
    IpsAgree(lib, current);
    DriftEmptyIff(lib, previous, current);
  }

  function OneHop(ip: Json): Document {
    map["traceroute" := Obj(map["hops" := Arr([Obj(map["ip" := ip])])])]
  }

  /** A null address: the route diff drops it, the alert prints it, so a change can pass the alert unseen. */
  lemma NullAddressHidesChange(lib: Lib)
    ensures Changed(lib, OneHop(Null), OneHop(Str("<nil>")))
        && TracerouteDrift(lib, OneHop(Null), OneHop(Str("<nil>"))) == []
  {
    var none, text := Obj(map["ip" := Null]), Obj(map["ip" := Str("<nil>")]);
    assert Trimmed("<nil>");
    TrimSpaceTrimmed("<nil>");
    assert GraphIp(lib)(none) == "" && AlertIp(lib)(none) == "<nil>";
    assert GraphIp(lib)(text) == "<nil>" && AlertIp(lib)(text) == "<nil>";
    OneHopIps(lib, Null);
    OneHopIps(lib, Str("<nil>"));
    DriftEmptyIff(lib, OneHop(Null), OneHop(Str("<nil>")));
  }

  lemma OneHopIps(lib: Lib, ip: Json)
    ensures var h := Obj(map["ip" := ip]);
            && GraphIps(lib, OneHop(ip)) == (if GraphIp(lib)(h) == "" then [] else [GraphIp(lib)(h)])
            && AlertIps(lib, OneHop(ip)) == (if AlertIp(lib)(h) == "" then [] else [AlertIp(lib)(h)])
  {
    var h := Obj(map["ip" := ip]);
    var hops := Items(Section(OneHop(ip), "traceroute"), "hops");
    assert hops == [h] && hops[..0] == [];
    assert Collected(GraphIp(lib), hops[..0]) == [] && Collected(AlertIp(lib), hops[..0]) == [];
  }

  /** The packages read an origin alike exactly when upper-casing changes nothing of it. */
  lemma OriginsAgreeIff(lib: Lib, x: Json)
    ensures GraphOrigin(lib)(x) == AlertOrigin(lib)(x) <==>
        ToUpper(lib, TrimSpace(Sprint(lib, x))) == TrimSpace(Sprint(lib, x))
  {
    var s := TrimSpace(Sprint(lib, x));
    var u := ToUpper(lib, s);
    assert |u| == |s|;
    if "AS" <= u && "AS" <= s && u[2..] == s[2..] {
      assert u == u[..2] + u[2..] && s == s[..2] + s[2..];
    }
  }

  predicate AllUpper(lib: Lib, routing: Option<Document>) {
    var xs := Items(routing, "visible_origins");
    forall i :: 0 <= i < |xs| ==> ToUpper(lib, TrimSpace(Sprint(lib, xs[i]))) == TrimSpace(Sprint(lib, xs[i]))
  }

  lemma OriginsAgree(lib: Lib, routing: Option<Document>)
    requires AllUpper(lib, routing)
    ensures GraphOrigins(lib, routing) == AlertOrigins(lib, routing)
  {
    var xs := Items(routing, "visible_origins");
    forall i | 0 <= i < |xs| ensures GraphOrigin(lib)(xs[i]) == AlertOrigin(lib)(xs[i]) {
      OriginsAgreeIff(lib, xs[i]);
    }
    CollectedSame(GraphOrigin(lib), AlertOrigin(lib), xs);
  }

  // ---- BGP routes for the alerts ----

  /** overallRPKI: the stored verdict, where a missing one prints as null. */
  function AlertRpki(lib: Lib, routing: Option<Document>): string {
    match Sub(routing, "rpki")
    case None => ""
    case Some(rpki) => TrimSpace(Sprint(lib, if "overall" in rpki then rpki["overall"] else Null))
  }

  function OriginAdded(origin: string): Entry {
    Entry("graph_bgp_origin_added", Warning, "asn.routing.visible_origins", [origin], origin)
  }

  function OriginRemoved(origin: string): Entry {
    Entry("graph_bgp_origin_removed", Warning, "asn.routing.visible_origins", [origin], origin)
  }

  /** A new path is worth a warning only beside a removed one. */
  function PathAdded(swapped: bool): string -> Entry {
    (path: string) =>
      Entry("graph_as_path_added", if swapped then Warning else Info, "asn.routing.as_paths", [path], path)
  }

  function PathRemoved(path: string): Entry {
    Entry("graph_as_path_removed", Warning, "asn.routing.as_paths", [path], path)
  }

  function RpkiEntry(prev: string, cur: string): seq<Entry> {
    When(cur != "" && cur != prev, Entry("graph_rpki_changed", Warning, "asn.routing.rpki", [prev, cur], ""))
  }

  ghost predicate Swapped(prev: seq<string>, cur: seq<string>) {
    Elements(cur) - Elements(prev) != {} && Elements(prev) - Elements(cur) != {}
  }

  ghost function BgpDrift(lib: Lib, previous: Document, current: Document): seq<Entry> {
    var prev, cur := Routing(previous), Routing(current);
    if cur.None? then []
    else
      RpkiEntry(AlertRpki(lib, prev), AlertRpki(lib, cur))
      + SetChanges(Elements(AlertOrigins(lib, prev)), Elements(AlertOrigins(lib, cur)), OriginAdded, OriginRemoved)
      + SetChanges(Elements(AsPaths(lib, prev)), Elements(AsPaths(lib, cur)),
                   PathAdded(Swapped(AsPaths(lib, prev), AsPaths(lib, cur))), PathRemoved)
  }

  method CompareOrigins(prev: seq<string>, cur: seq<string>) returns (r: seq<Entry>)
    ensures r == SetChanges(Elements(prev), Elements(cur), OriginAdded, OriginRemoved)
  {
    var added, removed := StringDiff(prev, cur);
    var entriesAdded := Report(OriginAdded, added);
    var entriesRemoved := Report(OriginRemoved, removed);
    r := entriesAdded + entriesRemoved;
  }

  method ComparePaths(prev: seq<string>, cur: seq<string>) returns (r: seq<Entry>)
    ensures r == SetChanges(Elements(prev), Elements(cur), PathAdded(Swapped(prev, cur)), PathRemoved)
  {
    var added, removed := StringDiff(prev, cur);
    ListsElements(added, Elements(cur) - Elements(prev));
    ListsElements(removed, Elements(prev) - Elements(cur));
    var entriesAdded := Report(PathAdded(|added| > 0 && |removed| > 0), added);
    var entriesRemoved := Report(PathRemoved, removed);
    r := entriesAdded + entriesRemoved;
  }

  /** diffBGPRouteDrift. */
  method DiffBgpRouteDrift(lib: Lib, previous: Document, current: Document) returns (r: seq<Entry>)
    ensures r == BgpDrift(lib, previous, current)
  {
    var prev, cur := Routing(previous), Routing(current);
    if cur.None? {
      return [];
    }
    var prevOrigins := Collect(AlertOrigin(lib), Items(prev, "visible_origins"));
    var curOrigins := Collect(AlertOrigin(lib), Items(cur, "visible_origins"));
    var origins := CompareOrigins(SortStrings(prevOrigins), SortStrings(curOrigins));
    var prevPaths := ReadAsPaths(lib, prev);
    var curPaths := ReadAsPaths(lib, cur);
    var paths := ComparePaths(prevPaths, curPaths);
    r := RpkiEntry(AlertRpki(lib, prev), AlertRpki(lib, cur)) + origins + paths;
  }

  /** The alert is silent exactly when routing is gone, or verdict, origins and paths are as before. */
  lemma BgpDriftEmptyIff(lib: Lib, previous: Document, current: Document)
    ensures BgpDrift(lib, previous, current) == [] <==>
            var prev, cur := Routing(previous), Routing(current);
            || cur.None?
            || (&& (AlertRpki(lib, cur) == "" || AlertRpki(lib, cur) == AlertRpki(lib, prev))
                && Elements(AlertOrigins(lib, prev)) == Elements(AlertOrigins(lib, cur))
                && Elements(AsPaths(lib, prev)) == Elements(AsPaths(lib, cur)))
  {
    var prev, cur := Routing(previous), Routing(current);
    var swapped := Swapped(AsPaths(lib, prev), AsPaths(lib, cur));
    SetChangesEmptyIff(Elements(AlertOrigins(lib, prev)), Elements(AlertOrigins(lib, cur)), OriginAdded, OriginRemoved);
    SetChangesEmptyIff(Elements(AsPaths(lib, prev)), Elements(AsPaths(lib, cur)), PathAdded(swapped), PathRemoved);
  }

  /** The stored verdict, where there is an RPKI section, is the one its ROAs give. */
  ghost predicate RpkiReadsAlike(lib: Lib, routing: Option<Document>) {
    match Sub(routing, "rpki")
    case None => true
    case Some(rpki) => "overall" in rpki && TrimSpace(Sprint(lib, rpki["overall"])) == Rpki.Overall(lib, routing)
  }

  /** The packages read the RPKI status alike exactly when there is no RPKI section, or it stores a verdict and that is
      the verdict of its ROAs. */
  lemma RpkiAgreeIff(lib: Lib, routing: Option<Document>)
    ensures AlertRpki(lib, routing) == Rpki.Overall(lib, routing) <==> RpkiReadsAlike(lib, routing)
  {
    assert Trimmed("<nil>");
    TrimSpaceTrimmed("<nil>");
    if Sub(routing, "rpki").None? && routing.Some? {
      assert Rpki.Roas(routing.value) == [];
    }
  }

  /** While the current scan has routing, and both packages read origins and RPKI alike, the alert reports exactly the
      changes of origins and paths that the route diff sees, and of the RPKI status those to a known one. */
  lemma AlertCoversBgpDiff(lib: Lib, previous: Document, current: Document)
    requires Routing(current).Some? && AllUpper(lib, Routing(previous)) && AllUpper(lib, Routing(current))
    requires RpkiReadsAlike(lib, Routing(previous)) && RpkiReadsAlike(lib, Routing(current))
    ensures var prev, cur := Routing(previous), Routing(current);
            BgpDrift(lib, previous, current) != [] <==>
            || Elements(GraphOrigins(lib, prev)) != Elements(GraphOrigins(lib, cur))
            || Elements(AsPaths(lib, prev)) != Elements(AsPaths(lib, cur))
            || (Rpki.Overall(lib, cur) != "" && Rpki.Overall(lib, cur) != Rpki.Overall(lib, prev))
  {
    OriginsAgree(lib, Routing(previous));
    OriginsAgree(lib, Routing(current));
    RpkiAgreeIff(lib, Routing(previous));
    RpkiAgreeIff(lib, Routing(current));
    BgpDriftEmptyIff(lib, previous, current);
  }

  /** An RPKI section without a stored verdict, as the scanner writes it. */
  predicate NoVerdict(routing: Option<Document>) {
    var rpki := Sub(routing, "rpki");
    rpki.Some? ==> "overall" !in rpki.value
  }

  /** For such scans, with origins and paths unchanged, the alert is silent exactly when RPKI data is absent now or was
      there before: every change of the ROAs passes unseen, and the first RPKI data raises an entry whatever it says. */
  lemma RoaChangesUnseen(lib: Lib, previous: Document, current: Document)
    requires NoVerdict(Routing(previous)) && NoVerdict(Routing(current))
    requires Elements(AlertOrigins(lib, Routing(previous))) == Elements(AlertOrigins(lib, Routing(current)))
    requires Elements(AsPaths(lib, Routing(previous))) == Elements(AsPaths(lib, Routing(current)))
    ensures BgpDrift(lib, previous, current) == [] <==>
            Sub(Routing(current), "rpki").None? || Sub(Routing(previous), "rpki").Some?
  {
    NoVerdictPrintsNull(lib, Routing(previous));
    NoVerdictPrintsNull(lib, Routing(current));
    BgpDriftEmptyIff(lib, previous, current);
  }

  lemma NoVerdictPrintsNull(lib: Lib, routing: Option<Document>)
    requires NoVerdict(routing)
    ensures AlertRpki(lib, routing) == if Sub(routing, "rpki").None? then "" else "<nil>"
  {
    assert Trimmed("<nil>");
    TrimSpaceTrimmed("<nil>");
  }

  function WithRoa(validity: string): Document {
    var roa := Obj(map["validity" := Str(validity)]);
    map["asn" := Obj(map["routing" := Obj(map["rpki" := Obj(map["validating_roas" := Arr([roa])])])])]
  }

  /** So a ROA turning invalid changes the route diff and leaves the alert silent. */
  lemma RpkiReadDifferently(lib: Lib)
    ensures Rpki.Overall(lib, Routing(WithRoa("valid"))) == "valid"
        && Rpki.Overall(lib, Routing(WithRoa("invalid"))) == "invalid"
    ensures BgpDrift(lib, WithRoa("valid"), WithRoa("invalid")) == []
  {
    RoaStatus(lib, "valid");
    RoaStatus(lib, "invalid");
    RoaChangesUnseen(lib, WithRoa("valid"), WithRoa("invalid"));
  }

  lemma RoaStatus(lib: Lib, validity: string)
    requires validity == "valid" || validity == "invalid"
    ensures Rpki.Overall(lib, Routing(WithRoa(validity))) == validity && Routing(WithRoa(validity)).Some?
    ensures Items(Routing(WithRoa(validity)), "visible_origins") == []
        && Items(Routing(WithRoa(validity)), "as_paths") == []
    ensures NoVerdict(Routing(WithRoa(validity))) && Sub(Routing(WithRoa(validity)), "rpki").Some?
  {
    var routing := Routing(WithRoa(validity)).value;
    var rows := Rpki.Roas(routing);
    assert rows == [Obj(map["validity" := Str(validity)])];
    assert Trimmed(validity);
    TrimSpaceTrimmed(validity);
    assert ToLower(lib, validity) == validity;
    assert Rpki.Validity(lib, rows[0]) == validity;
    assert Rpki.AnyRoa(lib, rows, validity);
    assert "valid" != "invalid";
    if Rpki.AnyRoa(lib, rows, "invalid") {
      var i :| 0 <= i < |rows| && Rpki.Validity(lib, rows[i]) == "invalid";
    }
  }
}
