/** What the comparisons of scans read of routes, mail and DNS, said without their readers. */
module DiffReadings {
  import opened Common
  import opened Text
  import opened TextFacts
  import opened Sorting
  import opened Json
  import opened Values
  import opened SetDiff
  import opened DiffEntries
  import opened Readings
  import opened Routes
  import opened FieldDiffs
  import opened ListDiffs
  import Rpki

  lemma SortedHas(xs: seq<string>, x: string)
    ensures x in SortStrings(xs) <==> x in xs
  {
    assert x in SortStrings(xs) <==> x in multiset(SortStrings(xs));
    assert x in xs <==> x in multiset(xs);
  }

  lemma CollectedHas(f: Json -> string, xs: seq<Json>, x: string)
    ensures x in Collected(f, xs) <==> x != "" && exists i :: 0 <= i < |xs| && f(xs[i]) == x
  {
    var at := CollectedAre(f, xs);
    var ys := Collected(f, xs);
    if x in ys {
      var k :| 0 <= k < |ys| && ys[k] == x;
      assert f(xs[at[k]]) == x;
    }
    if x != "" {
      if i :| 0 <= i < |xs| && f(xs[i]) == x {
        var k :| 0 <= k < |at| && at[k] == i;
        assert ys[k] == x;
      }
    }
  }

  /** A value prints as `t` with white space around it. */
  ghost predicate PrintsTrimmed(lib: Lib, v: Json, t: string) {
    exists s :: Prints(lib, v, s) && IsTrimmed(s, t)
  }

  lemma PrintsTrimmedIff(lib: Lib, v: Json, t: string)
    ensures TrimSpace(Sprint(lib, v)) == t <==> PrintsTrimmed(lib, v, t)
  {
    TrimSpaceIs(Sprint(lib, v), t);
    assert Prints(lib, v, Sprint(lib, v));
  }

  // ---- Routes ----

  lemma RoutingIs(raw: Document, d: Document)
    ensures Routing(raw) == Some(d) <==>
            "asn" in raw && raw["asn"].Obj? && "routing" in raw["asn"].fields && raw["asn"].fields["routing"] == Obj(d)
  {
  }

  /** The verdict stored with the RPKI data, "<nil>" if there is none, and nothing without RPKI data. */
  lemma AlertRpkiIs(lib: Lib, routing: Option<Document>, s: string)
    ensures AlertRpki(lib, routing) == s <==>
            if routing.Some? && "rpki" in routing.value && routing.value["rpki"].Obj? then
              var rpki := routing.value["rpki"].fields;
              if "overall" in rpki then PrintsTrimmed(lib, rpki["overall"], s) else s == "<nil>"
            else s == ""
  {
    assert Trimmed("<nil>");
    TrimSpaceTrimmed("<nil>");
    if routing.Some? && "rpki" in routing.value && routing.value["rpki"].Obj? {
      var rpki := routing.value["rpki"].fields;
      if "overall" in rpki { PrintsTrimmedIff(lib, rpki["overall"], s); }
    }
  }

  /** A text without an "AS" at its beginning. */
  predicate Unprefixed(t: string, x: string) {
    if |t| >= 2 && t[0] == 'A' && t[1] == 'S' then t == ['A', 'S'] + x else x == t
  }

  lemma PrefixCut(t: string, x: string)
    ensures TrimPrefix(t, "AS") == x <==> Unprefixed(t, x)
  {
    if |t| >= 2 && t[0] == 'A' && t[1] == 'S' {
      assert t[..2] == "AS";
      assert t == ['A', 'S'] + t[2..];
    }
  }

  /** An origin reads as what it prints, without "AS". */
  ghost predicate OriginReads(lib: Lib, v: Json, x: string) {
    exists t :: PrintsTrimmed(lib, v, t) && Unprefixed(t, x)
  }

  /** In the route diff, as that in upper case. */
  ghost predicate UpperOriginReads(lib: Lib, v: Json, x: string) {
    exists t :: PrintsTrimmed(lib, v, t) && Unprefixed(ToUpper(lib, t), x)
  }

  lemma OriginIs(lib: Lib, v: Json, x: string)
    ensures AlertOrigin(lib)(v) == x <==> OriginReads(lib, v, x)
    ensures GraphOrigin(lib)(v) == x <==> UpperOriginReads(lib, v, x)
  {
    var t := TrimSpace(Sprint(lib, v));
    PrintsTrimmedIff(lib, v, t);
    PrefixCut(t, x);
    PrefixCut(ToUpper(lib, t), x);
    forall u | PrintsTrimmed(lib, v, u) ensures u == t { PrintsTrimmedIff(lib, v, u); }
  }

  /** The origins either package lists: those of the list that do not read as empty. */
  lemma OriginsHave(lib: Lib, routing: Option<Document>, x: string)
    ensures var xs := Items(routing, "visible_origins");
            && (x in AlertOrigins(lib, routing) <==>
                  x != "" && exists i :: 0 <= i < |xs| && OriginReads(lib, xs[i], x))
            && (x in GraphOrigins(lib, routing) <==>
                  x != "" && exists i :: 0 <= i < |xs| && UpperOriginReads(lib, xs[i], x))
  {
    var xs := Items(routing, "visible_origins");
    CollectedHas(AlertOrigin(lib), xs, x);
    CollectedHas(GraphOrigin(lib), xs, x);
    SortedHas(Collected(AlertOrigin(lib), xs), x);
    SortedHas(Collected(GraphOrigin(lib), xs), x);
    forall i | 0 <= i < |xs|
      ensures AlertOrigin(lib)(xs[i]) == x <==> OriginReads(lib, xs[i], x)
      ensures GraphOrigin(lib)(xs[i]) == x <==> UpperOriginReads(lib, xs[i], x)
    {
      OriginIs(lib, xs[i], x);
    }
  }

  lemma AsPathsHave(lib: Lib, routing: Option<Document>, x: string)
    ensures var xs := Items(routing, "as_paths");
            x in AsPaths(lib, routing) <==> x != "" && exists i :: 0 <= i < |xs| && PrintsTrimmed(lib, xs[i], x)
  {
    var xs := Items(routing, "as_paths");
    CollectedHas(PathItem(lib), xs, x);
    SortedHas(Collected(PathItem(lib), xs), x);
    forall i | 0 <= i < |xs| ensures PathItem(lib)(xs[i]) == x <==> PrintsTrimmed(lib, xs[i], x) {
      PrintsTrimmedIff(lib, xs[i], x);
    }
  }

  /** The hop is an object that has not timed out. */
  predicate DidAnswer(hop: Json) {
    hop.Obj? && !("timeout" in hop.fields && hop.fields["timeout"] == Bool(true))
  }

  /** `ips` are the addresses of the hops that answered and have one, in order, each read as `shows` says. */
  ghost predicate AnsweredWith(hops: seq<Json>, ips: seq<string>, at: seq<nat>,
                               shows: (Document, string) -> bool) {
    && Rising(at, |hops|) && |at| == |ips|
    && (forall i :: 0 <= i < |at| ==>
          hops[at[i]].Obj? && DidAnswer(hops[at[i]]) && ips[i] != "" && shows(hops[at[i]].fields, ips[i]))
    && forall k :: 0 <= k < |hops| && hops[k].Obj? && DidAnswer(hops[k]) && !shows(hops[k].fields, "") ==> k in at
  }

  ghost function AlertReads(lib: Lib): (Document, string) -> bool {
    (d: Document, s: string) => FieldReads(lib, Some(d), "ip", s)
  }

  ghost function GraphReads(lib: Lib): (Document, string) -> bool {
    (d: Document, s: string) => PropReads(lib, d, "ip", s)
  }

  lemma AlertIpsAre(lib: Lib, raw: Document) returns (at: seq<nat>)
    ensures AnsweredWith(Items(Section(raw, "traceroute"), "hops"), AlertIps(lib, raw), at, AlertReads(lib))
  {
    var hops := Items(Section(raw, "traceroute"), "hops");
    at := CollectedAre(AlertIp(lib), hops);
    forall k, s | 0 <= k < |hops| && DidAnswer(hops[k])
      ensures AlertIp(lib)(hops[k]) == s <==> AlertReads(lib)(hops[k].fields, s)
    {
      StringValIs(lib, Some(hops[k].fields), "ip", s);
    }
  }

  lemma GraphIpsAre(lib: Lib, raw: Document) returns (at: seq<nat>)
    ensures AnsweredWith(Items(Section(raw, "traceroute"), "hops"), GraphIps(lib, raw), at, GraphReads(lib))
  {
    var hops := Items(Section(raw, "traceroute"), "hops");
    at := CollectedAre(GraphIp(lib), hops);
    forall k, s | 0 <= k < |hops| && DidAnswer(hops[k])
      ensures GraphIp(lib)(hops[k]) == s <==> GraphReads(lib)(hops[k].fields, s)
    {
      StringPropIs(lib, hops[k].fields, "ip", s);
    }
  }

  /** The validity of a ROA, in lower case. */
  ghost predicate ValidityReads(lib: Lib, roa: Json, validity: string) {
    roa.Obj? && exists s :: PropReads(lib, roa.fields, "validity", s) && ToLower(lib, s) == validity
  }

  /** Some ROA among the RPKI data of the route has the validity. */
  ghost predicate SomeRoa(lib: Lib, routing: Option<Document>, validity: string) {
    && routing.Some? && "rpki" in routing.value && routing.value["rpki"].Obj?
    && var roas := Items(Some(routing.value["rpki"].fields), "validating_roas");
       exists i :: 0 <= i < |roas| && ValidityReads(lib, roas[i], validity)
  }

  /** Invalid if any ROA is, otherwise valid if any is, otherwise nothing. */
  lemma OverallIs(lib: Lib, routing: Option<Document>)
    ensures Rpki.Overall(lib, routing) ==
            if SomeRoa(lib, routing, "invalid") then "invalid"
            else if SomeRoa(lib, routing, "valid") then "valid" else ""
  {
    RoaIff(lib, routing, "invalid");
    RoaIff(lib, routing, "valid");
  }

  lemma RoaIff(lib: Lib, routing: Option<Document>, validity: string)
    requires validity != ""
    ensures SomeRoa(lib, routing, validity) <==>
            routing.Some? && Rpki.AnyRoa(lib, Rpki.Roas(routing.value), validity)
  {
    if routing.Some? {
      RoasIff(lib, Rpki.Roas(routing.value), validity);
      RoasAre(routing.value);
    }
  }

  lemma RoasAre(routing: Document)
    ensures Rpki.Roas(routing) ==
            if "rpki" in routing && routing["rpki"].Obj?
            then Items(Some(routing["rpki"].fields), "validating_roas") else []
  {
  }

  lemma RoasIff(lib: Lib, roas: seq<Json>, validity: string)
    requires validity != ""
    ensures Rpki.AnyRoa(lib, roas, validity) <==> exists i :: 0 <= i < |roas| && ValidityReads(lib, roas[i], validity)
  {
    forall i | 0 <= i < |roas|
      ensures Rpki.Validity(lib, roas[i]) == validity <==> ValidityReads(lib, roas[i], validity)
    {
      ValidityIs(lib, roas[i], validity);
    }
  }

  lemma ValidityIs(lib: Lib, roa: Json, validity: string)
    requires validity != ""
    ensures Rpki.Validity(lib, roa) == validity <==> ValidityReads(lib, roa, validity)
  {
    if roa.Obj? {
      var t := StringProp(lib, roa.fields, "validity");
      StringPropIs(lib, roa.fields, "validity", t);
      forall s | PropReads(lib, roa.fields, "validity", s) ensures s == t {
        StringPropIs(lib, roa.fields, "validity", s);
      }
    }
  }

  // ---- Mail and DNS ----

  /** Grades: A before B before C before D before everything else, whatever their case. */
  lemma GradesAre(lib: Lib, grade: string)
    ensures var g := ToUpper(lib, TrimSpace(grade));
            && (GradeRank(lib, grade) == 5 <==> g == "A") && (GradeRank(lib, grade) == 4 <==> g == "B")
            && (GradeRank(lib, grade) == 3 <==> g == "C") && (GradeRank(lib, grade) == 2 <==> g == "D")
            && 1 <= GradeRank(lib, grade) <= 5
  {
  }

  /** A small letter also stands for its capital. */
  lemma EqualFoldIs(s: string, word: string)
    requires forall i :: 0 <= i < |word| ==> 'a' <= word[i] <= 'z'
    ensures EqualFold(s, word) <==>
            |s| == |word| && forall i :: 0 <= i < |s| ==>
              s[i] as int == word[i] as int || s[i] as int + 32 == word[i] as int
  {
    if |s| == |word| {
      forall i | 0 <= i < |s|
        ensures (s[i] == word[i] || ('A' <= s[i] <= 'Z' && s[i] + 32 as char == word[i])) <==>
                (s[i] as int == word[i] as int || s[i] as int + 32 == word[i] as int)
      {
      }
    }
  }

  /** A CAA record is its text, or its tag and value. */
  lemma CaaRecordsHave(lib: Lib, dns: Option<Document>, x: string)
    ensures x in CaaRecords(lib, dns) <==>
            exists i :: 0 <= i < |Items(dns, "CAA")| && Items(dns, "CAA")[i].Obj?
              && var d := Some(Items(dns, "CAA")[i].fields);
                 if FieldReads(lib, d, "record", "")
                 then exists tag, value ::
                   FieldReads(lib, d, "tag", tag) && FieldReads(lib, d, "value", value) && x == tag + " " + value
                 else FieldReads(lib, d, "record", x)
  {
    var xs := Items(dns, "CAA");
    CollectedHas(CaaItem(lib), xs, x);
    forall i | 0 <= i < |xs| && xs[i].Obj?
      ensures CaaItem(lib)(xs[i]) == x <==> RecordReads(lib, xs[i].fields, x)
      ensures CaaItem(lib)(xs[i]) != ""
    {
      RecordIs(lib, xs[i].fields, x);
    }
  }

  ghost predicate RecordReads(lib: Lib, m: Document, x: string) {
    if FieldReads(lib, Some(m), "record", "")
    then exists tag, value ::
      FieldReads(lib, Some(m), "tag", tag) && FieldReads(lib, Some(m), "value", value) && x == tag + " " + value
    else FieldReads(lib, Some(m), "record", x)
  }

  lemma RecordIs(lib: Lib, m: Document, x: string)
    ensures CaaItem(lib)(Obj(m)) == x <==> RecordReads(lib, m, x)
    ensures CaaItem(lib)(Obj(m)) != ""
  {
    var tag, value := StringVal(lib, Some(m), "tag"), StringVal(lib, Some(m), "value");
    StringValIs(lib, Some(m), "record", "");
    StringValIs(lib, Some(m), "record", x);
    StringValIs(lib, Some(m), "tag", tag);
    StringValIs(lib, Some(m), "value", value);
    forall t | FieldReads(lib, Some(m), "tag", t) ensures t == tag { StringValIs(lib, Some(m), "tag", t); }
    forall v | FieldReads(lib, Some(m), "value", v) ensures v == value { StringValIs(lib, Some(m), "value", v); }
    assert |tag + " " + value| > 0;
  }
}
