/** Every entry a comparison can report, with its kind, its severity, its field and the values it names, said on the two
    scans; and that exactly these are reported. */
module DiffReport {
  import opened Common
  import Sorting
  import opened Json
  import opened Values
  import opened SetDiff
  import opened DiffEntries
  import opened Routes
  import opened FieldDiffs
  import opened ListDiffs
  import opened SectionDiffs
  import opened DiffCompute
  import opened DiffSilence

  /** A value that is new and not empty, reported with the old one before it. */
  predicate Changed(e: Entry, kind: string, severity: Severity, field: string, before: string, now: string) {
    now != "" && now != before && e == Entry(kind, severity, field, [before, now], "")
  }

  /** The same, but only from a known value. */
  predicate Moved(e: Entry, kind: string, severity: Severity, field: string, before: string, now: string) {
    before != "" && Changed(e, kind, severity, field, before, now)
  }

  /** A number that went from one positive value to another. */
  predicate Renumbered(e: Entry, kind: string, field: string, before: int, now: int) {
    before > 0 && now > 0 && now != before && e == Entry(kind, Info, field, [Decimal(before), Decimal(now)], "")
  }

  // ---- Certificates ----

  predicate TlsSays(lib: Lib, previous: Document, current: Document, e: Entry) {
    var p, c := Section(previous, "tls"), Section(current, "tls");
    c.Some? && (TlsFieldSays(lib, p, c, e) || ExpirySays(p, c, e) || StaplingSays(p, c, e))
  }

  predicate TlsFieldSays(lib: Lib, p: Option<Document>, c: Option<Document>, e: Entry) {
    || Moved(e, "tls_issuer", Warning, "tls.issuer", StringVal(lib, p, "issuer"), StringVal(lib, c, "issuer"))
    || Moved(e, "tls_serial", Warning, "tls.serial", StringVal(lib, p, "serial"), StringVal(lib, c, "serial"))
    || Changed(e, "tls_version", Info, "tls.tls_version", StringVal(lib, p, "tls_version"),
               StringVal(lib, c, "tls_version"))
    || Changed(e, "tls_cipher", Info, "tls.negotiated_cipher", StringVal(lib, p, "negotiated_cipher"),
               StringVal(lib, c, "negotiated_cipher"))
    || Changed(e, "tls_ja3s", Warning, "tls.ja3s", StringVal(lib, p, "ja3s"), StringVal(lib, c, "ja3s"))
  }

  /** Fewer days left than before, or days left where they were unknown: critical within a week, worth a warning within
      thirty days. */
  predicate ExpirySays(p: Option<Document>, c: Option<Document>, e: Entry) {
    var before, now := IntVal(p, "days_remaining"), IntVal(c, "days_remaining");
    || (now >= 0 && (before < 0 || now < before)
        && e.kind == "cert_expiry" && e.field == "tls.days_remaining" && e.about == [Decimal(now)]
        && e.detail == "was " + Decimal(before) + " days"
        && (e.severity == Critical <==> now <= 7) && (e.severity == Info <==> now > 30))
    || (BoolVal(c, "expired") && !BoolVal(p, "expired") && e == Entry("cert_expired", Critical, "tls.expired", [], ""))
  }

  predicate StaplingSays(p: Option<Document>, c: Option<Document>, e: Entry) {
    var before, now := BoolVal(p, "ocsp_stapled"), BoolVal(c, "ocsp_stapled");
    || (now && !before && e == Entry("tls_ocsp_stapling", Info, "tls.ocsp_stapled", ["enabled"], ""))
    || (before && !now && e == Entry("tls_ocsp_stapling", Warning, "tls.ocsp_stapled", ["disabled"], ""))
  }

  lemma TlsExact(lib: Lib, previous: Document, current: Document, e: Entry)
    ensures e in DiffTls(lib, previous, current) <==> TlsSays(lib, previous, current, e)
  {
    var p, c := Section(previous, "tls"), Section(current, "tls");
    if c.Some? {
      ExtendedExact(lib, p, c, e);
      CertificateExact(lib, p, c, e);
      InThree(CertificateEntries(lib, p, c), DiffTlsExtended(lib, p, c),
              ValueChange("tls_ja3s", Warning, "tls.ja3s", StringVal(lib, p, "ja3s"), StringVal(lib, c, "ja3s")), e);
      TlsParts(lib, previous, current);
    }
  }

  /** Issuer and expiry. */
  function CertificateEntries(lib: Lib, p: Option<Document>, c: Option<Document>): seq<Entry> {
    var before, now := StringVal(lib, p, "issuer"), StringVal(lib, c, "issuer");
    var days, daysNow := IntVal(p, "days_remaining"), IntVal(c, "days_remaining");
    When(before != "" && Became(before, now), Entry("tls_issuer", Warning, "tls.issuer", [before, now], ""))
    + When(daysNow >= 0 && (days < 0 || daysNow < days),
           Entry("cert_expiry", ExpirySeverity(daysNow), "tls.days_remaining", [Decimal(daysNow)],
                 "was " + Decimal(days) + " days"))
    + When(BoolVal(c, "expired") && !BoolVal(p, "expired"), Entry("cert_expired", Critical, "tls.expired", [], ""))
  }

  lemma TlsParts(lib: Lib, previous: Document, current: Document)
    requires Section(current, "tls").Some?
    ensures var p, c := Section(previous, "tls"), Section(current, "tls");
            DiffTls(lib, previous, current)
            == CertificateEntries(lib, p, c) + DiffTlsExtended(lib, p, c)
               + ValueChange("tls_ja3s", Warning, "tls.ja3s", StringVal(lib, p, "ja3s"), StringVal(lib, c, "ja3s"))
  {
  }

  lemma CertificateExact(lib: Lib, p: Option<Document>, c: Option<Document>, e: Entry)
    ensures e in CertificateEntries(lib, p, c) <==>
            || Moved(e, "tls_issuer", Warning, "tls.issuer", StringVal(lib, p, "issuer"), StringVal(lib, c, "issuer"))
            || ExpirySays(p, c, e)
  {
  }

  lemma ExtendedExact(lib: Lib, p: Option<Document>, c: Option<Document>, e: Entry)
    ensures e in DiffTlsExtended(lib, p, c) <==>
            || Moved(e, "tls_serial", Warning, "tls.serial", StringVal(lib, p, "serial"), StringVal(lib, c, "serial"))
            || Changed(e, "tls_version", Info, "tls.tls_version", StringVal(lib, p, "tls_version"),
                       StringVal(lib, c, "tls_version"))
            || Changed(e, "tls_cipher", Info, "tls.negotiated_cipher", StringVal(lib, p, "negotiated_cipher"),
                       StringVal(lib, c, "negotiated_cipher"))
            || StaplingSays(p, c, e)
  {
  }

  // ---- The origin network ----

  predicate BgpSays(lib: Lib, previous: Document, current: Document, e: Entry) {
    var p, c := Section(previous, "asn"), Section(current, "asn");
    if c.None? then p.Some? && p.value != map[] && e == Entry("removed", Info, "asn", [], "")
    else OriginSays(StringVal(lib, p, "asn"), StringVal(lib, c, "asn"), e)
         || RoutingSays(lib, Sub(p, "routing"), Sub(c, "routing"), e)
  }

  /** A first origin is added, another one is critical. */
  predicate OriginSays(before: string, now: string, e: Entry) {
    || (before == "" && now != "" && e == Entry("added", Info, "asn", [], "AS" + now))
    || Moved(e, "bgp_origin", Critical, "asn.asn", before, now)
  }

  predicate RoutingSays(lib: Lib, p: Option<Document>, c: Option<Document>, e: Entry) {
    var risk := StringVal(lib, c, "hijack_risk");
    var before := StringVal(lib, Sub(p, "path_profile"), "stability");
    var now := StringVal(lib, Sub(c, "path_profile"), "stability");
    || Changed(e, "bgp_hijack_risk",
               if EqualFold(risk, "high") || EqualFold(risk, "critical") then Critical else Warning,
               "asn.routing.hijack_risk", StringVal(lib, p, "hijack_risk"), risk)
    || Changed(e, "bgp_path_stability", if now == "volatile" || before == "stable" then Warning else Info,
               "asn.routing.path_profile.stability", before, now)
  }

  lemma BgpExact(lib: Lib, previous: Document, current: Document, e: Entry)
    ensures e in DiffBgp(lib, previous, current) <==> BgpSays(lib, previous, current, e)
  {
  }

  // ---- Routes ----

  /** Names that came and names that went, each in an entry of its own. */
  predicate NamesSay(before: set<string>, now: set<string>, e: Entry, added: string, gained: Severity, removed: string,
                     lost: Severity, field: string) {
    || (exists x :: x in now && x !in before && e == Entry(added, gained, field, [x], x))
    || (exists x :: x in before && x !in now && e == Entry(removed, lost, field, [x], x))
  }

  /** The verdict, the origins and the paths while there is routing; new paths are worth a warning only if others
      went. */
  predicate BgpDriftSays(lib: Lib, previous: Document, current: Document, e: Entry) {
    var p, c := Routing(previous), Routing(current);
    var before, now := Elements(AsPaths(lib, p)), Elements(AsPaths(lib, c));
    c.Some? &&
    (|| Changed(e, "graph_rpki_changed", Warning, "asn.routing.rpki", AlertRpki(lib, p), AlertRpki(lib, c))
     || NamesSay(Elements(AlertOrigins(lib, p)), Elements(AlertOrigins(lib, c)), e, "graph_bgp_origin_added", Warning,
                 "graph_bgp_origin_removed", Warning, "asn.routing.visible_origins")
     || NamesSay(before, now, e, "graph_as_path_added", if before <= now then Info else Warning,
                 "graph_as_path_removed", Warning, "asn.routing.as_paths"))
  }

  /** The answering hops that came and went, or the mark that only their order is another. */
  predicate TracerouteSays(lib: Lib, previous: Document, current: Document, e: Entry) {
    var before, now := AlertIps(lib, previous), AlertIps(lib, current);
    || NamesSay(Elements(before), Elements(now), e, "graph_traceroute_hop_added", Info,
                "graph_traceroute_hop_removed", Warning, "traceroute.hops")
    || (before != now && Elements(before) == Elements(now)
        && e == Entry("graph_traceroute_reordered", Warning, "traceroute.hops", [], ""))
  }

  lemma SetChangesHave(before: set<string>, now: set<string>, f: string -> Entry, g: string -> Entry, e: Entry)
    ensures e in SetChanges(before, now, f, g) <==>
            (exists x :: x in now && x !in before && e == f(x)) || (exists x :: x in before && x !in now && e == g(x))
  {
    EachOf(now - before, f, e);
    EachOf(before - now, g, e);
  }

  lemma EachOf(s: set<string>, f: string -> Entry, e: Entry)
    ensures e in Each(f, Sorting.Listing(s)) <==> exists x :: x in s && e == f(x)
  {
    Sorting.ListsElements(Sorting.Listing(s), s);
    EachHas(f, Sorting.Listing(s), e);
  }

  lemma OriginsSay(before: set<string>, now: set<string>, e: Entry)
    ensures e in SetChanges(before, now, OriginAdded, OriginRemoved) <==>
            NamesSay(before, now, e, "graph_bgp_origin_added", Warning, "graph_bgp_origin_removed", Warning,
                     "asn.routing.visible_origins")
  {
    SetChangesHave(before, now, OriginAdded, OriginRemoved, e);
  }

  lemma PathsSay(before: set<string>, now: set<string>, e: Entry)
    ensures e in SetChanges(before, now, PathAdded(now - before != {} && before - now != {}), PathRemoved) <==>
            NamesSay(before, now, e, "graph_as_path_added", if before <= now then Info else Warning,
                     "graph_as_path_removed", Warning, "asn.routing.as_paths")
  {
    var swapped := now - before != {} && before - now != {};
    SetChangesHave(before, now, PathAdded(swapped), PathRemoved, e);
    forall x | x in now && x !in before
      ensures PathAdded(swapped)(x)
          == Entry("graph_as_path_added", if before <= now then Info else Warning, "asn.routing.as_paths", [x], x)
    {
      assert x in now - before;
      WentIff(before, now);
    }
  }

  lemma WentIff(before: set<string>, now: set<string>)
    ensures before - now == {} <==> before <= now
  {
    forall x | x in before && x !in now ensures before - now != {} {
      assert x in before - now;
    }
  }

  lemma HopsSay(before: set<string>, now: set<string>, e: Entry)
    ensures e in SetChanges(before, now, HopAdded, HopRemoved) <==>
            NamesSay(before, now, e, "graph_traceroute_hop_added", Info, "graph_traceroute_hop_removed", Warning,
                     "traceroute.hops")
  {
    SetChangesHave(before, now, HopAdded, HopRemoved, e);
  }

  lemma CaaSay(before: set<string>, now: set<string>, e: Entry)
    ensures e in SetChanges(before, now, CaaAdded, CaaRemoved) <==>
            NamesSay(before, now, e, "caa_added", Info, "caa_removed", Info, "dns.CAA")
  {
    SetChangesHave(before, now, CaaAdded, CaaRemoved, e);
  }

  lemma InThree(a: seq<Entry>, b: seq<Entry>, c: seq<Entry>, e: Entry)
    ensures e in a + b + c <==> e in a || e in b || e in c
  {
  }

  lemma BgpDriftIs(lib: Lib, previous: Document, current: Document)
    requires Routing(current).Some?
    ensures var p, c := Routing(previous), Routing(current);
            var before, now := Elements(AsPaths(lib, p)), Elements(AsPaths(lib, c));
            BgpDrift(lib, previous, current)
            == RpkiEntry(AlertRpki(lib, p), AlertRpki(lib, c))
               + SetChanges(Elements(AlertOrigins(lib, p)), Elements(AlertOrigins(lib, c)), OriginAdded, OriginRemoved)
               + SetChanges(before, now, PathAdded(now - before != {} && before - now != {}), PathRemoved)
  {
  }

  lemma RoutesSay(rpki: string, rpkiNow: string, origins: set<string>, originsNow: set<string>, paths: set<string>,
                  pathsNow: set<string>, e: Entry)
    ensures e in RpkiEntry(rpki, rpkiNow) + SetChanges(origins, originsNow, OriginAdded, OriginRemoved)
                 + SetChanges(paths, pathsNow, PathAdded(pathsNow - paths != {} && paths - pathsNow != {}), PathRemoved)
            <==>
            || Changed(e, "graph_rpki_changed", Warning, "asn.routing.rpki", rpki, rpkiNow)
            || NamesSay(origins, originsNow, e, "graph_bgp_origin_added", Warning, "graph_bgp_origin_removed", Warning,
                        "asn.routing.visible_origins")
            || NamesSay(paths, pathsNow, e, "graph_as_path_added", if paths <= pathsNow then Info else Warning,
                        "graph_as_path_removed", Warning, "asn.routing.as_paths")
  {
    OriginsSay(origins, originsNow, e);
    PathsSay(paths, pathsNow, e);
    InThree(RpkiEntry(rpki, rpkiNow), SetChanges(origins, originsNow, OriginAdded, OriginRemoved),
            SetChanges(paths, pathsNow, PathAdded(pathsNow - paths != {} && paths - pathsNow != {}), PathRemoved), e);
  }

  lemma BgpDriftExact(lib: Lib, previous: Document, current: Document, e: Entry)
    ensures e in BgpDrift(lib, previous, current) <==> BgpDriftSays(lib, previous, current, e)
  {
    var p, c := Routing(previous), Routing(current);
    if c.Some? {
      BgpDriftIs(lib, previous, current);
      RoutesSay(AlertRpki(lib, p), AlertRpki(lib, c), Elements(AlertOrigins(lib, p)), Elements(AlertOrigins(lib, c)),
                Elements(AsPaths(lib, p)), Elements(AsPaths(lib, c)), e);
    }
  }

  lemma TracerouteExact(lib: Lib, previous: Document, current: Document, e: Entry)
    ensures e in TracerouteDrift(lib, previous, current) <==> TracerouteSays(lib, previous, current, e)
  {
    HopDriftSays(AlertIps(lib, previous), AlertIps(lib, current), e);
  }

  lemma HopDriftSays(before: seq<string>, now: seq<string>, e: Entry)
    ensures e in HopDrift(before, now) <==>
            || NamesSay(Elements(before), Elements(now), e, "graph_traceroute_hop_added", Info,
                        "graph_traceroute_hop_removed", Warning, "traceroute.hops")
            || (before != now && Elements(before) == Elements(now)
                && e == Entry("graph_traceroute_reordered", Warning, "traceroute.hops", [], ""))
  {
    HopsSay(Elements(before), Elements(now), e);
    if Elements(before) == Elements(now) {
      assert !NamesSay(Elements(before), Elements(now), e, "graph_traceroute_hop_added", Info,
                       "graph_traceroute_hop_removed", Warning, "traceroute.hops");
    }
  }

  // ---- Names in certificate transparency ----

  ghost predicate CtSays(lib: Lib, previous: Document, current: Document, e: Entry) {
    var p, c := Section(previous, "ct"), Section(current, "ct");
    c.Some? &&
    (|| (exists x :: x in Strings(c, "subdomains") && x !in Strings(p, "subdomains")
                     && e == Entry("new_ct_subdomain", Info, "ct.subdomains", [x], x))
     || (exists cert :: cert in Objects(Items(c, "certificates")) && CertificateSays(lib, p, cert, e)))
  }

  ghost predicate CertificateSays(lib: Lib, p: Option<Document>, cert: Document, e: Entry) {
    var serial := StringVal(lib, Some(cert), "serial");
    && serial != "" && !Certified(lib, p, serial)
    && e == Entry("new_ct_certificate", Info, "ct.certificates", [StringVal(lib, Some(cert), "issuer"), serial], serial)
  }

  lemma CtExact(lib: Lib, previous: Document, current: Document, e: Entry)
    ensures e in Ct(lib, previous, current) <==> CtSays(lib, previous, current, e)
  {
    var p, c := Section(previous, "ct"), Section(current, "ct");
    NewNamesIff(Strings(p, "subdomains"), Strings(c, "subdomains"), NewSubdomain, e);
    CertificatesExact(lib, p, c, e);
    CertificatesSay(lib, p, c, e);
  }

  lemma CertificatesSay(lib: Lib, p: Option<Document>, c: Option<Document>, e: Entry)
    ensures (exists cert :: cert in Objects(Items(c, "certificates")) && CertificateSays(lib, p, cert, e)) <==>
            exists cert :: cert in Objects(Items(c, "certificates")) && e == NewCertificate(lib, cert)
              && StringVal(lib, Some(cert), "serial") != "" && !Certified(lib, p, StringVal(lib, Some(cert), "serial"))
  {
    if cert :| cert in Objects(Items(c, "certificates")) && CertificateSays(lib, p, cert, e) {
      assert e == NewCertificate(lib, cert);
    }
    forall cert | cert in Objects(Items(c, "certificates")) && e == NewCertificate(lib, cert)
        && StringVal(lib, Some(cert), "serial") != "" && !Certified(lib, p, StringVal(lib, Some(cert), "serial"))
      ensures CertificateSays(lib, p, cert, e)
    {
    }
  }

  // ---- Mail ----

  /** The grades from A to D, any other below them. */
  predicate Worse(lib: Lib, now: string, before: string) {
    GradeRank(lib, now) < GradeRank(lib, before)
  }

  predicate MailSays(lib: Lib, previous: Document, current: Document, e: Entry) {
    var p, c := Section(previous, "dns"), Section(current, "dns");
    || Changed(e, "dmarc_policy", Warning, "dns.dmarc.policy", StringVal(lib, Sub(p, "DMARC_PARSED"), "policy"),
               StringVal(lib, Sub(c, "DMARC_PARSED"), "policy"))
    || PostureSays(lib, Sub(p, "MAIL_POSTURE"), Sub(c, "MAIL_POSTURE"), e)
  }

  predicate PostureSays(lib: Lib, p: Option<Document>, c: Option<Document>, e: Entry) {
    var before, now := StringVal(lib, p, "grade"), StringVal(lib, c, "grade");
    && now != "" && now != before && e.kind == "mail_posture" && e.field == "dns.mail_posture.grade"
    && e.severity == (if Worse(lib, now, before) then Warning else Info) && e.about == [before, now]
    && e.detail == "score " + Decimal(IntVal(p, "score")) + " → " + Decimal(IntVal(c, "score"))
  }

  lemma MailExact(lib: Lib, previous: Document, current: Document, e: Entry)
    ensures e in DiffDmarc(lib, previous, current) + DiffMailPosture(lib, previous, current) <==>
            MailSays(lib, previous, current, e)
  {
  }

  // ---- DNS ----

  predicate DnsSays(lib: Lib, previous: Document, current: Document, e: Entry) {
    var p, c := Section(previous, "dns"), Section(current, "dns");
    c.Some? &&
    (|| NamesSay(CaaRecords(lib, p), CaaRecords(lib, c), e, "caa_added", Info, "caa_removed", Info, "dns.CAA")
     || DnssecSays(Lowered(lib, Sub(p, "DNSSEC"), "status"), Lowered(lib, Sub(c, "DNSSEC"), "status"), e)
     || MtaStsSays(Lowered(lib, Sub(p, "MTA_STS"), "mode"), Lowered(lib, Sub(c, "MTA_STS"), "mode"), e)
     || TlsRptSays(StringVal(lib, Sub(p, "TLS_RPT"), "rua"), StringVal(lib, Sub(c, "TLS_RPT"), "rua"), e)
     || BimiSays(StringVal(lib, Sub(p, "BIMI"), "record"), StringVal(lib, Sub(c, "BIMI"), "record"), e)
     || Changed(e, "dns_ptr", Info, "dns.PTR", StringVal(lib, p, "PTR"), StringVal(lib, c, "PTR")))
  }

  predicate DnssecSays(before: string, now: string, e: Entry) {
    Changed(e, "dnssec_status", if before == "signed" && now == "unsigned" then Warning else Info, "dns.DNSSEC.status",
            before, now)
  }

  predicate MtaStsSays(before: string, now: string, e: Entry) {
    || (before == "" && now != "" && e == Entry("mta_sts_added", Info, "dns.MTA_STS.mode", [now], ""))
    || Moved(e, "mta_sts_mode", if before == "enforce" then Warning else Info, "dns.MTA_STS.mode", before, now)
  }

  predicate TlsRptSays(before: string, now: string, e: Entry) {
    || (before == "" && now != "" && e == Entry("tls_rpt_added", Info, "dns.TLS_RPT", [now], ""))
    || (before != "" && now == "" && e == Entry("tls_rpt_removed", Info, "dns.TLS_RPT", [], ""))
    || Moved(e, "tls_rpt_changed", Info, "dns.TLS_RPT.rua", before, now)
  }

  predicate BimiSays(before: string, now: string, e: Entry) {
    || (before == "" && now != "" && e == Entry("bimi_added", Info, "dns.BIMI", [], ""))
    || (before != "" && now == "" && e == Entry("bimi_removed", Info, "dns.BIMI", [], ""))
    || (before != "" && now != "" && now != before && e == Entry("bimi_changed", Info, "dns.BIMI.record", [], ""))
  }

  lemma DnsExact(lib: Lib, previous: Document, current: Document, e: Entry)
    ensures e in DnsIntel(lib, previous, current) <==> DnsSays(lib, previous, current, e)
  {
    var p, c := Section(previous, "dns"), Section(current, "dns");
    CaaSay(CaaRecords(lib, p), CaaRecords(lib, c), e);
    DnsFieldsExact(lib, p, c, e);
  }

  lemma DnsFieldsExact(lib: Lib, p: Option<Document>, c: Option<Document>, e: Entry)
    ensures e in DnsFields(lib, p, c) <==>
            || DnssecSays(Lowered(lib, Sub(p, "DNSSEC"), "status"), Lowered(lib, Sub(c, "DNSSEC"), "status"), e)
            || MtaStsSays(Lowered(lib, Sub(p, "MTA_STS"), "mode"), Lowered(lib, Sub(c, "MTA_STS"), "mode"), e)
            || TlsRptSays(StringVal(lib, Sub(p, "TLS_RPT"), "rua"), StringVal(lib, Sub(c, "TLS_RPT"), "rua"), e)
            || BimiSays(StringVal(lib, Sub(p, "BIMI"), "record"), StringVal(lib, Sub(c, "BIMI"), "record"), e)
            || Changed(e, "dns_ptr", Info, "dns.PTR", StringVal(lib, p, "PTR"), StringVal(lib, c, "PTR"))
  {
    DnssecExact(Lowered(lib, Sub(p, "DNSSEC"), "status"), Lowered(lib, Sub(c, "DNSSEC"), "status"), e);
    MtaStsExact(Lowered(lib, Sub(p, "MTA_STS"), "mode"), Lowered(lib, Sub(c, "MTA_STS"), "mode"), e);
    PublishedExact(StringVal(lib, Sub(p, "TLS_RPT"), "rua"), StringVal(lib, Sub(c, "TLS_RPT"), "rua"), e);
    PublishedExact(StringVal(lib, Sub(p, "BIMI"), "record"), StringVal(lib, Sub(c, "BIMI"), "record"), e);
  }

  lemma DnssecExact(before: string, now: string, e: Entry)
    ensures e in DiffDnssec(before, now) <==> DnssecSays(before, now, e)
  {
  }

  lemma MtaStsExact(before: string, now: string, e: Entry)
    ensures e in DiffMtaSts(before, now) <==> MtaStsSays(before, now, e)
  {
  }

  lemma PublishedExact(before: string, now: string, e: Entry)
    ensures e in DiffTlsRpt(before, now) <==> TlsRptSays(before, now, e)
    ensures e in DiffBimi(before, now) <==> BimiSays(before, now, e)
  {
  }

  // ---- Zone data ----

  predicate SoaSays(lib: Lib, previous: Document, current: Document, e: Entry) {
    var p, c := Sub(Section(previous, "dns"), "SOA"), Sub(Section(current, "dns"), "SOA");
    c.Some? &&
    (|| Changed(e, "soa_mname", Warning, "dns.soa.mname", StringVal(lib, p, "mname"), StringVal(lib, c, "mname"))
     || Changed(e, "soa_rname", Info, "dns.soa.rname", StringVal(lib, p, "rname"), StringVal(lib, c, "rname"))
     || Renumbered(e, "soa_serial", "dns.soa.serial", IntVal(p, "serial"), IntVal(c, "serial"))
     || Renumbered(e, "soa_refresh", "dns.soa.refresh", IntVal(p, "refresh"), IntVal(c, "refresh"))
     || Renumbered(e, "soa_retry", "dns.soa.retry", IntVal(p, "retry"), IntVal(c, "retry"))
     || Renumbered(e, "soa_expire", "dns.soa.expire", IntVal(p, "expire"), IntVal(c, "expire"))
     || Renumbered(e, "soa_minimum_ttl", "dns.soa.minimum_ttl", IntVal(p, "minimum_ttl"), IntVal(c, "minimum_ttl")))
  }

  lemma SoaExact(lib: Lib, previous: Document, current: Document, e: Entry)
    ensures e in SoaSpec(lib, previous, current) <==> SoaSays(lib, previous, current, e)
  {
    var p, c := Sub(Section(previous, "dns"), "SOA"), Sub(Section(current, "dns"), "SOA");
    TimersSay(p, c, e);
  }

  lemma TimersSay(p: Option<Document>, c: Option<Document>, e: Entry)
    ensures e in TimerChanges(p, c, TIMERS) <==>
            || Renumbered(e, "soa_refresh", "dns.soa.refresh", IntVal(p, "refresh"), IntVal(c, "refresh"))
            || Renumbered(e, "soa_retry", "dns.soa.retry", IntVal(p, "retry"), IntVal(c, "retry"))
            || Renumbered(e, "soa_expire", "dns.soa.expire", IntVal(p, "expire"), IntVal(c, "expire"))
            || Renumbered(e, "soa_minimum_ttl", "dns.soa.minimum_ttl", IntVal(p, "minimum_ttl"),
                          IntVal(c, "minimum_ttl"))
  {
    TimersExact(p, c, TIMERS, e);
    FourTimers(p, c, TIMERS, e);
    FirstTimersSay(p, c, e);
    LastTimersSay(p, c, e);
  }

  lemma FirstTimersSay(p: Option<Document>, c: Option<Document>, e: Entry)
    ensures Renumbered(e, "soa_refresh", "dns.soa.refresh", IntVal(p, "refresh"), IntVal(c, "refresh")) <==>
            TimerIs(p, c, "refresh", e)
    ensures Renumbered(e, "soa_retry", "dns.soa.retry", IntVal(p, "retry"), IntVal(c, "retry")) <==>
            TimerIs(p, c, "retry", e)
  {
    TimerSays(p, c, "refresh", "soa_refresh", "dns.soa.refresh", e);
    TimerSays(p, c, "retry", "soa_retry", "dns.soa.retry", e);
  }

  lemma LastTimersSay(p: Option<Document>, c: Option<Document>, e: Entry)
    ensures Renumbered(e, "soa_expire", "dns.soa.expire", IntVal(p, "expire"), IntVal(c, "expire")) <==>
            TimerIs(p, c, "expire", e)
    ensures Renumbered(e, "soa_minimum_ttl", "dns.soa.minimum_ttl", IntVal(p, "minimum_ttl"), IntVal(c, "minimum_ttl"))
            <==> TimerIs(p, c, "minimum_ttl", e)
  {
    TimerSays(p, c, "expire", "soa_expire", "dns.soa.expire", e);
    TimerSays(p, c, "minimum_ttl", "soa_minimum_ttl", "dns.soa.minimum_ttl", e);
  }

  predicate TimerIs(p: Option<Document>, c: Option<Document>, k: string, e: Entry) {
    && !NumberQuiet(p, c, k)
    && e == Entry("soa_" + k, Info, "dns.soa." + k, [Decimal(IntVal(p, k)), Decimal(IntVal(c, k))], "")
  }

  lemma FourTimers(p: Option<Document>, c: Option<Document>, ks: seq<string>, e: Entry)
    requires |ks| == 4
    ensures (exists k :: k in ks && !NumberQuiet(p, c, k)
               && e == Entry("soa_" + k, Info, "dns.soa." + k, [Decimal(IntVal(p, k)), Decimal(IntVal(c, k))], ""))
        <==> TimerIs(p, c, ks[0], e) || TimerIs(p, c, ks[1], e) || TimerIs(p, c, ks[2], e) || TimerIs(p, c, ks[3], e)
  {
    forall k | k in ks && TimerIs(p, c, k, e) ensures exists i :: 0 <= i < 4 && TimerIs(p, c, ks[i], e) {
      var i :| 0 <= i < 4 && ks[i] == k;
    }
    forall k
      ensures TimerIs(p, c, k, e) <==>
              (&& !NumberQuiet(p, c, k)
               && e == Entry("soa_" + k, Info, "dns.soa." + k, [Decimal(IntVal(p, k)), Decimal(IntVal(c, k))], ""))
    {
    }
    forall i | 0 <= i < 4 && TimerIs(p, c, ks[i], e)
      ensures exists k :: k in ks && !NumberQuiet(p, c, k)
                && e == Entry("soa_" + k, Info, "dns.soa." + k, [Decimal(IntVal(p, k)), Decimal(IntVal(c, k))], "")
    {
      assert ks[i] in ks;
    }
  }

  lemma TimerSays(p: Option<Document>, c: Option<Document>, k: string, kind: string, field: string, e: Entry)
    requires kind == "soa_" + k && field == "dns.soa." + k
    ensures Renumbered(e, kind, field, IntVal(p, k), IntVal(c, k)) <==>
            TimerIs(p, c, k, e)
  {
  }

  // ---- Crawled files ----

  /** A file that came or went, alone; or a new source of one that was and is there. */
  predicate FileSays(p: Option<Document>, c: Option<Document>, before: string, now: string, e: Entry, added: string,
                     removed: string, changed: string, field: string) {
    || (p.None? && c.Some? && e == Entry(added, Info, field, [], ""))
    || (p.Some? && c.None? && e == Entry(removed, Info, field, [], ""))
    || (p.Some? && c.Some? && Changed(e, changed, Info, field, before, now))
  }

  ghost predicate TxtSays(lib: Lib, p: Option<Document>, c: Option<Document>, e: Entry) {
    || (p.None? && c.Some? && e == Entry("security_txt_added", Info, "crawl.security_txt", [], ""))
    || (p.Some? && c.None? && e == Entry("security_txt_removed", Warning, "crawl.security_txt", [], ""))
    || (p.Some? && c.Some?
        && (|| (exists x :: x in Strings(c, "contacts") && x !in Strings(p, "contacts")
                            && e == Entry("security_contact_added", Info, "crawl.security_txt.contacts", [x], x))
            || Changed(e, "security_txt_expires", Info, "crawl.security_txt.expires", StringVal(lib, p, "expires"),
                       StringVal(lib, c, "expires"))))
  }

  ghost predicate CrawlSays(lib: Lib, previous: Document, current: Document, e: Entry) {
    var p, c := Section(previous, "crawl"), Section(current, "crawl");
    var humans, humansNow := Sub(p, "humans_txt"), Sub(c, "humans_txt");
    var ads, adsNow := Sub(p, "ads_txt"), Sub(c, "ads_txt");
    c.Some? &&
    (|| TxtSays(lib, Sub(p, "security_txt"), Sub(c, "security_txt"), e)
     || FileSays(humans, humansNow, StringVal(lib, humans, "source"), StringVal(lib, humansNow, "source"), e,
                 "humans_txt_added", "humans_txt_removed", "humans_txt_changed", "crawl.humans_txt")
     || FileSays(ads, adsNow, StringVal(lib, ads, "source"), StringVal(lib, adsNow, "source"), e,
                 "ads_txt_added", "ads_txt_removed", "ads_txt_changed", "crawl.ads_txt"))
  }

  lemma TxtExact(lib: Lib, p: Option<Document>, c: Option<Document>, e: Entry)
    ensures e in SecurityTxt(lib, p, c) <==> TxtSays(lib, p, c, e)
  {
    ContactsExact(Strings(p, "contacts"), Strings(c, "contacts"), e);
  }

  lemma FileExact(lib: Lib, p: Option<Document>, c: Option<Document>, key: string, e: Entry, added: string,
                  removed: string, changed: string, field: string)
    requires added == key + "_added" && removed == key + "_removed" && changed == key + "_changed"
    requires field == "crawl." + key
    ensures e in OptionalFile(lib, p, c, key) <==>
            FileSays(p, c, StringVal(lib, p, "source"), StringVal(lib, c, "source"), e, added, removed, changed, field)
  {
  }

  lemma CrawlExact(lib: Lib, previous: Document, current: Document, e: Entry)
    ensures e in Crawl(lib, previous, current) <==> CrawlSays(lib, previous, current, e)
  {
    var p, c := Section(previous, "crawl"), Section(current, "crawl");
    TxtExact(lib, Sub(p, "security_txt"), Sub(c, "security_txt"), e);
    HumansExact(lib, Sub(p, "humans_txt"), Sub(c, "humans_txt"), e);
    AdsExact(lib, Sub(p, "ads_txt"), Sub(c, "ads_txt"), e);
  }

  lemma HumansExact(lib: Lib, p: Option<Document>, c: Option<Document>, e: Entry)
    ensures e in OptionalFile(lib, p, c, "humans_txt") <==>
            FileSays(p, c, StringVal(lib, p, "source"), StringVal(lib, c, "source"), e,
                     "humans_txt_added", "humans_txt_removed", "humans_txt_changed", "crawl.humans_txt")
  {
    FileExact(lib, p, c, "humans_txt", e, "humans_txt_added", "humans_txt_removed", "humans_txt_changed",
              "crawl.humans_txt");
  }

  lemma AdsExact(lib: Lib, p: Option<Document>, c: Option<Document>, e: Entry)
    ensures e in OptionalFile(lib, p, c, "ads_txt") <==>
            FileSays(p, c, StringVal(lib, p, "source"), StringVal(lib, c, "source"), e,
                     "ads_txt_added", "ads_txt_removed", "ads_txt_changed", "crawl.ads_txt")
  {
    FileExact(lib, p, c, "ads_txt", e, "ads_txt_added", "ads_txt_removed", "ads_txt_changed", "crawl.ads_txt");
  }

  // ---- The web section ----

  /** Items that came, went, or have another version, with the versions in the order of time. */
  ghost predicate ItemsSay(before: map<string, string>, now: map<string, string>, e: Entry, added: string,
                           removed: string, version: string, field: string) {
    || (exists x :: x in now && x !in before && e == Entry(added, Info, field, [x, now[x]], ""))
    || (exists x :: x in before && x !in now && e == Entry(removed, Info, field, [x, before[x]], ""))
    || (exists x :: x in before && x in now && before[x] != now[x]
                    && e == Entry(version, Info, field + "." + x, [x, before[x], now[x]], ""))
  }

  /** How a chain of redirects reads: its length without the first page, and the address it ends at. */
  function Redirects(lib: Lib, web: Option<Document>): (nat, string) {
    var chain := Objects(Items(web, "redirect_chain"));
    if chain == [] then (0, "") else (|chain| - 1, StringVal(lib, Some(chain[|chain| - 1]), "url"))
  }

  /** A chain where there was none is added; another change of its length or end is worth a warning if it is longer by
      more than one. */
  predicate RedirectSays(before: (nat, string), now: (nat, string), e: Entry) {
    var (n, end) := now;
    && now != before && now != (0, "")
    && if before.1 == "" && n > 0
       then e == Entry("redirect_chain_added", Info, "web.redirect_chain", [Decimal(n), end], "")
       else e == Entry("redirect_chain_changed", if n > before.0 + 1 then Warning else Info, "web.redirect_chain",
                       [Decimal(n), end, Decimal(before.0), before.1], "")
  }

  /** One watched header, from what was read of it. */
  predicate HeaderSays(before: string, now: string, e: Entry, key: string, kind: string, strict: bool) {
    && now != "" && now != before
    && e == Entry(kind, if strict && before != "" then Warning else Info, "web.security_headers." + key, [], "")
  }

  predicate HeadersSay(before: seq<string>, now: seq<string>, e: Entry)
    requires |before| == |now| == 4
  {
    || HeaderSays(before[0], now[0], e, "content-security-policy", "csp_changed", true)
    || HeaderSays(before[1], now[1], e, "strict-transport-security", "hsts_changed", true)
    || HeaderSays(before[2], now[2], e, "permissions-policy", "permissions_policy_changed", false)
    || HeaderSays(before[3], now[3], e, "referrer-policy", "referrer_policy_changed", false)
  }

  ghost predicate WebSays(lib: Lib, previous: Document, current: Document, k: Picks, e: Entry)
    requires WebPossible(lib, Section(previous, "web"), Section(current, "web"), k)
  {
    var p, c := Section(previous, "web"), Section(current, "web");
    c.Some? && if p.None? then e == Entry("added", Info, "web", [], "") else PageSays(lib, p, c, k, e)
  }

  ghost predicate PageSays(lib: Lib, p: Option<Document>, c: Option<Document>, k: Picks, e: Entry)
    requires WebPossible(lib, p, c, k)
  {
    || Changed(e, "web_title", Info, "web.title", StringVal(lib, p, "title"), StringVal(lib, c, "title"))
    || ItemsSay(PluginsOf(lib, p), PluginsOf(lib, c), e, "wp_plugin_added", "wp_plugin_removed", "wp_plugin_version",
                "web.wordpress_plugins")
    || ItemsSay(ThemesOf(lib, p), ThemesOf(lib, c), e, "wp_theme_added", "wp_theme_removed", "wp_theme_version",
                "web.wordpress_themes")
    || RedirectSays(Redirects(lib, p), Redirects(lib, c), e)
    || Changed(e, "hsts_preload_status", Info, "web.hsts_preload.preload_status",
               Lowered(lib, Sub(p, "hsts_preload"), "preload_status"),
               Lowered(lib, Sub(c, "hsts_preload"), "preload_status"))
    || (exists x :: x in Strings(c, "cookie_names") && x !in Strings(p, "cookie_names")
                    && e == Entry("cookie_name_added", Info, "web.cookie_names", [x], x))
    || (Sub(c, "security_headers").Some? && HeadersSay(k.prevHeaders, k.curHeaders, e))
  }

  lemma RedirectExact(lib: Lib, p: Option<Document>, c: Option<Document>, e: Entry)
    ensures e in DiffRedirects(lib, p, c) <==> RedirectSays(Redirects(lib, p), Redirects(lib, c), e)
  {
    assert Redirects(lib, p) == (HopCount(p), FinalUrl(lib, p)) && Redirects(lib, c) == (HopCount(c), FinalUrl(lib, c));
  }

  lemma {:induction false} HeadersExact(before: seq<string>, now: seq<string>, e: Entry)
    requires |before| == |now| == 4
    ensures e in HeaderEntries(HEADERS, before, now) <==> HeadersSay(before, now, e)
  {
    FourHeaders(HEADERS, before, now, e);
    HeaderIs(HEADERS[0], before[0], now[0], e);
    HeaderIs(HEADERS[1], before[1], now[1], e);
    HeaderIs(HEADERS[2], before[2], now[2], e);
    HeaderIs(HEADERS[3], before[3], now[3], e);
  }

  lemma HeaderIs(h: Watched, before: string, now: string, e: Entry)
    ensures e in HeaderEntry(h, before, now) <==> HeaderSays(before, now, e, h.key, h.kind, h.strict)
  {
  }

  predicate EntryAt(hs: seq<Watched>, before: seq<string>, now: seq<string>, i: nat, e: Entry)
    requires i < |hs| == |before| == |now|
  {
    e in HeaderEntry(hs[i], before[i], now[i])
  }

  lemma {:induction false} FourHeaders(hs: seq<Watched>, before: seq<string>, now: seq<string>, e: Entry)
    requires |before| == |now| == |hs| == 4
    ensures e in HeaderEntries(hs, before, now) <==>
            || EntryAt(hs, before, now, 0, e) || EntryAt(hs, before, now, 1, e)
            || EntryAt(hs, before, now, 2, e) || EntryAt(hs, before, now, 3, e)
  {
    HeadersAre(hs, before, now, e);
  }

  lemma {:induction false} HeadersAre(hs: seq<Watched>, before: seq<string>, now: seq<string>, e: Entry)
    requires |before| == |now| == |hs|
    ensures e in HeaderEntries(hs, before, now) <==> exists i :: 0 <= i < |hs| && EntryAt(hs, before, now, i, e)
  {
    var n := |hs| - 1;
    if n >= 0 {
      HeadersAre(hs[..n], before[..n], now[..n], e);
      forall i | 0 <= i < n ensures EntryAt(hs[..n], before[..n], now[..n], i, e) <==> EntryAt(hs, before, now, i, e) {
      }
      assert EntryAt(hs, before, now, n, e) <==> e in HeaderEntry(hs[n], before[n], now[n]);
    }
  }

  lemma InFour(a: seq<Entry>, b: seq<Entry>, c: seq<Entry>, d: seq<Entry>, e: Entry)
    ensures e in a + b + c + d <==> e in a || e in b || e in c || e in d
  {
  }

  lemma ItemsExact(w: Wording, before: map<string, string>, now: map<string, string>, ps: seq<string>, ks: seq<string>,
                   e: Entry)
    requires Enumerates(ps, before) && Enumerates(ks, now)
    ensures e in WordPress(w, before, now, ps, ks) <==> ItemsSay(before, now, e, w.added, w.removed, w.version, w.field)
  {
    WordPressExact(w, before, now, ps, ks, e);
  }

  lemma {:induction false} WebItemsExact(lib: Lib, p: Option<Document>, c: Option<Document>, k: Picks, e: Entry)
    requires WebPossible(lib, p, c, k)
    ensures e in WebItems(lib, p, c, k) <==>
            || Changed(e, "web_title", Info, "web.title", StringVal(lib, p, "title"), StringVal(lib, c, "title"))
            || ItemsSay(PluginsOf(lib, p), PluginsOf(lib, c), e, "wp_plugin_added", "wp_plugin_removed",
                        "wp_plugin_version", "web.wordpress_plugins")
            || ItemsSay(ThemesOf(lib, p), ThemesOf(lib, c), e, "wp_theme_added", "wp_theme_removed",
                        "wp_theme_version", "web.wordpress_themes")
  {
    var title := ValueChange("web_title", Info, "web.title", StringVal(lib, p, "title"), StringVal(lib, c, "title"));
    ItemsExact(Plugins, PluginsOf(lib, p), PluginsOf(lib, c), k.prevPlugins, k.curPlugins, e);
    ItemsExact(Themes, ThemesOf(lib, p), ThemesOf(lib, c), k.prevThemes, k.curThemes, e);
    InThree(title, WordPress(Plugins, PluginsOf(lib, p), PluginsOf(lib, c), k.prevPlugins, k.curPlugins),
            WordPress(Themes, ThemesOf(lib, p), ThemesOf(lib, c), k.prevThemes, k.curThemes), e);
  }

  lemma HstsExact(lib: Lib, p: Option<Document>, c: Option<Document>, e: Entry)
    ensures e in DiffHsts(lib, p, c) <==>
            Changed(e, "hsts_preload_status", Info, "web.hsts_preload.preload_status",
                    Lowered(lib, Sub(p, "hsts_preload"), "preload_status"),
                    Lowered(lib, Sub(c, "hsts_preload"), "preload_status"))
  {
  }

  lemma {:induction false} WebBehaviourExact(lib: Lib, p: Option<Document>, c: Option<Document>, k: Picks,
                                             headers: seq<Entry>, e: Entry)
    requires WebPossible(lib, p, c, k)
    requires headers == if Sub(c, "security_headers").None? then []
                        else HeaderEntries(HEADERS, k.prevHeaders, k.curHeaders)
    ensures e in WebBehaviour(lib, p, c, k) <==>
            || e in DiffRedirects(lib, p, c) || e in DiffHsts(lib, p, c) || e in NewCookies(p, c) || e in headers
  {
    InFour(DiffRedirects(lib, p, c), DiffHsts(lib, p, c), NewCookies(p, c), headers, e);
  }

  lemma PageExact(lib: Lib, p: Option<Document>, c: Option<Document>, k: Picks, e: Entry)
    requires WebPossible(lib, p, c, k)
    ensures e in WebParts(lib, p, c, k) <==> PageSays(lib, p, c, k, e)
  {
    WebItemsExact(lib, p, c, k, e);
    RedirectExact(lib, p, c, e);
    HstsExact(lib, p, c, e);
    NewNamesIff(Strings(p, "cookie_names"), Strings(c, "cookie_names"), NewCookie, e);
    FourRead(lib, p, c, k);
    HeadersExact(k.prevHeaders, k.curHeaders, e);
    var headers := if Sub(c, "security_headers").None? then []
                   else HeaderEntries(HEADERS, k.prevHeaders, k.curHeaders);
    WebBehaviourExact(lib, p, c, k, headers, e);
  }

  lemma FourRead(lib: Lib, p: Option<Document>, c: Option<Document>, k: Picks)
    requires WebPossible(lib, p, c, k)
    ensures |k.prevHeaders| == |k.curHeaders| == 4
  {
  }

  lemma WebExact(lib: Lib, previous: Document, current: Document, k: Picks, e: Entry)
    requires WebPossible(lib, Section(previous, "web"), Section(current, "web"), k)
    ensures e in Web(lib, previous, current, k) <==> WebSays(lib, previous, current, k, e)
  {
    PageExact(lib, Section(previous, "web"), Section(current, "web"), k, e);
  }

  // ---- Everything else, and all of it ----

  /** A key that nothing else looks at and that is new, gone, or holds another value. */
  predicate KeySays(previous: Document, current: Document, e: Entry) {
    && e.field !in ["tls", "asn", "ct", "dns", "web", "crawl", "screenshot", "scanned_at", "host", "errors",
                    "enrichment"]
    && if e.field in previous && e.field in current
       then previous[e.field] != current[e.field] && e == Entry("changed", Info, e.field, [], "")
       else if e.field in current then e == Entry("added", Info, e.field, [], "")
       else e.field in previous && e == Entry("removed", Info, e.field, [], "")
  }

  lemma KeysExact(previous: Document, current: Document, ps: seq<string>, ks: seq<string>, e: Entry)
    requires Enumerates(ps, previous) && Enumerates(ks, current)
    ensures e in Generic(previous, current, ps, ks) <==> KeySays(previous, current, e)
  {
    GenericExact(previous, current, ps, ks, e);
  }

  /** All that a comparison can say of the two scans. */
  ghost predicate Says(lib: Lib, previous: Document, current: Document, k: Picks, e: Entry)
    requires Possible(lib, previous, current, k)
  {
    || TlsSays(lib, previous, current, e) || BgpSays(lib, previous, current, e)
    || BgpDriftSays(lib, previous, current, e) || TracerouteSays(lib, previous, current, e)
    || CtSays(lib, previous, current, e) || MailSays(lib, previous, current, e) || DnsSays(lib, previous, current, e)
    || SoaSays(lib, previous, current, e) || CrawlSays(lib, previous, current, e)
    || WebSays(lib, previous, current, k, e) || KeySays(previous, current, e)
  }

  lemma SameEntries(a: seq<Entry>, b: seq<Entry>, e: Entry)
    requires multiset(a) == multiset(b)
    ensures e in a <==> e in b
  {
    assert e in a <==> e in multiset(a);
    assert e in b <==> e in multiset(b);
  }

  /** What Compute returns for two scans holds exactly these entries, each before all that are less severe. */
  lemma ReportSays(lib: Lib, previous: Document, current: Document, k: Picks, r: seq<Entry>)
    requires IsReport(lib, previous, current, k, r)
    ensures forall e :: e in r <==> Says(lib, previous, current, k, e)
    ensures SevereFirst(r)
  {
    forall e ensures e in r <==> Says(lib, previous, current, k, e) {
      SameEntries(r, Parts(lib, previous, current, k), e);
      PartsSay(lib, previous, current, k, e);
    }
    SortedBySeverity(r);
  }

  /** Critical entries before all others, and entries for information after all others. */
  predicate SevereFirst(r: seq<Entry>) {
    forall i, j :: 0 <= i < j < |r| ==>
      && (r[j].severity == Critical ==> r[i].severity == Critical)
      && (r[i].severity == Info ==> r[j].severity == Info)
  }

  lemma SortedBySeverity(r: seq<Entry>)
    ensures Sorting.Ordered(MoreSevere, r) <==> SevereFirst(r)
  {
    forall i, j | 0 <= i < j < |r|
      ensures !MoreSevere(r[j], r[i]) <==>
              (&& (r[j].severity == Critical ==> r[i].severity == Critical)
               && (r[i].severity == Info ==> r[j].severity == Info))
    {
    }
    if Sorting.Ordered(MoreSevere, r) {
      forall i, j | 0 <= i < j < |r| ensures !MoreSevere(r[j], r[i]) {}
    }
  }

  lemma PartsSay(lib: Lib, previous: Document, current: Document, k: Picks, e: Entry)
    requires Possible(lib, previous, current, k)
    ensures e in Parts(lib, previous, current, k) <==> Says(lib, previous, current, k, e)
  {
    NetworkSays(lib, previous, current, e);
    NamePartsSay(lib, previous, current, e);
    PagesSay(lib, previous, current, k, e);
    InThree(NetworkParts(lib, previous, current), NameParts(lib, previous, current),
            PageParts(lib, previous, current, k), e);
  }

  lemma NetworkSays(lib: Lib, previous: Document, current: Document, e: Entry)
    ensures e in NetworkParts(lib, previous, current) <==>
            || TlsSays(lib, previous, current, e) || BgpSays(lib, previous, current, e)
            || BgpDriftSays(lib, previous, current, e) || TracerouteSays(lib, previous, current, e)
  {
    TlsExact(lib, previous, current, e);
    BgpExact(lib, previous, current, e);
    BgpDriftExact(lib, previous, current, e);
    TracerouteExact(lib, previous, current, e);
  }

  lemma NamePartsSay(lib: Lib, previous: Document, current: Document, e: Entry)
    ensures e in NameParts(lib, previous, current) <==>
            || CtSays(lib, previous, current, e) || MailSays(lib, previous, current, e)
            || DnsSays(lib, previous, current, e) || SoaSays(lib, previous, current, e)
  {
    CtExact(lib, previous, current, e);
    MailExact(lib, previous, current, e);
    DnsExact(lib, previous, current, e);
    SoaExact(lib, previous, current, e);
  }

  lemma PagesSay(lib: Lib, previous: Document, current: Document, k: Picks, e: Entry)
    requires Possible(lib, previous, current, k)
    ensures e in PageParts(lib, previous, current, k) <==>
            || CrawlSays(lib, previous, current, e) || WebSays(lib, previous, current, k, e)
            || KeySays(previous, current, e)
  {
    CrawlExact(lib, previous, current, e);
    WebExact(lib, previous, current, k, e);
    KeysExact(previous, current, k.prevKeys, k.curKeys, e);
    InThree(Crawl(lib, previous, current), Web(lib, previous, current, k),
            Generic(previous, current, k.prevKeys, k.curKeys), e);
  }
}
