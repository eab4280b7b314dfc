/** The parts of a scan comparison that read a few fields each. */
module FieldDiffs {
  import opened Common
  import opened Text
  import opened Json
  import opened Values
  import opened DiffEntries

  /** A new non-empty value. */
  predicate Became(prev: string, cur: string) {
    cur != "" && cur != prev
  }

  function ValueChange(kind: string, severity: Severity, field: string, prev: string, cur: string): seq<Entry> {
    When(Became(prev, cur), Entry(kind, severity, field, [prev, cur], ""))
  }

  // ---- TLS ----

  function ExpirySeverity(days: int): Severity {
    if days <= 7 then Critical else if days <= 30 then Warning else Info
  }

  /** diffTLS. */
  function DiffTls(lib: Lib, previous: Document, current: Document): seq<Entry> {
    var p, c := Section(previous, "tls"), Section(current, "tls");
    if c.None? then []
    else
      var prevIssuer, curIssuer := StringVal(lib, p, "issuer"), StringVal(lib, c, "issuer");
      var prevDays, curDays := IntVal(p, "days_remaining"), IntVal(c, "days_remaining");
      When(prevIssuer != ""
          && Became(prevIssuer, curIssuer), Entry("tls_issuer", Warning, "tls.issuer", [prevIssuer, curIssuer], ""))
      + When(curDays >= 0 && (prevDays < 0 || curDays < prevDays),
             Entry("cert_expiry", ExpirySeverity(curDays), "tls.days_remaining", [Decimal(curDays)],
             "was " + Decimal(prevDays) + " days"))
      + When(BoolVal(c, "expired") && !BoolVal(p, "expired"), Entry("cert_expired", Critical, "tls.expired", [], ""))
      + DiffTlsExtended(lib, p, c)
      + ValueChange("tls_ja3s", Warning, "tls.ja3s", StringVal(lib, p, "ja3s"), StringVal(lib, c, "ja3s"))
  }

  /** diffTLSExtended. */
  function DiffTlsExtended(lib: Lib, p: Option<Document>, c: Option<Document>): seq<Entry> {
    var prevSerial, curSerial := StringVal(lib, p, "serial"), StringVal(lib, c, "serial");
    var prevOcsp, curOcsp := BoolVal(p, "ocsp_stapled"), BoolVal(c, "ocsp_stapled");
    ValueChange("tls_version", Info, "tls.tls_version", StringVal(lib, p, "tls_version"),
        StringVal(lib, c, "tls_version"))
    + ValueChange("tls_cipher", Info, "tls.negotiated_cipher", StringVal(lib, p, "negotiated_cipher"),
        StringVal(lib, c, "negotiated_cipher"))
    + When(prevSerial != ""
        && Became(prevSerial, curSerial), Entry("tls_serial", Warning, "tls.serial", [prevSerial, curSerial], ""))
    + When(curOcsp != prevOcsp, Entry("tls_ocsp_stapling", if prevOcsp then Warning else Info, "tls.ocsp_stapled",
                                      [if curOcsp then "enabled" else "disabled"], ""))
  }

  // ---- The origin network ----

  function Stability(lib: Lib, routing: Option<Document>): string {
    StringVal(lib, Sub(routing, "path_profile"), "stability")
  }

  /** diffBGP. */
  function DiffBgp(lib: Lib, previous: Document, current: Document): seq<Entry> {
    var p, c := Section(previous, "asn"), Section(current, "asn");
    if c.None? then
      When(p.Some? && p.value != map[], Entry("removed", Info, "asn", [], ""))
    else
      var prevOrigin, curOrigin := StringVal(lib, p, "asn"), StringVal(lib, c, "asn");
      var prevRisk, curRisk := StringVal(lib, Sub(p, "routing"), "hijack_risk"),
          StringVal(lib, Sub(c, "routing"), "hijack_risk");
      var prevStability, curStability := Stability(lib, Sub(p, "routing")), Stability(lib, Sub(c, "routing"));
      When(prevOrigin == "" && curOrigin != "", Entry("added", Info, "asn", [], "AS" + curOrigin))
      + When(prevOrigin != "" && Became(prevOrigin, curOrigin),
             Entry("bgp_origin", Critical, "asn.asn", [prevOrigin, curOrigin], ""))
      + ValueChange("bgp_hijack_risk",
          if EqualFold(curRisk, "high") || EqualFold(curRisk, "critical") then Critical else Warning,
          "asn.routing.hijack_risk", prevRisk, curRisk)
      + ValueChange("bgp_path_stability",
          if curStability == "volatile" || prevStability == "stable" then Warning else Info,
          "asn.routing.path_profile.stability", prevStability, curStability)
  }

  // ---- Mail ----

  function Dns(raw: Document): Option<Document> {
    Section(raw, "dns")
  }

  /** diffDMARC. */
  function DiffDmarc(lib: Lib, previous: Document, current: Document): seq<Entry> {
    var p, c := Sub(Dns(previous), "DMARC_PARSED"), Sub(Dns(current), "DMARC_PARSED");
    if c.None? then []
    else ValueChange("dmarc_policy", Warning, "dns.dmarc.policy", StringVal(lib, p, "policy"),
        StringVal(lib, c, "policy"))
  }

  function GradeRank(lib: Lib, grade: string): nat {
    var g := ToUpper(lib, TrimSpace(grade));
    if g == "A" then 5 else if g == "B" then 4 else if g == "C" then 3 else if g == "D" then 2 else 1
  }

  /** diffMailPosture. */
  function DiffMailPosture(lib: Lib, previous: Document, current: Document): seq<Entry> {
    var p, c := Sub(Dns(previous), "MAIL_POSTURE"), Sub(Dns(current), "MAIL_POSTURE");
    if c.None? then []
    else
      var prevGrade, curGrade := StringVal(lib, p, "grade"), StringVal(lib, c, "grade");
      When(Became(prevGrade, curGrade),
           Entry("mail_posture",
               if GradeRank(lib, curGrade) < GradeRank(lib, prevGrade) then Warning else Info,
               "dns.mail_posture.grade", [prevGrade, curGrade],
               "score " + Decimal(IntVal(p, "score")) + " → " + Decimal(IntVal(c, "score"))))
  }

  // ---- Zone data ----

  function NumberChange(kind: string, field: string, prev: int, cur: int): seq<Entry> {
    When(cur > 0 && prev > 0 && cur != prev, Entry(kind, Info, field, [Decimal(prev), Decimal(cur)], ""))
  }

  const TIMERS: seq<string> := ["refresh", "retry", "expire", "minimum_ttl"]

  function TimerChanges(p: Option<Document>, c: Option<Document>, keys: seq<string>): seq<Entry> {
    if keys == [] then []
    else
      var k := keys[|keys| - 1];
      TimerChanges(p, c, keys[..|keys| - 1]) + NumberChange("soa_" + k, "dns.soa." + k, IntVal(p, k), IntVal(c, k))
  }

  function SoaSpec(lib: Lib, previous: Document, current: Document): seq<Entry> {
    var p, c := Sub(Dns(previous), "SOA"), Sub(Dns(current), "SOA");
    if c.None? then []
    else
      ValueChange("soa_mname", Warning, "dns.soa.mname", StringVal(lib, p, "mname"), StringVal(lib, c, "mname"))
      + NumberChange("soa_serial", "dns.soa.serial", IntVal(p, "serial"), IntVal(c, "serial"))
      + ValueChange("soa_rname", Info, "dns.soa.rname", StringVal(lib, p, "rname"), StringVal(lib, c, "rname"))
      + TimerChanges(p, c, TIMERS)
  }

  /** diffSOA. */
  method DiffSoa(lib: Lib, previous: Document, current: Document) returns (r: seq<Entry>)
    ensures r == SoaSpec(lib, previous, current)
  {
    var p, c := Sub(Dns(previous), "SOA"), Sub(Dns(current), "SOA");
    if c.None? {
      return [];
    }
    var timers: seq<Entry> := [];
    for i := 0 to |TIMERS|
      invariant timers == TimerChanges(p, c, TIMERS[..i])
    {
      assert TIMERS[..i + 1][..i] == TIMERS[..i];
      var k := TIMERS[i];
      timers := timers + NumberChange("soa_" + k, "dns.soa." + k, IntVal(p, k), IntVal(c, k));
    }
    assert TIMERS[..|TIMERS|] == TIMERS;
    r := ValueChange("soa_mname", Warning, "dns.soa.mname", StringVal(lib, p, "mname"), StringVal(lib, c, "mname"))
         + NumberChange("soa_serial", "dns.soa.serial", IntVal(p, "serial"), IntVal(c, "serial"))
         + ValueChange("soa_rname", Info, "dns.soa.rname", StringVal(lib, p, "rname"), StringVal(lib, c, "rname"))
         + timers;
  }

  function Lowered(lib: Lib, m: Option<Document>, key: string): string {
    ToLower(lib, StringVal(lib, m, key))
  }

  function DiffDnssec(prev: string, cur: string): seq<Entry> {
    ValueChange("dnssec_status", if prev == "signed" && cur == "unsigned" then Warning else Info,
        "dns.DNSSEC.status", prev, cur)
  }

  function DiffMtaSts(prev: string, cur: string): seq<Entry> {
    if cur == "" then []
    else if prev == "" then [Entry("mta_sts_added", Info, "dns.MTA_STS.mode", [cur], "")]
    else ValueChange("mta_sts_mode", if prev == "enforce" && cur != "enforce" then Warning else Info,
        "dns.MTA_STS.mode", prev, cur)
  }

  /** diffTLSRPT and diffBIMI: published, withdrawn or changed. */
  function DiffPublished(prev: string, cur: string, added: Entry, removed: Entry, changed: Entry): seq<Entry> {
    if cur == "" then When(prev != "", removed)
    else if prev == "" then [added]
    else When(cur != prev, changed)
  }

  /** Comparing the other way round, what was published is withdrawn. */
  lemma PublishedReversed(prev: string, cur: string, added: Entry, removed: Entry, changed: Entry)
    ensures DiffPublished(prev, cur, added, removed, changed) == DiffPublished(cur, prev, removed, added, changed)
    ensures DiffPublished(prev, cur, added, removed, changed) == [] <==> prev == cur
  {
  }

  function DiffTlsRpt(prev: string, cur: string): seq<Entry> {
    DiffPublished(prev, cur, Entry("tls_rpt_added", Info, "dns.TLS_RPT", [cur], ""),
        Entry("tls_rpt_removed", Info, "dns.TLS_RPT", [], ""),
        Entry("tls_rpt_changed", Info, "dns.TLS_RPT.rua", [prev, cur], ""))
  }

  function DiffBimi(prev: string, cur: string): seq<Entry> {
    DiffPublished(prev, cur, Entry("bimi_added", Info, "dns.BIMI", [], ""),
        Entry("bimi_removed", Info, "dns.BIMI", [], ""),
        Entry("bimi_changed", Info, "dns.BIMI.record", [], ""))
  }

  // ---- Redirects ----

  function Chain(web: Option<Document>): seq<Document> {
    Objects(Items(web, "redirect_chain"))
  }

  function FinalUrl(lib: Lib, web: Option<Document>): string {
    var chain := Chain(web);
    if chain == [] then "" else StringVal(lib, Some(chain[|chain| - 1]), "url")
  }

  function HopCount(web: Option<Document>): nat {
    var chain := Chain(web);
    if |chain| <= 1 then 0 else |chain| - 1
  }

  /** diffRedirectChain. */
  function DiffRedirects(lib: Lib, p: Option<Document>, c: Option<Document>): seq<Entry> {
    var prevFinal, curFinal, prevHops, curHops := FinalUrl(lib, p), FinalUrl(lib, c), HopCount(p), HopCount(c);
    if curFinal == "" && curHops == 0 then []
    else if prevFinal == curFinal && prevHops == curHops then []
    else if prevFinal == "" && curHops > 0 then
      [Entry("redirect_chain_added", Info, "web.redirect_chain", [Decimal(curHops), curFinal], "")]
    else
      [Entry("redirect_chain_changed", if curHops > prevHops + 1 then Warning else Info, "web.redirect_chain",
             [Decimal(curHops), curFinal, Decimal(prevHops), prevFinal], "")]
  }

  /** A redirect is reported exactly when there is one to speak of and its length or its end differs. */
  lemma RedirectReportedIff(lib: Lib, p: Option<Document>, c: Option<Document>)
    ensures DiffRedirects(lib, p, c) != [] <==>
            (FinalUrl(lib, c) != "" || HopCount(c) > 0)
                && (FinalUrl(lib, p), HopCount(p)) != (FinalUrl(lib, c), HopCount(c))
  {
  }
}

/** The parts that compare lists and maps. */
module ListDiffs {
  import opened Common
  import opened Sorting
  import opened Json
  import opened Values
  import opened SetDiff
  import opened DiffEntries
  import opened Routes

  // ---- Lists of names ----

  /** The items that are not known, in order. */
  function NotIn(xs: seq<string>, known: set<string>): seq<string> {
    if xs == [] then []
    else
      var rest := NotIn(xs[..|xs| - 1], known);
      if xs[|xs| - 1] in known then rest else rest + [xs[|xs| - 1]]
  }

  method Unknown(xs: seq<string>, known: set<string>) returns (r: seq<string>)
    ensures r == NotIn(xs, known)
  {
    r := [];
    for i := 0 to |xs|
      invariant r == NotIn(xs[..i], known)
    {
      assert xs[..i + 1][..i] == xs[..i];
      if xs[i] !in known {
        r := r + [xs[i]];
      }
    }
    assert xs[..|xs|] == xs;
  }

  lemma {:induction false} NotInIs(xs: seq<string>, known: set<string>)
    ensures forall x :: x in NotIn(xs, known) <==> x in xs && x !in known
  {
    if xs != [] {
      NotInIs(xs[..|xs| - 1], known);
      assert xs == xs[..|xs| - 1] + [xs[|xs| - 1]];
    }
  }

  function NewSubdomain(name: string): Entry {
    Entry("new_ct_subdomain", Info, "ct.subdomains", [name], name)
  }

  function NewCookie(name: string): Entry {
    Entry("cookie_name_added", Info, "web.cookie_names", [name], name)
  }

  function NewContact(contact: string): Entry {
    Entry("security_contact_added", Info, "crawl.security_txt.contacts", [contact], contact)
  }

  /** Names not among the previous ones, sorted. */
  function NewNames(prev: seq<string>, cur: seq<string>, f: string -> Entry): seq<Entry> {
    Each(f, SortStrings(NotIn(cur, Elements(prev))))
  }

  method DiffNames(prev: seq<string>, cur: seq<string>, f: string -> Entry) returns (r: seq<Entry>)
    ensures r == NewNames(prev, cur, f)
  {
    var known := ToSet(prev);
    var added := Unknown(cur, known);
    r := Report(f, SortStrings(added));
  }

  /** New names are reported exactly: an entry for each name that was not there before, and no other. */
  lemma NewNamesIff(prev: seq<string>, cur: seq<string>, f: string -> Entry, e: Entry)
    ensures e in NewNames(prev, cur, f) <==> exists x :: x in cur && x !in prev && e == f(x)
  {
    var added := NotIn(cur, Elements(prev));
    var sorted := SortStrings(added);
    NotInIs(cur, Elements(prev));
    forall x ensures x in sorted <==> x in cur && x !in prev {
      assert x in sorted <==> x in multiset(sorted);
      assert x in added <==> x in multiset(added);
    }
    EachHas(f, sorted, e);
  }

  lemma EachHas(f: string -> Entry, xs: seq<string>, e: Entry)
    ensures e in Each(f, xs) <==> exists x :: x in xs && e == f(x)
  {
    if e in Each(f, xs) {
      var i :| 0 <= i < |xs| && e == f(xs[i]);
      assert xs[i] in xs;
    }
    if x :| x in xs && e == f(x) {
      var i :| 0 <= i < |xs| && xs[i] == x;
      assert Each(f, xs)[i] == e;
    }
  }

  // ---- Certificates ----

  function Serial(lib: Lib): Json -> string {
    (x: Json) => if x.Obj? then StringVal(lib, Some(x.fields), "serial") else ""
  }

  function Serials(lib: Lib, ct: Option<Document>): set<string> {
    Elements(Collected(Serial(lib), Items(ct, "certificates")))
  }

  function NewCertificate(lib: Lib, cert: Document): Entry {
    var serial := StringVal(lib, Some(cert), "serial");
    Entry("new_ct_certificate", Info, "ct.certificates", [StringVal(lib, Some(cert), "issuer"), serial], serial)
  }

  function NewCertificates(lib: Lib, known: set<string>, certs: seq<Document>): seq<Entry> {
    if certs == [] then []
    else
      var c := certs[|certs| - 1];
      var serial := StringVal(lib, Some(c), "serial");
      NewCertificates(lib, known, certs[..|certs| - 1]) + When(serial != "" && serial !in known, NewCertificate(lib, c))
  }

  /** diffCTCertificates. */
  method DiffCertificates(lib: Lib, p: Option<Document>, c: Option<Document>) returns (r: seq<Entry>)
    ensures r == NewCertificates(lib, Serials(lib, p), Objects(Items(c, "certificates")))
  {
    var prevSerials := Collect(Serial(lib), Items(p, "certificates"));
    var known := ToSet(prevSerials);
    var certs := ReadObjects(Items(c, "certificates"));
    r := [];
    for i := 0 to |certs|
      invariant r == NewCertificates(lib, known, certs[..i])
    {
      CertificatesNext(lib, known, certs, i);
      var serial := StringVal(lib, Some(certs[i]), "serial");
      if serial != "" && serial !in known {
        r := r + [NewCertificate(lib, certs[i])];
      }
    }
    assert certs[..|certs|] == certs;
  }

  lemma CertificatesNext(lib: Lib, known: set<string>, certs: seq<Document>, i: nat)
    requires i < |certs|
    ensures var serial := StringVal(lib, Some(certs[i]), "serial");
            NewCertificates(lib, known, certs[..i + 1])
            == NewCertificates(lib, known, certs[..i])
                + When(serial != "" && serial !in known, NewCertificate(lib, certs[i]))
  {
    assert certs[..i + 1][..i] == certs[..i];
  }

  // ---- CAA records ----

  function CaaItem(lib: Lib): Json -> string {
    (x: Json) =>
      if !x.Obj? then ""
      else if StringVal(lib, Some(x.fields), "record") != "" then StringVal(lib, Some(x.fields), "record")
      else StringVal(lib, Some(x.fields), "tag") + " " + StringVal(lib, Some(x.fields), "value")
  }

  function CaaRecords(lib: Lib, dns: Option<Document>): set<string> {
    Elements(Collected(CaaItem(lib), Items(dns, "CAA")))
  }

  function CaaAdded(record: string): Entry {
    Entry("caa_added", Info, "dns.CAA", [record], record)
  }

  function CaaRemoved(record: string): Entry {
    Entry("caa_removed", Info, "dns.CAA", [record], record)
  }

  /** diffStringSetChanges. */
  method DiffStringSetChanges(prev: set<string>, cur: set<string>, added: string -> Entry, removed: string -> Entry)
      returns (r: seq<Entry>)
    ensures r == SetChanges(prev, cur, added, removed)
  {
    var addedItems := Minus(cur, prev);
    var removedItems := Minus(prev, cur);
    var a := Report(added, addedItems);
    var b := Report(removed, removedItems);
    r := a + b;
  }

  /** Comparing the other way round reports the same items, removed for added. */
  lemma SetChangesReversed(prev: set<string>, cur: set<string>, added: string -> Entry, removed: string -> Entry)
    ensures multiset(SetChanges(prev, cur, added, removed)) == multiset(SetChanges(cur, prev, removed, added))
  {
    var a, b := Each(added, Listing(cur - prev)), Each(removed, Listing(prev - cur));
    assert multiset(a + b) == multiset(b + a);
  }

  method DiffCaa(lib: Lib, p: Option<Document>, c: Option<Document>) returns (r: seq<Entry>)
    ensures r == SetChanges(CaaRecords(lib, p), CaaRecords(lib, c), CaaAdded, CaaRemoved)
  {
    var prevRecords := Collect(CaaItem(lib), Items(p, "CAA"));
    var curRecords := Collect(CaaItem(lib), Items(c, "CAA"));
    var prev := ToSet(prevRecords);
    var cur := ToSet(curRecords);
    r := DiffStringSetChanges(prev, cur, CaaAdded, CaaRemoved);
  }

  // ---- WordPress ----

  function Slug(lib: Lib, item: Json): string {
    if item.Obj? then ToLower(lib, StringVal(lib, Some(item.fields), "slug")) else ""
  }

  /** wordpressItemMap: versions by lower-case slug; the last item with a slug counts. */
  function Versions(lib: Lib, items: seq<Json>): map<string, string> {
    if items == [] then map[]
    else
      var before := Versions(lib, items[..|items| - 1]);
      var item := items[|items| - 1];
      if Slug(lib, item) == "" then before else before[Slug(lib, item) := StringVal(lib, Some(item.fields), "version")]
  }

  method ReadVersions(lib: Lib, items: seq<Json>) returns (r: map<string, string>)
    ensures r == Versions(lib, items)
  {
    r := map[];
    for i := 0 to |items|
      invariant r == Versions(lib, items[..i])
    {
      assert items[..i + 1][..i] == items[..i];
      var slug := Slug(lib, items[i]);
      if slug != "" {
        r := r[slug := StringVal(lib, Some(items[i].fields), "version")];
      }
    }
    assert items[..|items|] == items;
  }

  predicate IsLast(lib: Lib, items: seq<Json>, slug: string, i: nat)
    requires i < |items|
  {
    Slug(lib, items[i]) == slug && forall j :: i < j < |items| ==> Slug(lib, items[j]) != slug
  }

  lemma {:induction false} LastVersionCounts(lib: Lib, items: seq<Json>, slug: string, i: nat)
    requires i < |items| && slug != "" && IsLast(lib, items, slug, i)
    ensures slug in Versions(lib, items) && items[i].Obj?
        && Versions(lib, items)[slug] == StringVal(lib, Some(items[i].fields), "version")
    decreases |items|
  {
    var before := items[..|items| - 1];
    if i < |before| {
      assert forall j :: i < j < |before| ==> before[j] == items[j];
      LastVersionCounts(lib, before, slug, i);
    }
  }

  lemma {:induction false} VersionHasItem(lib: Lib, items: seq<Json>, slug: string) returns (i: nat)
    requires slug in Versions(lib, items)
    ensures i < |items| && slug != "" && IsLast(lib, items, slug, i)
  {
    var before := items[..|items| - 1];
    if Slug(lib, items[|items| - 1]) == slug && slug != "" {
      i := |items| - 1;
    } else {
      i := VersionHasItem(lib, before, slug);
      forall j | i < j < |items| ensures Slug(lib, items[j]) != slug {
        assert j < |before| ==> items[j] == before[j];
      }
    }
  }

  datatype Wording = Wording(field: string, added: string, removed: string, version: string)

  const Plugins := Wording("web.wordpress_plugins", "wp_plugin_added", "wp_plugin_removed", "wp_plugin_version")
  const Themes := Wording("web.wordpress_themes", "wp_theme_added", "wp_theme_removed", "wp_theme_version")

  function ItemEntry(w: Wording, prev: map<string, string>, cur: map<string, string>, slug: string): seq<Entry>
    requires slug in cur
  {
    if slug !in prev then [Entry(w.added, Info, w.field, [slug, cur[slug]], "")]
    else When(cur[slug] != prev[slug], Entry(w.version, Info, w.field + "." + slug, [slug, prev[slug], cur[slug]], ""))
  }

  function GoneEntry(w: Wording, prev: map<string, string>, cur: map<string, string>, slug: string): seq<Entry>
    requires slug in prev
  {
    When(slug !in cur, Entry(w.removed, Info, w.field, [slug, prev[slug]], ""))
  }

  /** The keys of a map in the order a loop over it happened to see them. */
  ghost predicate Enumerates<V>(ks: seq<string>, m: map<string, V>) {
    Distinct(ks) && forall k :: k in ks <==> k in m
  }

  function ItemEntries(w: Wording, prev: map<string, string>, cur: map<string, string>, ks: seq<string>): seq<Entry>
    requires forall k :: k in ks ==> k in cur
  {
    if ks == [] then [] else ItemEntries(w, prev, cur, ks[..|ks| - 1]) + ItemEntry(w, prev, cur, ks[|ks| - 1])
  }

  function GoneEntries(w: Wording, prev: map<string, string>, cur: map<string, string>, ks: seq<string>): seq<Entry>
    requires forall k :: k in ks ==> k in prev
  {
    if ks == [] then [] else GoneEntries(w, prev, cur, ks[..|ks| - 1]) + GoneEntry(w, prev, cur, ks[|ks| - 1])
  }

  ghost function WordPress(w: Wording, prev: map<string, string>, cur: map<string, string>, ps: seq<string>,
                           ks: seq<string>): seq<Entry>
    requires Enumerates(ps, prev) && Enumerates(ks, cur)
  {
    ItemEntries(w, prev, cur, ks) + GoneEntries(w, prev, cur, ps)
  }

  /** `r` is the report when the loops see the keys in these orders. */
  ghost predicate IsWordPress(w: Wording, prev: map<string, string>, cur: map<string, string>, ps: seq<string>,
                              ks: seq<string>, r: seq<Entry>) {
    Enumerates(ps, prev) && Enumerates(ks, cur) && r == WordPress(w, prev, cur, ps, ks)
  }

  method ReportItems(w: Wording, prev: map<string, string>, cur: map<string, string>, ks: seq<string>)
      returns (r: seq<Entry>)
    requires Enumerates(ks, cur)
    ensures r == ItemEntries(w, prev, cur, ks)
  {
    r := [];
    for i := 0 to |ks|
      invariant r == ItemEntries(w, prev, cur, ks[..i])
    {
      assert ks[..i + 1][..i] == ks[..i];
      r := r + ItemEntry(w, prev, cur, ks[i]);
    }
    assert ks[..|ks|] == ks;
  }

  method ReportGone(w: Wording, prev: map<string, string>, cur: map<string, string>, ps: seq<string>)
      returns (r: seq<Entry>)
    requires Enumerates(ps, prev)
    ensures r == GoneEntries(w, prev, cur, ps)
  {
    r := [];
    for i := 0 to |ps|
      invariant r == GoneEntries(w, prev, cur, ps[..i])
    {
      assert ps[..i + 1][..i] == ps[..i];
      r := r + GoneEntry(w, prev, cur, ps[i]);
    }
    assert ps[..|ps|] == ps;
  }

  /** diffWordPressItems. */
  method DiffWordPressItems(lib: Lib, prevItems: seq<Json>, curItems: seq<Json>, w: Wording) returns (r: seq<Entry>)
    ensures exists ps, ks :: IsWordPress(w, Versions(lib, prevItems), Versions(lib, curItems), ps, ks, r)
  {
    var prev := ReadVersions(lib, prevItems);
    var cur := ReadVersions(lib, curItems);
    if prev == map[] && cur == map[] {
      assert IsWordPress(w, prev, cur, [], [], []);
      return [];
    }
    var ks := Range(cur.Keys);
    var items := ReportItems(w, prev, cur, ks);
    var ps := Range(prev.Keys);
    var gone := ReportGone(w, prev, cur, ps);
    r := items + gone;
    assert IsWordPress(w, prev, cur, ps, ks, r);
  }

  lemma {:induction false} ItemEntriesAre(w: Wording, prev: map<string, string>, cur: map<string, string>,
                                          ks: seq<string>, e: Entry)
    requires forall k :: k in ks ==> k in cur
    ensures e in ItemEntries(w, prev, cur, ks) <==> exists k :: k in ks && e in ItemEntry(w, prev, cur, k)
  {
    if ks != [] {
      var before, last := ks[..|ks| - 1], ks[|ks| - 1];
      ItemEntriesAre(w, prev, cur, before, e);
      assert ks == before + [last];
    }
  }

  lemma {:induction false} GoneEntriesAre(w: Wording, prev: map<string, string>, cur: map<string, string>,
                                          ks: seq<string>, e: Entry)
    requires forall k :: k in ks ==> k in prev
    ensures e in GoneEntries(w, prev, cur, ks) <==> exists k :: k in ks && e in GoneEntry(w, prev, cur, k)
  {
    if ks != [] {
      var before, last := ks[..|ks| - 1], ks[|ks| - 1];
      GoneEntriesAre(w, prev, cur, before, e);
      assert ks == before + [last];
    }
  }

  /** An entry is reported exactly for an item that appeared, went, or has another version; whatever the order of the
      maps. */
  lemma WordPressExact(w: Wording, prev: map<string, string>, cur: map<string, string>, ps: seq<string>,
                       ks: seq<string>, e: Entry)
    requires Enumerates(ps, prev) && Enumerates(ks, cur)
    ensures e in WordPress(w, prev, cur, ps, ks) <==>
            || (exists k :: k in cur && k !in prev && e == Entry(w.added, Info, w.field, [k, cur[k]], ""))
            || (exists k ::
                k in cur && k in prev && cur[k] != prev[k]
                && e == Entry(w.version, Info, w.field + "." + k, [k, prev[k], cur[k]], ""))
            || (exists k :: k in prev && k !in cur && e == Entry(w.removed, Info, w.field, [k, prev[k]], ""))
  {
    ItemEntriesAre(w, prev, cur, ks, e);
    GoneEntriesAre(w, prev, cur, ps, e);
    if e in ItemEntries(w, prev, cur, ks) {
      var k :| k in ks && e in ItemEntry(w, prev, cur, k);
    }
    if e in GoneEntries(w, prev, cur, ps) {
      var k :| k in ps && e in GoneEntry(w, prev, cur, k);
    }
    if k :| k in cur && k !in prev && e == Entry(w.added, Info, w.field, [k, cur[k]], "") {
      assert k in ks && e in ItemEntry(w, prev, cur, k);
    }
    if k :| k in cur && k in prev && cur[k] != prev[k] &&
            e == Entry(w.version, Info, w.field + "." + k, [k, prev[k], cur[k]], "") {
      assert k in ks && e in ItemEntry(w, prev, cur, k);
    }
    if k :| k in prev && k !in cur && e == Entry(w.removed, Info, w.field, [k, prev[k]], "") {
      assert k in ps && e in GoneEntry(w, prev, cur, k);
    }
  }

  /** Comparing the other way round reports the same items: removed for added, and versions exchanged. */
  lemma WordPressReversed(w: Wording, prev: map<string, string>, cur: map<string, string>, ps: seq<string>,
                          ks: seq<string>, slug: string, v: string, u: string)
    requires Enumerates(ps, prev) && Enumerates(ks, cur) && Distinct([w.added, w.removed, w.version])
    ensures Entry(w.added, Info, w.field, [slug, v], "") in WordPress(w, prev, cur, ps, ks)
       <==> Entry(w.removed, Info, w.field, [slug, v], "") in WordPress(w, cur, prev, ks, ps)
    ensures Entry(w.version, Info, w.field + "." + slug, [slug, v, u], "") in WordPress(w, prev, cur, ps, ks)
       <==> Entry(w.version, Info, w.field + "." + slug, [slug, u, v], "") in WordPress(w, cur, prev, ks, ps)
  {
    var kinds := [w.added, w.removed, w.version];
    assert kinds[0] != kinds[1] && kinds[0] != kinds[2] && kinds[1] != kinds[2];
    WordPressExact(w, prev, cur, ps, ks, Entry(w.added, Info, w.field, [slug, v], ""));
    WordPressExact(w, cur, prev, ks, ps, Entry(w.removed, Info, w.field, [slug, v], ""));
    WordPressExact(w, prev, cur, ps, ks, Entry(w.version, Info, w.field + "." + slug, [slug, v, u], ""));
    WordPressExact(w, cur, prev, ks, ps, Entry(w.version, Info, w.field + "." + slug, [slug, u, v], ""));
  }

  /** Nothing is reported exactly when both scans show the same items with the same versions. */
  lemma WordPressEmptyIff(w: Wording, prev: map<string, string>, cur: map<string, string>, ps: seq<string>,
                          ks: seq<string>)
    requires Enumerates(ps, prev) && Enumerates(ks, cur)
    ensures WordPress(w, prev, cur, ps, ks) == [] <==> prev == cur
  {
    var r := WordPress(w, prev, cur, ps, ks);
    if r == [] {
      forall k ensures (k in prev <==> k in cur) && (k in prev && k in cur ==> prev[k] == cur[k]) {
        if k in cur && k !in prev {
          WordPressExact(w, prev, cur, ps, ks, Entry(w.added, Info, w.field, [k, cur[k]], ""));
        } else if k in prev && k !in cur {
          WordPressExact(w, prev, cur, ps, ks, Entry(w.removed, Info, w.field, [k, prev[k]], ""));
        } else if k in prev && prev[k] != cur[k] {
          WordPressExact(w, prev, cur, ps, ks, Entry(w.version, Info, w.field + "." + k, [k, prev[k], cur[k]], ""));
        }
      }
      assert prev == cur;
    }
    if prev == cur && r != [] {
      WordPressExact(w, prev, cur, ps, ks, r[0]);
    }
  }
}
