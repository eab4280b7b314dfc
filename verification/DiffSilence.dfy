/** When a comparison reports nothing, section by section and as a whole. */
module DiffSilence {
  import opened Common
  import opened Sorting
  import opened Json
  import opened Values
  import opened SetDiff
  import opened DiffEntries
  import opened Routes
  import opened FieldDiffs
  import opened ListDiffs
  import opened SectionDiffs
  import opened DiffCompute

  /** No new value: unchanged, or gone. */
  predicate Quiet(prev: string, cur: string) {
    cur == "" || cur == prev
  }

  predicate TextQuiet(lib: Lib, p: Option<Document>, c: Option<Document>, key: string) {
    Quiet(StringVal(lib, p, key), StringVal(lib, c, key))
  }

  lemma Empty5(a: seq<Entry>, b: seq<Entry>, c: seq<Entry>, d: seq<Entry>, e: seq<Entry>)
    ensures a + b + c + d + e == [] <==> a == [] && b == [] && c == [] && d == [] && e == []
  {
    assert |a + b + c + d + e| == |a| + |b| + |c| + |d| + |e|;
  }

  lemma Empty4(a: seq<Entry>, b: seq<Entry>, c: seq<Entry>, d: seq<Entry>)
    ensures a + b + c + d == [] <==> a == [] && b == [] && c == [] && d == []
  {
    assert |a + b + c + d| == |a| + |b| + |c| + |d|;
  }

  // ---- Certificates ----

  /** Days left are unknown now, or were known and are no fewer. */
  predicate DaysQuiet(p: Option<Document>, c: Option<Document>) {
    var before, now := IntVal(p, "days_remaining"), IntVal(c, "days_remaining");
    now < 0 || 0 <= before <= now
  }

  /** Issuer and serial count as changed only from a known value; stapling counts both ways. */
  predicate TlsQuiet(lib: Lib, previous: Document, current: Document) {
    var p, c := Section(previous, "tls"), Section(current, "tls");
    c.Some? ==>
      && (StringVal(lib, p, "issuer") == "" || TextQuiet(lib, p, c, "issuer"))
      && DaysQuiet(p, c)
      && (BoolVal(c, "expired") ==> BoolVal(p, "expired"))
      && TextQuiet(lib, p, c, "tls_version") && TextQuiet(lib, p, c, "negotiated_cipher")
      && (StringVal(lib, p, "serial") == "" || TextQuiet(lib, p, c, "serial"))
      && BoolVal(p, "ocsp_stapled") == BoolVal(c, "ocsp_stapled")
      && TextQuiet(lib, p, c, "ja3s")
  }

  lemma TlsSilentIff(lib: Lib, previous: Document, current: Document)
    ensures DiffTls(lib, previous, current) == [] <==> TlsQuiet(lib, previous, current)
  {
    ExtendedSilentIff(lib, Section(previous, "tls"), Section(current, "tls"));
  }

  lemma ExtendedSilentIff(lib: Lib, p: Option<Document>, c: Option<Document>)
    ensures DiffTlsExtended(lib, p, c) == [] <==>
            && TextQuiet(lib, p, c, "tls_version") && TextQuiet(lib, p, c, "negotiated_cipher")
            && (StringVal(lib, p, "serial") == "" || TextQuiet(lib, p, c, "serial"))
            && BoolVal(p, "ocsp_stapled") == BoolVal(c, "ocsp_stapled")
  {
  }

  // ---- The origin network ----

  /** The network section may only disappear if it was empty. */
  predicate BgpQuiet(lib: Lib, previous: Document, current: Document) {
    var p, c := Section(previous, "asn"), Section(current, "asn");
    if c.None? then p.None? || p.value == map[]
    else
      && TextQuiet(lib, p, c, "asn")
      && TextQuiet(lib, Sub(p, "routing"), Sub(c, "routing"), "hijack_risk")
      && Quiet(Stability(lib, Sub(p, "routing")), Stability(lib, Sub(c, "routing")))
  }

  lemma BgpSilentIff(lib: Lib, previous: Document, current: Document)
    ensures DiffBgp(lib, previous, current) == [] <==> BgpQuiet(lib, previous, current)
  {
  }

  /** Routes: as the two drift reports have it. */
  ghost predicate RoutesQuiet(lib: Lib, previous: Document, current: Document) {
    var prev, cur := Routing(previous), Routing(current);
    && (cur.None? || (&& Quiet(AlertRpki(lib, prev), AlertRpki(lib, cur))
                      && Elements(AlertOrigins(lib, prev)) == Elements(AlertOrigins(lib, cur))
                      && Elements(AsPaths(lib, prev)) == Elements(AsPaths(lib, cur))))
    && AlertIps(lib, previous) == AlertIps(lib, current)
  }

  lemma RoutesSilentIff(lib: Lib, previous: Document, current: Document)
    ensures BgpDrift(lib, previous, current) == [] && TracerouteDrift(lib, previous, current) == [] <==>
            RoutesQuiet(lib, previous, current)
  {
    BgpDriftEmptyIff(lib, previous, current);
    DriftEmptyIff(lib, previous, current);
  }

  // ---- Certificate transparency ----

  lemma {:induction false} SerialIn(lib: Lib, xs: seq<Json>, serial: string)
    ensures serial in Collected(Serial(lib), xs) <==>
            serial != "" && exists cert :: cert in Objects(xs) && StringVal(lib, Some(cert), "serial") == serial
  {
    if xs != [] {
      SerialIn(lib, xs[..|xs| - 1], serial);
      var x := xs[|xs| - 1];
      if x.Obj? {
        assert Objects(xs)[|Objects(xs)| - 1] == x.fields;
        assert Serial(lib)(x) == StringVal(lib, Some(x.fields), "serial");
      }
    }
  }

  lemma {:induction false} NewCertificatesAre(lib: Lib, known: set<string>, certs: seq<Document>, e: Entry)
    ensures e in NewCertificates(lib, known, certs) <==>
            exists cert ::
                cert in certs && StringVal(lib, Some(cert), "serial") !in known + {""} && e == NewCertificate(lib, cert)
  {
    if certs != [] {
      NewCertificatesAre(lib, known, certs[..|certs| - 1], e);
      assert certs == certs[..|certs| - 1] + [certs[|certs| - 1]];
    }
  }

  ghost predicate Certified(lib: Lib, ct: Option<Document>, serial: string) {
    exists cert :: cert in Objects(Items(ct, "certificates")) && StringVal(lib, Some(cert), "serial") == serial
  }

  /** A certificate is reported exactly if it has a serial that no previous certificate had. */
  lemma CertificatesExact(lib: Lib, p: Option<Document>, c: Option<Document>, e: Entry)
    ensures e in NewCertificates(lib, Serials(lib, p), Objects(Items(c, "certificates"))) <==>
            exists cert :: cert in Objects(Items(c, "certificates")) && e == NewCertificate(lib, cert)
              && StringVal(lib, Some(cert), "serial") != "" && !Certified(lib, p, StringVal(lib, Some(cert), "serial"))
  {
    NewCertificatesAre(lib, Serials(lib, p), Objects(Items(c, "certificates")), e);
    forall serial ensures serial in Serials(lib, p) <==> serial != "" && Certified(lib, p, serial) {
      SerialIn(lib, Items(p, "certificates"), serial);
    }
  }

  ghost predicate CtQuiet(lib: Lib, previous: Document, current: Document) {
    var p, c := Section(previous, "ct"), Section(current, "ct");
    c.Some? ==>
      && (forall name :: name in Strings(c, "subdomains") ==> name in Strings(p, "subdomains"))
      && (forall serial :: serial != "" && Certified(lib, c, serial) ==> Certified(lib, p, serial))
  }

  lemma NamesSilentIff(prev: seq<string>, cur: seq<string>, f: string -> Entry)
    ensures NewNames(prev, cur, f) == [] <==> forall x :: x in cur ==> x in prev
  {
    if NewNames(prev, cur, f) != [] {
      NewNamesIff(prev, cur, f, NewNames(prev, cur, f)[0]);
    }
    forall x | x in cur && x !in prev ensures NewNames(prev, cur, f) != [] {
      NewNamesIff(prev, cur, f, f(x));
    }
  }

  lemma CertificatesSilentIff(lib: Lib, p: Option<Document>, c: Option<Document>)
    ensures NewCertificates(lib, Serials(lib, p), Objects(Items(c, "certificates"))) == [] <==>
            forall serial :: serial != "" && Certified(lib, c, serial) ==> Certified(lib, p, serial)
  {
    var r := NewCertificates(lib, Serials(lib, p), Objects(Items(c, "certificates")));
    if r != [] {
      CertificatesExact(lib, p, c, r[0]);
    }
    forall serial | serial != "" && Certified(lib, c, serial) && !Certified(lib, p, serial) ensures r != [] {
      var cert :| cert in Objects(Items(c, "certificates")) && StringVal(lib, Some(cert), "serial") == serial;
      CertificatesExact(lib, p, c, NewCertificate(lib, cert));
    }
  }

  lemma CtSilentIff(lib: Lib, previous: Document, current: Document)
    ensures Ct(lib, previous, current) == [] <==> CtQuiet(lib, previous, current)
  {
    var p, c := Section(previous, "ct"), Section(current, "ct");
    NamesSilentIff(Strings(p, "subdomains"), Strings(c, "subdomains"), NewSubdomain);
    CertificatesSilentIff(lib, p, c);
  }

  // ---- Mail ----

  predicate MailQuiet(lib: Lib, previous: Document, current: Document) {
    && TextQuiet(lib, Sub(Dns(previous), "DMARC_PARSED"), Sub(Dns(current), "DMARC_PARSED"), "policy")
    && TextQuiet(lib, Sub(Dns(previous), "MAIL_POSTURE"), Sub(Dns(current), "MAIL_POSTURE"), "grade")
  }

  lemma MailSilentIff(lib: Lib, previous: Document, current: Document)
    ensures DiffDmarc(lib, previous, current) == [] && DiffMailPosture(lib, previous, current) == [] <==>
        MailQuiet(lib, previous, current)
  {
  }

  // ---- Zone data ----

  /** A number counts as changed only between positive values. */
  predicate NumberQuiet(p: Option<Document>, c: Option<Document>, key: string) {
    IntVal(p, key) <= 0 || IntVal(c, key) <= 0 || IntVal(p, key) == IntVal(c, key)
  }

  /** A timer is reported exactly if it went from one positive value to another. */
  lemma {:induction false} TimersExact(p: Option<Document>, c: Option<Document>, keys: seq<string>, e: Entry)
    ensures e in TimerChanges(p, c, keys) <==>
            exists k :: k in keys && !NumberQuiet(p, c, k)
              && e == Entry("soa_" + k, Info, "dns.soa." + k, [Decimal(IntVal(p, k)), Decimal(IntVal(c, k))], "")
  {
    if keys != [] {
      TimersExact(p, c, keys[..|keys| - 1], e);
      assert keys == keys[..|keys| - 1] + [keys[|keys| - 1]];
    }
  }

  predicate SoaQuiet(lib: Lib, previous: Document, current: Document) {
    var p, c := Sub(Dns(previous), "SOA"), Sub(Dns(current), "SOA");
    && TextQuiet(lib, p, c, "mname") && TextQuiet(lib, p, c, "rname") && NumberQuiet(p, c, "serial")
    && forall k :: k in TIMERS ==> NumberQuiet(p, c, k)
  }

  lemma TimersSilentIff(p: Option<Document>, c: Option<Document>, keys: seq<string>)
    ensures TimerChanges(p, c, keys) == [] <==> forall k :: k in keys ==> NumberQuiet(p, c, k)
  {
    if TimerChanges(p, c, keys) != [] {
      TimersExact(p, c, keys, TimerChanges(p, c, keys)[0]);
    }
    forall k | k in keys && !NumberQuiet(p, c, k) ensures TimerChanges(p, c, keys) != [] {
      TimersExact(p, c, keys,
          Entry("soa_" + k, Info, "dns.soa." + k, [Decimal(IntVal(p, k)), Decimal(IntVal(c, k))], ""));
    }
  }

  lemma SoaSilentIff(lib: Lib, previous: Document, current: Document)
    ensures SoaSpec(lib, previous, current) == [] <==> SoaQuiet(lib, previous, current)
  {
    TimersSilentIff(Sub(Dns(previous), "SOA"), Sub(Dns(current), "SOA"), TIMERS);
  }

  // ---- DNS ----

  /** CAA, TLS-RPT and BIMI count both ways, the others only when something new is there. */
  predicate DnsQuiet(lib: Lib, previous: Document, current: Document) {
    var p, c := Dns(previous), Dns(current);
    c.Some? ==>
      && CaaRecords(lib, p) == CaaRecords(lib, c)
      && Quiet(Lowered(lib, Sub(p, "DNSSEC"), "status"), Lowered(lib, Sub(c, "DNSSEC"), "status"))
      && Quiet(Lowered(lib, Sub(p, "MTA_STS"), "mode"), Lowered(lib, Sub(c, "MTA_STS"), "mode"))
      && StringVal(lib, Sub(p, "TLS_RPT"), "rua") == StringVal(lib, Sub(c, "TLS_RPT"), "rua")
      && StringVal(lib, Sub(p, "BIMI"), "record") == StringVal(lib, Sub(c, "BIMI"), "record")
      && TextQuiet(lib, p, c, "PTR")
  }

  lemma DnsFieldsSilentIff(lib: Lib, p: Option<Document>, c: Option<Document>)
    ensures DnsFields(lib, p, c) == [] <==>
            && Quiet(Lowered(lib, Sub(p, "DNSSEC"), "status"), Lowered(lib, Sub(c, "DNSSEC"), "status"))
            && Quiet(Lowered(lib, Sub(p, "MTA_STS"), "mode"), Lowered(lib, Sub(c, "MTA_STS"), "mode"))
            && StringVal(lib, Sub(p, "TLS_RPT"), "rua") == StringVal(lib, Sub(c, "TLS_RPT"), "rua")
            && StringVal(lib, Sub(p, "BIMI"), "record") == StringVal(lib, Sub(c, "BIMI"), "record")
            && TextQuiet(lib, p, c, "PTR")
  {
    Empty5(DiffDnssec(Lowered(lib, Sub(p, "DNSSEC"), "status"), Lowered(lib, Sub(c, "DNSSEC"), "status")),
           DiffMtaSts(Lowered(lib, Sub(p, "MTA_STS"), "mode"), Lowered(lib, Sub(c, "MTA_STS"), "mode")),
           DiffTlsRpt(StringVal(lib, Sub(p, "TLS_RPT"), "rua"), StringVal(lib, Sub(c, "TLS_RPT"), "rua")),
           DiffBimi(StringVal(lib, Sub(p, "BIMI"), "record"), StringVal(lib, Sub(c, "BIMI"), "record")),
           ValueChange("dns_ptr", Info, "dns.PTR", StringVal(lib, p, "PTR"), StringVal(lib, c, "PTR")));
  }

  lemma DnsSilentIff(lib: Lib, previous: Document, current: Document)
    ensures DnsIntel(lib, previous, current) == [] <==> DnsQuiet(lib, previous, current)
  {
    DnsFieldsSilentIff(lib, Dns(previous), Dns(current));
    SetChangesEmptyIff(CaaRecords(lib, Dns(previous)), CaaRecords(lib, Dns(current)), CaaAdded, CaaRemoved);
  }

  // ---- Crawled files ----

  predicate TxtQuiet(lib: Lib, p: Option<Document>, c: Option<Document>) {
    && (p.Some? <==> c.Some?)
    && (forall contact :: contact in Strings(c, "contacts") ==> contact in Strings(p, "contacts"))
    && TextQuiet(lib, p, c, "expires")
  }

  /** A contact is reported exactly if it was not listed before. */
  lemma ContactsExact(prev: seq<string>, cur: seq<string>, e: Entry)
    ensures e in NewContacts(prev, cur) <==> exists x :: x in cur && x !in prev && e == NewContact(x)
  {
    NotInIs(cur, Elements(prev));
    EachHas(NewContact, NotIn(cur, Elements(prev)), e);
  }

  lemma ContactsSilentIff(prev: seq<string>, cur: seq<string>)
    ensures NewContacts(prev, cur) == [] <==> forall x :: x in cur ==> x in prev
  {
    NotInIs(cur, Elements(prev));
    var added := NotIn(cur, Elements(prev));
    assert |NewContacts(prev, cur)| == |added|;
    assert added != [] ==> added[0] in added;
  }

  lemma TxtSilentIff(lib: Lib, p: Option<Document>, c: Option<Document>)
    ensures SecurityTxt(lib, p, c) == [] <==> TxtQuiet(lib, p, c)
  {
    ContactsSilentIff(Strings(p, "contacts"), Strings(c, "contacts"));
    assert c.None? ==> Strings(c, "contacts") == [];
  }

  predicate FileQuiet(lib: Lib, p: Option<Document>, c: Option<Document>) {
    (p.Some? <==> c.Some?) && TextQuiet(lib, p, c, "source")
  }

  predicate CrawlQuiet(lib: Lib, previous: Document, current: Document) {
    var p, c := Section(previous, "crawl"), Section(current, "crawl");
    c.Some? ==>
      && TxtQuiet(lib, Sub(p, "security_txt"), Sub(c, "security_txt"))
      && FileQuiet(lib, Sub(p, "humans_txt"), Sub(c, "humans_txt"))
      && FileQuiet(lib, Sub(p, "ads_txt"), Sub(c, "ads_txt"))
  }

  lemma CrawlSilentIff(lib: Lib, previous: Document, current: Document)
    ensures Crawl(lib, previous, current) == [] <==> CrawlQuiet(lib, previous, current)
  {
    var p, c := Section(previous, "crawl"), Section(current, "crawl");
    TxtSilentIff(lib, Sub(p, "security_txt"), Sub(c, "security_txt"));
  }

  // ---- The web section ----

  predicate RedirectsQuiet(lib: Lib, p: Option<Document>, c: Option<Document>) {
    (FinalUrl(lib, c) == "" && HopCount(c) == 0) || (FinalUrl(lib, p), HopCount(p)) == (FinalUrl(lib, c), HopCount(c))
  }

  lemma RedirectsSilentIff(lib: Lib, p: Option<Document>, c: Option<Document>)
    ensures DiffRedirects(lib, p, c) == [] <==> RedirectsQuiet(lib, p, c)
  {
    RedirectReportedIff(lib, p, c);
  }

  predicate HstsQuiet(lib: Lib, p: Option<Document>, c: Option<Document>) {
    Quiet(Lowered(lib, Sub(p, "hsts_preload"), "preload_status"),
        Lowered(lib, Sub(c, "hsts_preload"), "preload_status"))
  }

  lemma HstsSilentIff(lib: Lib, p: Option<Document>, c: Option<Document>)
    ensures DiffHsts(lib, p, c) == [] <==> HstsQuiet(lib, p, c)
  {
  }

  predicate CookiesQuiet(p: Option<Document>, c: Option<Document>) {
    forall name :: name in Strings(c, "cookie_names") ==> name in Strings(p, "cookie_names")
  }

  lemma CookiesSilentIff(p: Option<Document>, c: Option<Document>)
    ensures NewCookies(p, c) == [] <==> CookiesQuiet(p, c)
  {
    NamesSilentIff(Strings(p, "cookie_names"), Strings(c, "cookie_names"), NewCookie);
  }

  /** All of the web section but its headers. */
  predicate PageQuiet(lib: Lib, p: Option<Document>, c: Option<Document>) {
    && TextQuiet(lib, p, c, "title")
    && PluginsOf(lib, p) == PluginsOf(lib, c) && ThemesOf(lib, p) == ThemesOf(lib, c)
    && RedirectsQuiet(lib, p, c) && HstsQuiet(lib, p, c) && CookiesQuiet(p, c)
  }

  predicate HeadersQuiet(prev: seq<string>, cur: seq<string>) {
    |prev| == |cur| && forall i :: 0 <= i < |prev| ==> Quiet(prev[i], cur[i])
  }

  lemma ItemsSilentIff(lib: Lib, p: Option<Document>, c: Option<Document>, k: Picks)
    requires WebPossible(lib, p, c, k)
    ensures WebItems(lib, p, c, k) == [] <==>
            TextQuiet(lib, p, c, "title") && PluginsOf(lib, p) == PluginsOf(lib, c)
                && ThemesOf(lib, p) == ThemesOf(lib, c)
  {
    WordPressEmptyIff(Plugins, PluginsOf(lib, p), PluginsOf(lib, c), k.prevPlugins, k.curPlugins);
    WordPressEmptyIff(Themes, ThemesOf(lib, p), ThemesOf(lib, c), k.prevThemes, k.curThemes);
  }

  lemma BehaviourSilentIff(lib: Lib, p: Option<Document>, c: Option<Document>, k: Picks)
    requires WebPossible(lib, p, c, k)
    ensures WebBehaviour(lib, p, c, k) == [] <==>
            && RedirectsQuiet(lib, p, c) && HstsQuiet(lib, p, c) && CookiesQuiet(p, c)
            && (Sub(c, "security_headers").None? || HeadersQuiet(k.prevHeaders, k.curHeaders))
  {
    BehaviourParts(lib, p, c, HEADERS, k.prevHeaders, k.curHeaders);
  }

  lemma BehaviourParts(lib: Lib, p: Option<Document>, c: Option<Document>, hs: seq<Watched>, prev: seq<string>,
                       cur: seq<string>)
    requires |prev| == |cur| == |hs|
    ensures DiffRedirects(lib, p, c) + DiffHsts(lib, p, c) + NewCookies(p, c)
            + (if Sub(c, "security_headers").None? then [] else HeaderEntries(hs, prev, cur)) == [] <==>
            && RedirectsQuiet(lib, p, c) && HstsQuiet(lib, p, c) && CookiesQuiet(p, c)
            && (Sub(c, "security_headers").None? || HeadersQuiet(prev, cur))
  {
    RedirectsSilentIff(lib, p, c);
    HstsSilentIff(lib, p, c);
    CookiesSilentIff(p, c);
    HeadersSilentIff(hs, prev, cur);
    Empty4(DiffRedirects(lib, p, c), DiffHsts(lib, p, c), NewCookies(p, c),
           if Sub(c, "security_headers").None? then [] else HeaderEntries(hs, prev, cur));
  }

  lemma {:induction false} HeadersEmptyIff(hs: seq<Watched>, prev: seq<string>, cur: seq<string>)
    requires |prev| == |cur| == |hs|
    ensures HeaderEntries(hs, prev, cur) == [] <==> forall i :: 0 <= i < |prev| ==> !Became(prev[i], cur[i])
  {
    var n := |hs| - 1;
    if n >= 0 {
      HeadersEmptyIff(hs[..n], prev[..n], cur[..n]);
      assert forall i :: 0 <= i < n ==> prev[..n][i] == prev[i] && cur[..n][i] == cur[i];
    }
  }

  lemma HeadersSilentIff(hs: seq<Watched>, prev: seq<string>, cur: seq<string>)
    requires |prev| == |cur| == |hs|
    ensures HeaderEntries(hs, prev, cur) == [] <==> HeadersQuiet(prev, cur)
  {
    HeadersEmptyIff(hs, prev, cur);
  }

  ghost predicate WebQuiet(lib: Lib, previous: Document, current: Document, k: Picks) {
    var p, c := Section(previous, "web"), Section(current, "web");
    c.Some? ==>
      && p.Some? && PageQuiet(lib, p, c)
      && (Sub(c, "security_headers").None? || HeadersQuiet(k.prevHeaders, k.curHeaders))
  }

  lemma WebSilentIff(lib: Lib, previous: Document, current: Document, k: Picks)
    requires WebPossible(lib, Section(previous, "web"), Section(current, "web"), k)
    ensures Web(lib, previous, current, k) == [] <==> WebQuiet(lib, previous, current, k)
  {
    var p, c := Section(previous, "web"), Section(current, "web");
    if p.Some? && c.Some? {
      ItemsSilentIff(lib, p, c, k);
      BehaviourSilentIff(lib, p, c, k);
    }
  }

  // ---- Everything else ----

  ghost predicate OthersQuiet(previous: Document, current: Document) {
    forall key :: (key in previous || key in current) && !Tracked(key) ==>
      key in previous && key in current && previous[key] == current[key]
  }

  lemma GenericSilentIff(previous: Document, current: Document, ps: seq<string>, ks: seq<string>)
    requires Enumerates(ps, previous) && Enumerates(ks, current)
    ensures Generic(previous, current, ps, ks) == [] <==> OthersQuiet(previous, current)
  {
    var r := Generic(previous, current, ps, ks);
    if r != [] {
      GenericExact(previous, current, ps, ks, r[0]);
    }
    forall key | Untracked(previous, current, key)
        && !(key in previous && key in current && previous[key] == current[key])
      ensures r != []
    {
      var kind := if key !in previous then "added" else if key !in current then "removed" else "changed";
      GenericExact(previous, current, ps, ks, Entry(kind, Info, key, [], ""));
    }
  }

  // ---- The whole comparison ----

  /** All sections are quiet, the security headers aside. */
  ghost predicate SectionsQuiet(lib: Lib, previous: Document, current: Document) {
    && TlsQuiet(lib, previous, current) && BgpQuiet(lib, previous, current) && RoutesQuiet(lib, previous, current)
    && CtQuiet(lib, previous, current) && MailQuiet(lib, previous, current) && DnsQuiet(lib, previous, current)
    && SoaQuiet(lib, previous, current) && CrawlQuiet(lib, previous, current) && OthersQuiet(previous, current)
  }

  lemma NetworkSilentIff(lib: Lib, previous: Document, current: Document)
    ensures NetworkParts(lib, previous, current) == [] <==>
            TlsQuiet(lib, previous, current) && BgpQuiet(lib, previous, current) && RoutesQuiet(lib, previous, current)
  {
    TlsSilentIff(lib, previous, current);
    BgpSilentIff(lib, previous, current);
    RoutesSilentIff(lib, previous, current);
  }

  lemma NamePartsSilentIff(lib: Lib, previous: Document, current: Document)
    ensures NameParts(lib, previous, current) == [] <==>
            && CtQuiet(lib, previous, current) && MailQuiet(lib, previous, current)
            && DnsQuiet(lib, previous, current) && SoaQuiet(lib, previous, current)
  {
    CtSilentIff(lib, previous, current);
    MailSilentIff(lib, previous, current);
    DnsSilentIff(lib, previous, current);
    SoaSilentIff(lib, previous, current);
  }

  lemma PagesSilentIff(lib: Lib, previous: Document, current: Document, k: Picks)
    requires Possible(lib, previous, current, k)
    ensures PageParts(lib, previous, current, k) == [] <==>
            CrawlQuiet(lib, previous, current) && WebQuiet(lib, previous, current, k) && OthersQuiet(previous, current)
  {
    CrawlSilentIff(lib, previous, current);
    WebSilentIff(lib, previous, current, k);
    GenericSilentIff(previous, current, k.prevKeys, k.curKeys);
  }

  /** For any two scans and whatever the runtime picked: nothing is reported exactly when every section is quiet. */
  lemma SilentIff(lib: Lib, previous: Document, current: Document, k: Picks)
    requires Possible(lib, previous, current, k)
    ensures Parts(lib, previous, current, k) == [] <==>
        SectionsQuiet(lib, previous, current) && WebQuiet(lib, previous, current, k)
  {
    NetworkSilentIff(lib, previous, current);
    NamePartsSilentIff(lib, previous, current);
    PagesSilentIff(lib, previous, current, k);
  }

  /** And so what Compute returns is empty exactly then. */
  lemma ReportEmptyIff(lib: Lib, previous: Document, current: Document, k: Picks, r: seq<Entry>)
    requires IsReport(lib, previous, current, k, r)
    ensures r == [] <==> SectionsQuiet(lib, previous, current) && WebQuiet(lib, previous, current, k)
  {
    SilentIff(lib, previous, current, k);
    assert |multiset(r)| == |r| && |multiset(Parts(lib, previous, current, k))| == |Parts(lib, previous, current, k)|;
  }

  // ---- Whatever the runtime picks ----

  /** No reading of the header before and now shows a new value. */
  ghost predicate HeaderAlwaysQuiet(lib: Lib, p: Option<Document>, c: Option<Document>, key: string) {
    forall v, w :: MayRead(lib, p, key, v) && MayRead(lib, c, key, w) ==> Quiet(v, w)
  }

  ghost predicate WebAlwaysQuiet(lib: Lib, previous: Document, current: Document) {
    var p, c := Section(previous, "web"), Section(current, "web");
    c.Some? ==>
      && p.Some? && PageQuiet(lib, p, c)
      && (Sub(c, "security_headers").None? ||
          forall h :: h in HEADERS ==>
              HeaderAlwaysQuiet(lib, Sub(p, "security_headers"), Sub(c, "security_headers"), h.key))
  }

  lemma ReadsQuiet(lib: Lib, hs: seq<Watched>, p: Option<Document>, c: Option<Document>, prev: seq<string>,
                   cur: seq<string>)
    requires Read(lib, hs, p, c, prev, cur) && forall h :: h in hs ==> HeaderAlwaysQuiet(lib, p, c, h.key)
    ensures HeadersQuiet(prev, cur)
  {
    forall i | 0 <= i < |hs| ensures Quiet(prev[i], cur[i]) {
      assert hs[i] in hs;
      assert MayRead(lib, p, hs[i].key, prev[i]) && MayRead(lib, c, hs[i].key, cur[i]);
    }
  }

  lemma LoudReads(lib: Lib, hs: seq<Watched>, p: Option<Document>, c: Option<Document>) returns (prev: seq<string>,
                  cur: seq<string>)
    requires exists h :: h in hs && !HeaderAlwaysQuiet(lib, p, c, h.key)
    ensures Read(lib, hs, p, c, prev, cur) && !HeadersQuiet(prev, cur)
  {
    var i :| 0 <= i < |hs| && !HeaderAlwaysQuiet(lib, p, c, hs[i].key);
    var v, w :| MayRead(lib, p, hs[i].key, v) && MayRead(lib, c, hs[i].key, w) && !Quiet(v, w);
    prev := SomeReads(lib, hs, p);
    cur := SomeReads(lib, hs, c);
    ReadAnother(lib, hs, p, c, prev, cur, i, v, w);
    prev, cur := prev[i := v], cur[i := w];
    assert !Quiet(prev[i], cur[i]);
  }

  lemma ReadAnother(lib: Lib, hs: seq<Watched>, p: Option<Document>, c: Option<Document>, prev: seq<string>,
                    cur: seq<string>,
                    i: nat, v: string, w: string)
    requires i < |hs| && Read(lib, hs, p, c, prev, cur) && MayRead(lib, p, hs[i].key, v)
        && MayRead(lib, c, hs[i].key, w)
    ensures Read(lib, hs, p, c, prev[i := v], cur[i := w])
  {
    forall j | 0 <= j < |hs|
        ensures MayRead(lib, p, hs[j].key, prev[i := v][j]) && MayRead(lib, c, hs[j].key, cur[i := w][j]) {
      assert MayRead(lib, p, hs[j].key, prev[j]) && MayRead(lib, c, hs[j].key, cur[j]);
    }
  }

  ghost function KeysOf<V>(m: map<string, V>): (ks: seq<string>)
    ensures Enumerates(ks, m)
  {
    ListsElements(Listing(m.Keys), m.Keys);
    Listing(m.Keys)
  }

  ghost function PicksWith(lib: Lib, previous: Document, current: Document, prev: seq<string>,
                           cur: seq<string>): Picks {
    var p, c := Section(previous, "web"), Section(current, "web");
    Picks(KeysOf(PluginsOf(lib, p)), KeysOf(PluginsOf(lib, c)), KeysOf(ThemesOf(lib, p)), KeysOf(ThemesOf(lib, c)),
          prev, cur, KeysOf(previous), KeysOf(current))
  }

  lemma ReadsFor(lib: Lib, hs: seq<Watched>, p: Option<Document>, c: Option<Document>) returns (prev: seq<string>,
                 cur: seq<string>)
    ensures Read(lib, hs, p, c, prev, cur)
    ensures (exists h :: h in hs && !HeaderAlwaysQuiet(lib, p, c, h.key)) ==> !HeadersQuiet(prev, cur)
  {
    if exists h :: h in hs && !HeaderAlwaysQuiet(lib, p, c, h.key) {
      prev, cur := LoudReads(lib, hs, p, c);
    } else {
      prev := SomeReads(lib, hs, p);
      cur := SomeReads(lib, hs, c);
    }
  }

  lemma PicksPossible(lib: Lib, previous: Document, current: Document, prev: seq<string>, cur: seq<string>)
    requires Read(lib, HEADERS, Sub(Section(previous, "web"), "security_headers"),
        Sub(Section(current, "web"), "security_headers"), prev, cur)
    ensures Possible(lib, previous, current, PicksWith(lib, previous, current, prev, cur))
  {
  }

  lemma SomePicks(lib: Lib, previous: Document, current: Document) returns (k: Picks)
    ensures Possible(lib, previous, current, k)
    ensures !WebAlwaysQuiet(lib, previous, current) ==> !WebQuiet(lib, previous, current, k)
  {
    var p, c := Sub(Section(previous, "web"), "security_headers"), Sub(Section(current, "web"), "security_headers");
    var prev, cur := ReadsFor(lib, HEADERS, p, c);
    k := PicksWith(lib, previous, current, prev, cur);
    PicksPossible(lib, previous, current, prev, cur);
  }

  /** For any two scans, no run can report anything exactly when every section is quiet and no reading of a watched
      header shows a new value. */
  lemma AlwaysSilentIff(lib: Lib, previous: Document, current: Document)
    ensures (forall k :: Possible(lib, previous, current, k) ==> Parts(lib, previous, current, k) == []) <==>
            SectionsQuiet(lib, previous, current) && WebAlwaysQuiet(lib, previous, current)
  {
    if SectionsQuiet(lib, previous, current) && WebAlwaysQuiet(lib, previous, current) {
      forall k | Possible(lib, previous, current, k) ensures Parts(lib, previous, current, k) == [] {
        QuietWithPicks(lib, previous, current, k);
        SilentIff(lib, previous, current, k);
      }
    } else {
      var k := SomePicks(lib, previous, current);
      SilentIff(lib, previous, current, k);
    }
  }

  lemma QuietWithPicks(lib: Lib, previous: Document, current: Document, k: Picks)
    requires Possible(lib, previous, current, k) && WebAlwaysQuiet(lib, previous, current)
    ensures WebQuiet(lib, previous, current, k)
  {
    var p, c := Sub(Section(previous, "web"), "security_headers"), Sub(Section(current, "web"), "security_headers");
    if c.Some? {
      ReadsQuiet(lib, HEADERS, p, c, k.prevHeaders, k.curHeaders);
    }
  }

  // ---- A scan compared with itself ----

  /** Every watched header can be read in one way only. */
  ghost predicate HeadersUnambiguous(lib: Lib, d: Document) {
    var headers := Sub(Section(d, "web"), "security_headers");
    forall h :: h in HEADERS ==> ReadsOneWay(lib, headers, h.key)
  }

  ghost predicate ReadsOneWay(lib: Lib, headers: Option<Document>, key: string) {
    forall v, w :: MayRead(lib, headers, key, v) && MayRead(lib, headers, key, w) ==> v == w
  }

  /** Names that are unique ignoring case leave no choice. */
  lemma UniqueNamesUnambiguous(lib: Lib, d: Document)
    requires Sub(Section(d, "web"), "security_headers").Some?
    requires var hs := Sub(Section(d, "web"), "security_headers").value;
             forall a, b :: a in hs && b in hs && ToLower(lib, a) == ToLower(lib, b) ==> a == b
    ensures HeadersUnambiguous(lib, d)
  {
  }

  lemma SectionsSelf(lib: Lib, d: Document)
    ensures SectionsQuiet(lib, d, d)
  {
  }

  lemma WebSelf(lib: Lib, d: Document)
    ensures WebAlwaysQuiet(lib, d, d) <==> HeadersUnambiguous(lib, d)
  {
    var headers := Sub(Section(d, "web"), "security_headers");
    forall h | h in HEADERS
        ensures HeaderAlwaysQuiet(lib, headers, headers, h.key) <==> ReadsOneWay(lib, headers, h.key) {
      OneWayIff(lib, headers, h.key);
    }
  }

  lemma OneWayIff(lib: Lib, headers: Option<Document>, key: string)
    ensures HeaderAlwaysQuiet(lib, headers, headers, key) <==> ReadsOneWay(lib, headers, key)
    ensures headers.None? ==> ReadsOneWay(lib, headers, key)
  {
    if HeaderAlwaysQuiet(lib, headers, headers, key) {
      forall v, w | MayRead(lib, headers, key, v) && MayRead(lib, headers, key, w) ensures v == w {
        assert Quiet(v, w) && Quiet(w, v);
      }
    }
  }

  /** Comparing a scan with itself reports nothing, whatever the runtime picks, exactly when every watched header can be
      read in one way only. */
  lemma SelfCompareSilentIff(lib: Lib, d: Document)
    ensures (forall k :: Possible(lib, d, d, k) ==> Parts(lib, d, d, k) == []) <==> HeadersUnambiguous(lib, d)
  {
    AlwaysSilentIff(lib, d, d);
    SectionsSelf(lib, d);
    WebSelf(lib, d);
  }

  /** So what Compute returns for a stored scan and the same scan again is empty. */
  lemma SelfCompareReturnsNothing(lib: Lib, d: Document, r: seq<Entry>, k: Picks)
    requires HeadersUnambiguous(lib, d) && IsReport(lib, d, d, k, r)
    ensures r == []
  {
    SectionsSelf(lib, d);
    WebSelf(lib, d);
    QuietWithPicks(lib, d, d, k);
    ReportEmptyIff(lib, d, d, k, r);
  }
}
