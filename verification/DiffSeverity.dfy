/** Which changes are critical. */
module DiffSeverity {
  import opened Common
  import opened Sorting
  import opened Json
  import opened Values
  import opened SetDiff
  import opened DiffEntries
  import opened Routes
  import opened FieldDiffs
  import opened ListDiffs
  import opened SectionDiffs
  import opened DiffCompute

  predicate Mild(r: seq<Entry>) {
    forall i :: 0 <= i < |r| ==> r[i].severity != Critical
  }

  /** The certificate has just expired, or has come to within a week of it. */
  predicate CertificateAlarm(lib: Lib, previous: Document, current: Document) {
    var p, c := Section(previous, "tls"), Section(current, "tls");
    var before, now := IntVal(p, "days_remaining"), IntVal(c, "days_remaining");
    c.Some? && ((BoolVal(c, "expired") && !BoolVal(p, "expired")) || (0 <= now <= 7 && (before < 0 || now < before)))
  }

  /** The address moved to another network, or its hijack risk became high or critical. */
  predicate NetworkAlarm(lib: Lib, previous: Document, current: Document) {
    var p, c := Section(previous, "asn"), Section(current, "asn");
    var risk := StringVal(lib, Sub(c, "routing"), "hijack_risk");
    && c.Some?
    && (|| (StringVal(lib, p, "asn") != "" && Became(StringVal(lib, p, "asn"), StringVal(lib, c, "asn")))
        || (Became(StringVal(lib, Sub(p, "routing"), "hijack_risk"), risk)
            && (EqualFold(risk, "high") || EqualFold(risk, "critical"))))
  }

  lemma WhenMild(c: bool, e: Entry)
    ensures Mild(When(c, e)) <==> !(c && e.severity == Critical)
  {
    if c {
      assert When(c, e)[0] == e;
    }
  }

  lemma ValueMild(kind: string, severity: Severity, field: string, prev: string, cur: string)
    ensures Mild(ValueChange(kind, severity, field, prev, cur)) <==> !(Became(prev, cur) && severity == Critical)
  {
    WhenMild(Became(prev, cur), Entry(kind, severity, field, [prev, cur], ""));
  }

  lemma EachMild(f: string -> Entry, xs: seq<string>)
    requires forall x :: f(x).severity != Critical
    ensures Mild(Each(f, xs))
  {
  }

  lemma TlsCriticalIff(lib: Lib, previous: Document, current: Document)
    ensures !Mild(DiffTls(lib, previous, current)) <==> CertificateAlarm(lib, previous, current)
  {
    var p, c := Section(previous, "tls"), Section(current, "tls");
    if c.Some? {
      var before, now := IntVal(p, "days_remaining"), IntVal(c, "days_remaining");
      var issuer := When(StringVal(lib, p, "issuer") != ""
          && Became(StringVal(lib, p, "issuer"), StringVal(lib, c, "issuer")),
          Entry("tls_issuer", Warning, "tls.issuer", [StringVal(lib, p, "issuer"), StringVal(lib, c, "issuer")], ""));
      var expiry := When(now >= 0 && (before < 0 || now < before),
        Entry("cert_expiry", ExpirySeverity(now), "tls.days_remaining", [Decimal(now)],
        "was " + Decimal(before) + " days"));
      var expired := When(BoolVal(c, "expired")
          && !BoolVal(p, "expired"), Entry("cert_expired", Critical, "tls.expired", [], ""));
      var ja3s := ValueChange("tls_ja3s", Warning, "tls.ja3s", StringVal(lib, p, "ja3s"), StringVal(lib, c, "ja3s"));
      ExtendedMild(lib, p, c);
      WhenMild(StringVal(lib, p, "issuer") != "" && Became(StringVal(lib, p, "issuer"), StringVal(lib, c, "issuer")),
        Entry("tls_issuer", Warning, "tls.issuer", [StringVal(lib, p, "issuer"), StringVal(lib, c, "issuer")], ""));
      WhenMild(now >= 0 && (before < 0 || now < before),
        Entry("cert_expiry", ExpirySeverity(now), "tls.days_remaining", [Decimal(now)],
        "was " + Decimal(before) + " days"));
      WhenMild(BoolVal(c, "expired") && !BoolVal(p, "expired"), Entry("cert_expired", Critical, "tls.expired", [], ""));
      ValueMild("tls_ja3s", Warning, "tls.ja3s", StringVal(lib, p, "ja3s"), StringVal(lib, c, "ja3s"));
      Joined5(issuer, expiry, expired, DiffTlsExtended(lib, p, c), ja3s);
      assert issuer + expiry + expired + DiffTlsExtended(lib, p, c) + ja3s == DiffTls(lib, previous, current);
    }
  }

  lemma ExtendedMild(lib: Lib, p: Option<Document>, c: Option<Document>)
    ensures Mild(DiffTlsExtended(lib, p, c))
  {
  }

  lemma Joined5(a: seq<Entry>, b: seq<Entry>, c: seq<Entry>, d: seq<Entry>, e: seq<Entry>)
    ensures Mild(a + b + c + d + e) <==> Mild(a) && Mild(b) && Mild(c) && Mild(d) && Mild(e)
  {
    Joined(a, b);
    Joined(a + b, c);
    Joined(a + b + c, d);
    Joined(a + b + c + d, e);
  }

  lemma Joined(a: seq<Entry>, b: seq<Entry>)
    ensures Mild(a + b) <==> Mild(a) && Mild(b)
  {
    if Mild(a + b) {
      forall i | 0 <= i < |a| ensures a[i].severity != Critical { assert (a + b)[i] == a[i]; }
      forall i | 0 <= i < |b| ensures b[i].severity != Critical { assert (a + b)[|a| + i] == b[i]; }
    }
  }

  lemma BgpCriticalIff(lib: Lib, previous: Document, current: Document)
    ensures !Mild(DiffBgp(lib, previous, current)) <==> NetworkAlarm(lib, previous, current)
  {
    var p, c := Section(previous, "asn"), Section(current, "asn");
    if c.Some? {
      var prevOrigin, curOrigin := StringVal(lib, p, "asn"), StringVal(lib, c, "asn");
      var prevRisk, curRisk := StringVal(lib, Sub(p, "routing"), "hijack_risk"),
          StringVal(lib, Sub(c, "routing"), "hijack_risk");
      var prevStability, curStability := Stability(lib, Sub(p, "routing")), Stability(lib, Sub(c, "routing"));
      var added := When(prevOrigin == "" && curOrigin != "", Entry("added", Info, "asn", [], "AS" + curOrigin));
      var origin := When(prevOrigin != "" && Became(prevOrigin, curOrigin),
          Entry("bgp_origin", Critical, "asn.asn", [prevOrigin, curOrigin], ""));
      var risk := ValueChange("bgp_hijack_risk",
          if EqualFold(curRisk, "high") || EqualFold(curRisk, "critical") then Critical else Warning,
          "asn.routing.hijack_risk", prevRisk, curRisk);
      var stability := ValueChange("bgp_path_stability",
          if curStability == "volatile" || prevStability == "stable" then Warning else Info,
          "asn.routing.path_profile.stability", prevStability, curStability);
      WhenMild(prevOrigin == "" && curOrigin != "", Entry("added", Info, "asn", [], "AS" + curOrigin));
      WhenMild(prevOrigin != "" && Became(prevOrigin, curOrigin),
          Entry("bgp_origin", Critical, "asn.asn", [prevOrigin, curOrigin], ""));
      ValueMild("bgp_hijack_risk",
          if EqualFold(curRisk, "high") || EqualFold(curRisk, "critical") then Critical else Warning,
          "asn.routing.hijack_risk", prevRisk, curRisk);
      ValueMild("bgp_path_stability", if curStability == "volatile" || prevStability == "stable" then Warning else Info,
                "asn.routing.path_profile.stability", prevStability, curStability);
      Joined5(added, origin, risk, stability, []);
      assert added + origin + risk + stability + [] == DiffBgp(lib, previous, current);
    }
  }

  lemma DriftMild(lib: Lib, previous: Document, current: Document)
    ensures Mild(BgpDrift(lib, previous, current)) && Mild(TracerouteDrift(lib, previous, current))
  {
    var prev, cur := Routing(previous), Routing(current);
    HopDriftMild(AlertIps(lib, previous), AlertIps(lib, current));
    if cur.Some? {
      var rpki := RpkiEntry(AlertRpki(lib, prev), AlertRpki(lib, cur));
      RpkiMild(AlertRpki(lib, prev), AlertRpki(lib, cur));
      var swapped := Swapped(AsPaths(lib, prev), AsPaths(lib, cur));
      var prevOrigins, curOrigins := Elements(AlertOrigins(lib, prev)), Elements(AlertOrigins(lib, cur));
      var prevPaths, curPaths := Elements(AsPaths(lib, prev)), Elements(AsPaths(lib, cur));
      SetChangesMild(prevOrigins, curOrigins, OriginAdded, OriginRemoved);
      SetChangesMild(prevPaths, curPaths, PathAdded(swapped), PathRemoved);
      var origins := SetChanges(prevOrigins, curOrigins, OriginAdded, OriginRemoved);
      Joined(rpki, origins);
      Joined(rpki + origins, SetChanges(prevPaths, curPaths, PathAdded(swapped), PathRemoved));
    }
  }

  lemma RpkiMild(prev: string, cur: string)
    ensures Mild(RpkiEntry(prev, cur))
  {
  }

  lemma SetChangesMild(prev: set<string>, cur: set<string>, added: string -> Entry, removed: string -> Entry)
    requires forall x :: added(x).severity != Critical && removed(x).severity != Critical
    ensures Mild(SetChanges(prev, cur, added, removed))
  {
    EachMild(added, Listing(cur - prev));
    EachMild(removed, Listing(prev - cur));
    Joined(Each(added, Listing(cur - prev)), Each(removed, Listing(prev - cur)));
  }

  lemma HopDriftMild(prev: seq<string>, cur: seq<string>)
    ensures Mild(HopDrift(prev, cur))
  {
    if Elements(prev) == Elements(cur) {
      WhenMild(prev != cur, Reordered);
    } else {
      SetChangesMild(Elements(prev), Elements(cur), HopAdded, HopRemoved);
    }
  }

  lemma {:induction false} CertificatesMild(lib: Lib, known: set<string>, certs: seq<Document>)
    ensures Mild(NewCertificates(lib, known, certs))
  {
    if certs != [] {
      CertificatesMild(lib, known, certs[..|certs| - 1]);
      var c := certs[|certs| - 1];
      var serial := StringVal(lib, Some(c), "serial");
      WhenMild(serial != "" && serial !in known, NewCertificate(lib, c));
      Joined(NewCertificates(lib, known, certs[..|certs| - 1]),
          When(serial != "" && serial !in known, NewCertificate(lib, c)));
    }
  }

  lemma CtMild(lib: Lib, previous: Document, current: Document)
    ensures Mild(Ct(lib, previous, current))
  {
    var p, c := Section(previous, "ct"), Section(current, "ct");
    if c.Some? {
      var certs := NewCertificates(lib, Serials(lib, p), Objects(Items(c, "certificates")));
      CertificatesMild(lib, Serials(lib, p), Objects(Items(c, "certificates")));
      NamesAreMild(Strings(p, "subdomains"), Strings(c, "subdomains"), NewSubdomain);
      Joined(NewNames(Strings(p, "subdomains"), Strings(c, "subdomains"), NewSubdomain), certs);
    }
  }

  lemma NamesAreMild(prev: seq<string>, cur: seq<string>, f: string -> Entry)
    requires forall x :: f(x).severity != Critical
    ensures Mild(NewNames(prev, cur, f))
  {
    EachMild(f, SortStrings(NotIn(cur, Elements(prev))));
  }

  lemma {:induction false} TimersMild(p: Option<Document>, c: Option<Document>, keys: seq<string>)
    ensures Mild(TimerChanges(p, c, keys))
  {
    if keys != [] {
      var k := keys[|keys| - 1];
      TimersMild(p, c, keys[..|keys| - 1]);
      Joined(TimerChanges(p, c, keys[..|keys| - 1]),
          NumberChange("soa_" + k, "dns.soa." + k, IntVal(p, k), IntVal(c, k)));
    }
  }

  lemma SoaMild(lib: Lib, previous: Document, current: Document)
    ensures Mild(SoaSpec(lib, previous, current))
  {
    var p, c := Sub(Dns(previous), "SOA"), Sub(Dns(current), "SOA");
    if c.Some? {
      TimersMild(p, c, TIMERS);
      var mname := ValueChange("soa_mname", Warning, "dns.soa.mname", StringVal(lib, p, "mname"),
          StringVal(lib, c, "mname"));
      var serial := NumberChange("soa_serial", "dns.soa.serial", IntVal(p, "serial"), IntVal(c, "serial"));
      var rname := ValueChange("soa_rname", Info, "dns.soa.rname", StringVal(lib, p, "rname"),
          StringVal(lib, c, "rname"));
      Joined5(mname, serial, rname, TimerChanges(p, c, TIMERS), []);
      assert mname + serial + rname + TimerChanges(p, c, TIMERS) + [] == SoaSpec(lib, previous, current);
    }
  }

  lemma DnsMild(lib: Lib, previous: Document, current: Document)
    ensures Mild(DnsIntel(lib, previous, current))
  {
    var p, c := Dns(previous), Dns(current);
    if c.Some? {
      var prev, cur := CaaRecords(lib, p), CaaRecords(lib, c);
      DnsFieldsMild(lib, p, c);
      SetChangesMild(prev, cur, CaaAdded, CaaRemoved);
      Joined(SetChanges(prev, cur, CaaAdded, CaaRemoved), DnsFields(lib, p, c));
    }
  }

  lemma DnsFieldsMild(lib: Lib, p: Option<Document>, c: Option<Document>)
    ensures Mild(DnsFields(lib, p, c))
  {
    StatusMild(Lowered(lib, Sub(p, "DNSSEC"), "status"), Lowered(lib, Sub(c, "DNSSEC"), "status"));
    ModeMild(Lowered(lib, Sub(p, "MTA_STS"), "mode"), Lowered(lib, Sub(c, "MTA_STS"), "mode"));
    PublishedMild(StringVal(lib, Sub(p, "TLS_RPT"), "rua"), StringVal(lib, Sub(c, "TLS_RPT"), "rua"));
    PublishedMild(StringVal(lib, Sub(p, "BIMI"), "record"), StringVal(lib, Sub(c, "BIMI"), "record"));
    ValueMild("dns_ptr", Info, "dns.PTR", StringVal(lib, p, "PTR"), StringVal(lib, c, "PTR"));
    Joined5(DiffDnssec(Lowered(lib, Sub(p, "DNSSEC"), "status"), Lowered(lib, Sub(c, "DNSSEC"), "status")),
            DiffMtaSts(Lowered(lib, Sub(p, "MTA_STS"), "mode"), Lowered(lib, Sub(c, "MTA_STS"), "mode")),
            DiffTlsRpt(StringVal(lib, Sub(p, "TLS_RPT"), "rua"), StringVal(lib, Sub(c, "TLS_RPT"), "rua")),
            DiffBimi(StringVal(lib, Sub(p, "BIMI"), "record"), StringVal(lib, Sub(c, "BIMI"), "record")),
            ValueChange("dns_ptr", Info, "dns.PTR", StringVal(lib, p, "PTR"), StringVal(lib, c, "PTR")));
  }

  lemma StatusMild(prev: string, cur: string)
    ensures Mild(DiffDnssec(prev, cur))
  {
  }

  lemma ModeMild(prev: string, cur: string)
    ensures Mild(DiffMtaSts(prev, cur))
  {
  }

  lemma PublishedMild(prev: string, cur: string)
    ensures Mild(DiffTlsRpt(prev, cur)) && Mild(DiffBimi(prev, cur))
  {
  }

  lemma NamesMild(lib: Lib, previous: Document, current: Document)
    ensures Mild(NameParts(lib, previous, current))
  {
    CtMild(lib, previous, current);
    DnsMild(lib, previous, current);
    SoaMild(lib, previous, current);
    MailMild(lib, previous, current);
    Joined5(Ct(lib, previous, current), DiffDmarc(lib, previous, current), DiffMailPosture(lib, previous, current),
            DnsIntel(lib, previous, current), SoaSpec(lib, previous, current));
  }

  lemma MailMild(lib: Lib, previous: Document, current: Document)
    ensures Mild(DiffDmarc(lib, previous, current)) && Mild(DiffMailPosture(lib, previous, current))
  {
  }

  lemma CrawlMild(lib: Lib, previous: Document, current: Document)
    ensures Mild(Crawl(lib, previous, current))
  {
    var p, c := Section(previous, "crawl"), Section(current, "crawl");
    if c.Some? {
      var txt := SecurityTxt(lib, Sub(p, "security_txt"), Sub(c, "security_txt"));
      var humans := OptionalFile(lib, Sub(p, "humans_txt"), Sub(c, "humans_txt"), "humans_txt");
      var ads := OptionalFile(lib, Sub(p, "ads_txt"), Sub(c, "ads_txt"), "ads_txt");
      TxtMild(lib, Sub(p, "security_txt"), Sub(c, "security_txt"));
      Joined(txt, humans);
      Joined(txt + humans, ads);
    }
  }

  lemma TxtMild(lib: Lib, p: Option<Document>, c: Option<Document>)
    ensures Mild(SecurityTxt(lib, p, c))
  {
    if p.Some? && c.Some? {
      var contacts := NewContacts(Strings(p, "contacts"), Strings(c, "contacts"));
      var expires := ValueChange("security_txt_expires", Info, "crawl.security_txt.expires",
          StringVal(lib, p, "expires"), StringVal(lib, c, "expires"));
      EachMild(NewContact, NotIn(Strings(c, "contacts"), Elements(Strings(p, "contacts"))));
      Joined(contacts, expires);
    }
  }

  lemma {:induction false} ItemsMild(w: Wording, prev: map<string, string>, cur: map<string, string>, ks: seq<string>)
    requires forall k :: k in ks ==> k in cur
    ensures Mild(ItemEntries(w, prev, cur, ks))
  {
    if ks != [] {
      ItemsMild(w, prev, cur, ks[..|ks| - 1]);
      Joined(ItemEntries(w, prev, cur, ks[..|ks| - 1]), ItemEntry(w, prev, cur, ks[|ks| - 1]));
    }
  }

  lemma {:induction false} GoneMild(w: Wording, prev: map<string, string>, cur: map<string, string>, ks: seq<string>)
    requires forall k :: k in ks ==> k in prev
    ensures Mild(GoneEntries(w, prev, cur, ks))
  {
    if ks != [] {
      GoneMild(w, prev, cur, ks[..|ks| - 1]);
      Joined(GoneEntries(w, prev, cur, ks[..|ks| - 1]), GoneEntry(w, prev, cur, ks[|ks| - 1]));
    }
  }

  lemma WordPressMild(w: Wording, prev: map<string, string>, cur: map<string, string>, ps: seq<string>, ks: seq<string>)
    requires Enumerates(ps, prev) && Enumerates(ks, cur)
    ensures Mild(WordPress(w, prev, cur, ps, ks))
  {
    ItemsMild(w, prev, cur, ks);
    GoneMild(w, prev, cur, ps);
    Joined(ItemEntries(w, prev, cur, ks), GoneEntries(w, prev, cur, ps));
  }

  lemma {:induction false} HeadersMild(hs: seq<Watched>, prev: seq<string>, cur: seq<string>)
    requires |prev| == |cur| == |hs|
    ensures Mild(HeaderEntries(hs, prev, cur))
  {
    var n := |hs| - 1;
    if n >= 0 {
      HeadersMild(hs[..n], prev[..n], cur[..n]);
      Joined(HeaderEntries(hs[..n], prev[..n], cur[..n]), HeaderEntry(hs[n], prev[n], cur[n]));
    }
  }

  lemma WebItemsMild(lib: Lib, p: Option<Document>, c: Option<Document>, k: Picks)
    requires WebPossible(lib, p, c, k)
    ensures Mild(WebItems(lib, p, c, k))
  {
    var title := ValueChange("web_title", Info, "web.title", StringVal(lib, p, "title"), StringVal(lib, c, "title"));
    var plugins := WordPress(Plugins, PluginsOf(lib, p), PluginsOf(lib, c), k.prevPlugins, k.curPlugins);
    var themes := WordPress(Themes, ThemesOf(lib, p), ThemesOf(lib, c), k.prevThemes, k.curThemes);
    WordPressMild(Plugins, PluginsOf(lib, p), PluginsOf(lib, c), k.prevPlugins, k.curPlugins);
    WordPressMild(Themes, ThemesOf(lib, p), ThemesOf(lib, c), k.prevThemes, k.curThemes);
    ValueMild("web_title", Info, "web.title", StringVal(lib, p, "title"), StringVal(lib, c, "title"));
    Joined(title, plugins);
    Joined(title + plugins, themes);
  }

  lemma WebBehaviourMild(lib: Lib, p: Option<Document>, c: Option<Document>, k: Picks)
    requires WebPossible(lib, p, c, k)
    ensures Mild(WebBehaviour(lib, p, c, k))
  {
    BehaviourMild(lib, p, c, HEADERS, k.prevHeaders, k.curHeaders);
  }

  lemma BehaviourMild(lib: Lib, p: Option<Document>, c: Option<Document>, hs: seq<Watched>, prev: seq<string>,
                      cur: seq<string>)
    requires |prev| == |cur| == |hs|
    ensures Mild(DiffRedirects(lib, p, c) + DiffHsts(lib, p, c) + NewCookies(p, c)
                 + (if Sub(c, "security_headers").None? then [] else HeaderEntries(hs, prev, cur)))
  {
    RedirectsMild(lib, p, c);
    ValueMild("hsts_preload_status", Info, "web.hsts_preload.preload_status",
              Lowered(lib, Sub(p, "hsts_preload"), "preload_status"),
              Lowered(lib, Sub(c, "hsts_preload"), "preload_status"));
    NamesAreMild(Strings(p, "cookie_names"), Strings(c, "cookie_names"), NewCookie);
    HeadersMild(hs, prev, cur);
    Joined4(DiffRedirects(lib, p, c), DiffHsts(lib, p, c), NewCookies(p, c),
            if Sub(c, "security_headers").None? then [] else HeaderEntries(hs, prev, cur));
  }

  lemma Joined4(a: seq<Entry>, b: seq<Entry>, c: seq<Entry>, d: seq<Entry>)
    ensures Mild(a + b + c + d) <==> Mild(a) && Mild(b) && Mild(c) && Mild(d)
  {
    Joined(a, b);
    Joined(a + b, c);
    Joined(a + b + c, d);
  }

  lemma WebMild(lib: Lib, previous: Document, current: Document, k: Picks)
    requires WebPossible(lib, Section(previous, "web"), Section(current, "web"), k)
    ensures Mild(Web(lib, previous, current, k))
  {
    var p, c := Section(previous, "web"), Section(current, "web");
    if p.Some? && c.Some? {
      WebItemsMild(lib, p, c, k);
      WebBehaviourMild(lib, p, c, k);
      Joined(WebItems(lib, p, c, k), WebBehaviour(lib, p, c, k));
    }
  }

  lemma RedirectsMild(lib: Lib, p: Option<Document>, c: Option<Document>)
    ensures Mild(DiffRedirects(lib, p, c))
  {
  }

  lemma GenericMild(prev: Document, cur: Document, ps: seq<string>, ks: seq<string>)
    requires Enumerates(ps, prev) && Enumerates(ks, cur)
    ensures Mild(Generic(prev, cur, ps, ks))
  {
    var r := Generic(prev, cur, ps, ks);
    forall i | 0 <= i < |r| ensures r[i].severity != Critical {
      GenericExact(prev, cur, ps, ks, r[i]);
    }
  }

  lemma PagesMild(lib: Lib, previous: Document, current: Document, k: Picks)
    requires Possible(lib, previous, current, k)
    ensures Mild(PageParts(lib, previous, current, k))
  {
    CrawlMild(lib, previous, current);
    WebMild(lib, previous, current, k);
    GenericMild(previous, current, k.prevKeys, k.curKeys);
    Joined(Crawl(lib, previous, current), Web(lib, previous, current, k));
    Joined(Crawl(lib, previous, current) + Web(lib, previous, current, k),
        Generic(previous, current, k.prevKeys, k.curKeys));
  }

  /** Of all eleven parts, only the certificate and the origin network can raise a critical change. */
  lemma CriticalIff(lib: Lib, previous: Document, current: Document, k: Picks)
    requires Possible(lib, previous, current, k)
    ensures !Mild(Parts(lib, previous, current, k)) <==>
        CertificateAlarm(lib, previous, current) || NetworkAlarm(lib, previous, current)
  {
    TlsCriticalIff(lib, previous, current);
    BgpCriticalIff(lib, previous, current);
    DriftMild(lib, previous, current);
    NamesMild(lib, previous, current);
    PagesMild(lib, previous, current, k);
    var routes := BgpDrift(lib, previous, current) + TracerouteDrift(lib, previous, current);
    Joined(BgpDrift(lib, previous, current), TracerouteDrift(lib, previous, current));
    Joined(DiffTls(lib, previous, current), DiffBgp(lib, previous, current));
    Joined(DiffTls(lib, previous, current) + DiffBgp(lib, previous, current), routes);
    Joined(NetworkParts(lib, previous, current), NameParts(lib, previous, current));
    Joined(NetworkParts(lib, previous, current) + NameParts(lib, previous, current),
        PageParts(lib, previous, current, k));
  }

  /** And then such a change heads what Compute returns. */
  lemma CriticalFirstIff(lib: Lib, previous: Document, current: Document, r: seq<Entry>, k: Picks)
    requires IsReport(lib, previous, current, k, r)
    ensures r != [] && r[0].severity == Critical <==>
        CertificateAlarm(lib, previous, current) || NetworkAlarm(lib, previous, current)
  {
    var parts := Parts(lib, previous, current, k);
    CriticalIff(lib, previous, current, k);
    CriticalHeads(parts, r);
  }

  lemma CriticalHeads(parts: seq<Entry>, r: seq<Entry>)
    requires multiset(r) == multiset(parts) && Ordered(MoreSevere, r)
    ensures r != [] && r[0].severity == Critical <==> !Mild(parts)
  {
    if !Mild(parts) {
      var i :| 0 <= i < |parts| && parts[i].severity == Critical;
      assert parts[i] in multiset(r);
      var j :| 0 <= j < |r| && r[j] == parts[i];
      assert j > 0 ==> !MoreSevere(r[j], r[0]);
    }
    if r != [] && r[0].severity == Critical {
      assert r[0] in multiset(parts);
    }
  }
}
