/** The parts that depend on the order of a map, and whole sections. */
module SectionDiffs {
  import opened Common
  import opened Text
  import opened Json
  import opened Values
  import opened SetDiff
  import opened DiffEntries
  import opened Routes
  import opened FieldDiffs
  import opened ListDiffs

  // ---- Everything not compared elsewhere ----

  predicate Tracked(key: string) {
    || key == "tls" || key == "asn" || key == "ct" || key == "dns" || key == "web" || key == "crawl"
    || key == "screenshot" || key == "scanned_at" || key == "host" || key == "errors" || key == "enrichment"
  }

  function KeyEntry(prev: Document, cur: Document, key: string): seq<Entry>
    requires key in cur
  {
    if Tracked(key) then []
    else if key !in prev then [Entry("added", Info, key, [], "")]
    else When(prev[key] != cur[key], Entry("changed", Info, key, [], ""))
  }

  function LostEntry(cur: Document, key: string): seq<Entry> {
    When(!Tracked(key) && key !in cur, Entry("removed", Info, key, [], ""))
  }

  function KeyEntries(prev: Document, cur: Document, ks: seq<string>): seq<Entry>
    requires forall k :: k in ks ==> k in cur
  {
    if ks == [] then [] else KeyEntries(prev, cur, ks[..|ks| - 1]) + KeyEntry(prev, cur, ks[|ks| - 1])
  }

  function LostEntries(cur: Document, ks: seq<string>): seq<Entry> {
    if ks == [] then [] else LostEntries(cur, ks[..|ks| - 1]) + LostEntry(cur, ks[|ks| - 1])
  }

  ghost function Generic(prev: Document, cur: Document, ps: seq<string>, ks: seq<string>): seq<Entry>
    requires Enumerates(ps, prev) && Enumerates(ks, cur)
  {
    KeyEntries(prev, cur, ks) + LostEntries(cur, ps)
  }

  /** `r` is the report when the loops see the keys in these orders. */
  ghost predicate IsGeneric(prev: Document, cur: Document, ps: seq<string>, ks: seq<string>, r: seq<Entry>) {
    Enumerates(ps, prev) && Enumerates(ks, cur) && r == Generic(prev, cur, ps, ks)
  }

  /** diffGeneric. */
  method DiffGeneric(prev: Document, cur: Document) returns (r: seq<Entry>)
    ensures exists ps, ks :: IsGeneric(prev, cur, ps, ks, r)
  {
    var curKeys := Range(cur.Keys);
    r := [];
    for i := 0 to |curKeys|
      invariant r == KeyEntries(prev, cur, curKeys[..i])
    {
      assert curKeys[..i + 1][..i] == curKeys[..i];
      r := r + KeyEntry(prev, cur, curKeys[i]);
    }
    assert curKeys[..|curKeys|] == curKeys;
    var prevKeys := Range(prev.Keys);
    var lost: seq<Entry> := [];
    for i := 0 to |prevKeys|
      invariant lost == LostEntries(cur, prevKeys[..i])
    {
      assert prevKeys[..i + 1][..i] == prevKeys[..i];
      lost := lost + LostEntry(cur, prevKeys[i]);
    }
    assert prevKeys[..|prevKeys|] == prevKeys;
    r := r + lost;
    assert IsGeneric(prev, cur, prevKeys, curKeys, r);
  }

  lemma {:induction false} KeyEntriesAre(prev: Document, cur: Document, ks: seq<string>, e: Entry)
    requires forall k :: k in ks ==> k in cur
    ensures e in KeyEntries(prev, cur, ks) <==> exists k :: k in ks && e in KeyEntry(prev, cur, k)
  {
    if ks != [] {
      var before, last := ks[..|ks| - 1], ks[|ks| - 1];
      KeyEntriesAre(prev, cur, before, e);
      assert ks == before + [last];
    }
  }

  lemma {:induction false} LostEntriesAre(cur: Document, ks: seq<string>, e: Entry)
    ensures e in LostEntries(cur, ks) <==> exists k :: k in ks && e in LostEntry(cur, k)
  {
    if ks != [] {
      var before, last := ks[..|ks| - 1], ks[|ks| - 1];
      LostEntriesAre(cur, before, e);
      assert ks == before + [last];
    }
  }

  /** An untracked key of one scan or both. */
  predicate Untracked(prev: Document, cur: Document, key: string) {
    !Tracked(key) && (key in prev || key in cur)
  }

  /** An entry is reported exactly for an untracked key that is new, gone, or holds another value. */
  lemma GenericExact(prev: Document, cur: Document, ps: seq<string>, ks: seq<string>, e: Entry)
    requires Enumerates(ps, prev) && Enumerates(ks, cur)
    ensures e in Generic(prev, cur, ps, ks) <==>
            && Untracked(prev, cur, e.field)
            && (if e.field !in prev then e == Entry("added", Info, e.field, [], "")
                else if e.field !in cur then e == Entry("removed", Info, e.field, [], "")
                else prev[e.field] != cur[e.field] && e == Entry("changed", Info, e.field, [], ""))
  {
    PresentExact(prev, cur, ks, e);
    LostExact(prev, cur, ps, e);
  }

  lemma PresentExact(prev: Document, cur: Document, ks: seq<string>, e: Entry)
    requires Enumerates(ks, cur)
    ensures e in KeyEntries(prev, cur, ks) <==>
            && e.field in cur && !Tracked(e.field)
            && (if e.field !in prev then e == Entry("added", Info, e.field, [], "")
                else prev[e.field] != cur[e.field] && e == Entry("changed", Info, e.field, [], ""))
  {
    KeyEntriesAre(prev, cur, ks, e);
    if e in KeyEntries(prev, cur, ks) {
      var k :| k in ks && e in KeyEntry(prev, cur, k);
      assert e.field == k;
    }
    assert e.field in cur ==> e.field in ks;
  }

  lemma LostExact(prev: Document, cur: Document, ps: seq<string>, e: Entry)
    requires Enumerates(ps, prev)
    ensures e in LostEntries(cur, ps) <==>
            e.field in prev && e.field !in cur && !Tracked(e.field) && e == Entry("removed", Info, e.field, [], "")
  {
    LostEntriesAre(cur, ps, e);
    if e in LostEntries(cur, ps) {
      var k :| k in ps && e in LostEntry(cur, k);
      assert e.field == k;
    }
    assert e.field in prev ==> e.field in ps;
  }

  /** Comparing the other way round reports the same keys: removed for added, and changed for changed. */
  lemma GenericReversed(prev: Document, cur: Document, ps: seq<string>, ks: seq<string>, key: string)
    requires Enumerates(ps, prev) && Enumerates(ks, cur)
    ensures Entry("added", Info, key, [], "") in Generic(prev, cur, ps, ks) <==>
        Entry("removed", Info, key, [], "") in Generic(cur, prev, ks, ps)
    ensures Entry("changed", Info, key, [], "") in Generic(prev, cur, ps, ks) <==>
        Entry("changed", Info, key, [], "") in Generic(cur, prev, ks, ps)
  {
    assert "added" != "removed" && "added" != "changed" && "removed" != "changed";
    GenericExact(prev, cur, ps, ks, Entry("added", Info, key, [], ""));
    GenericExact(cur, prev, ks, ps, Entry("removed", Info, key, [], ""));
    GenericExact(prev, cur, ps, ks, Entry("changed", Info, key, [], ""));
    GenericExact(cur, prev, ks, ps, Entry("changed", Info, key, [], ""));
  }

  // ---- Security headers ----

  datatype Watched = Watched(key: string, kind: string, strict: bool)

  const HEADERS: seq<Watched> := [
    Watched("content-security-policy", "csp_changed", true),
    Watched("strict-transport-security", "hsts_changed", true),
    Watched("permissions-policy", "permissions_policy_changed", false),
    Watched("referrer-policy", "referrer_policy_changed", false)]

  /** The names a lookup may settle on: the name itself, or else any that differs in case only. */
  function Candidates(lib: Lib, headers: Document, key: string): set<string> {
    if key in headers then {key} else set k | k in headers && ToLower(lib, k) == ToLower(lib, key)
  }

  function HeaderText(lib: Lib, headers: Document, name: string): string
    requires name in headers
  {
    TrimSpace(Sprint(lib, headers[name]))
  }

  /** The values a lookup may return. */
  ghost predicate MayRead(lib: Lib, headers: Option<Document>, key: string, v: string) {
    if headers.None? || Candidates(lib, headers.value, key) == {} then v == ""
    else exists k :: k in Candidates(lib, headers.value, key) && v == HeaderText(lib, headers.value, k)
  }

  /** securityHeaderValue. */
  method SecurityHeaderValue(lib: Lib, headers: Option<Document>, key: string) returns (v: string)
    ensures MayRead(lib, headers, key, v)
  {
    if headers.None? {
      return "";
    }
    var hs := headers.value;
    if key in hs {
      assert key in Candidates(lib, hs, key);
      return HeaderText(lib, hs, key);
    }
    var names := Range(hs.Keys);
    for i := 0 to |names|
      invariant forall j :: 0 <= j < i ==> ToLower(lib, names[j]) != ToLower(lib, key)
    {
      if ToLower(lib, names[i]) == ToLower(lib, key) {
        assert names[i] in Candidates(lib, hs, key);
        return HeaderText(lib, hs, names[i]);
      }
    }
    v := "";
  }

  function HeaderEntry(h: Watched, prev: string, cur: string): seq<Entry> {
    When(Became(prev, cur),
        Entry(h.kind, if h.strict && prev != "" then Warning else Info, "web.security_headers." + h.key, [], ""))
  }

  /** What was read for each watched header, before and now. */
  ghost predicate Read(lib: Lib, hs: seq<Watched>, p: Option<Document>, c: Option<Document>, prev: seq<string>,
                       cur: seq<string>) {
    && |prev| == |cur| == |hs|
    && forall i :: 0 <= i < |hs| ==> MayRead(lib, p, hs[i].key, prev[i]) && MayRead(lib, c, hs[i].key, cur[i])
  }

  function HeaderEntries(hs: seq<Watched>, prev: seq<string>, cur: seq<string>): seq<Entry>
    requires |prev| == |cur| == |hs|
  {
    var n := |hs| - 1;
    if n < 0 then [] else HeaderEntries(hs[..n], prev[..n], cur[..n]) + HeaderEntry(hs[n], prev[n], cur[n])
  }

  lemma ReadsSomething(lib: Lib, headers: Option<Document>, key: string) returns (v: string)
    ensures MayRead(lib, headers, key, v)
  {
    if headers.Some? && Candidates(lib, headers.value, key) != {} {
      var k :| k in Candidates(lib, headers.value, key);
      v := HeaderText(lib, headers.value, k);
    } else {
      v := "";
    }
  }

  lemma SomeReads(lib: Lib, hs: seq<Watched>, headers: Option<Document>) returns (vs: seq<string>)
    ensures |vs| == |hs| && forall i :: 0 <= i < |hs| ==> MayRead(lib, headers, hs[i].key, vs[i])
  {
    vs := [];
    while |vs| < |hs|
      invariant |vs| <= |hs| && forall i :: 0 <= i < |vs| ==> MayRead(lib, headers, hs[i].key, vs[i])
    {
      var v := ReadsSomething(lib, headers, hs[|vs|].key);
      vs := vs + [v];
    }
  }

  /** One watched header. */
  method DiffHeader(lib: Lib, h: Watched, p: Option<Document>, c: Option<Document>) returns (e: seq<Entry>,
                    ghost v: string, ghost w: string)
    ensures MayRead(lib, p, h.key, v) && MayRead(lib, c, h.key, w) && e == HeaderEntry(h, v, w)
  {
    var prevVal := SecurityHeaderValue(lib, p, h.key);
    var curVal := SecurityHeaderValue(lib, c, h.key);
    v, w := prevVal, curVal;
    if curVal == "" || curVal == prevVal {
      return [], v, w;
    }
    e := [Entry(h.kind, if h.strict && prevVal != "" then Warning else Info, "web.security_headers." + h.key, [], "")];
  }

  ghost predicate IsHeaderReport(lib: Lib, hs: seq<Watched>, p: Option<Document>, c: Option<Document>,
                                 prev: seq<string>, cur: seq<string>, r: seq<Entry>) {
    Read(lib, hs, p, c, prev, cur) && r == if c.None? then [] else HeaderEntries(hs, prev, cur)
  }

  /** diffSecurityHeaders over the watched headers. */
  method DiffSecurityHeaders(lib: Lib, hs: seq<Watched>, p: Option<Document>, c: Option<Document>)
      returns (r: seq<Entry>)
    ensures exists prev, cur :: IsHeaderReport(lib, hs, p, c, prev, cur, r)
  {
    r := [];
    ghost var prev: seq<string>, cur: seq<string> := [], [];
    if c.None? {
      prev := SomeReads(lib, hs, p);
      cur := SomeReads(lib, hs, c);
      assert IsHeaderReport(lib, hs, p, c, prev, cur, r);
      return;
    }
    for i := 0 to |hs|
      invariant Read(lib, hs[..i], p, c, prev, cur) && r == HeaderEntries(hs[..i], prev, cur)
    {
      var e, v, w := DiffHeader(lib, hs[i], p, c);
      HeadersNext(hs[..i + 1], prev, cur, v, w);
      assert hs[..i + 1][..i] == hs[..i];
      ReadNext(lib, hs[..i + 1], p, c, prev, cur, v, w);
      r, prev, cur := r + e, prev + [v], cur + [w];
    }
    assert hs[..|hs|] == hs;
    assert IsHeaderReport(lib, hs, p, c, prev, cur, r);
  }

  lemma ReadNext(lib: Lib, hs: seq<Watched>, p: Option<Document>, c: Option<Document>, prev: seq<string>,
                 cur: seq<string>, v: string, w: string)
    requires hs != [] && Read(lib, hs[..|hs| - 1], p, c, prev, cur)
    requires MayRead(lib, p, hs[|hs| - 1].key, v) && MayRead(lib, c, hs[|hs| - 1].key, w)
    ensures Read(lib, hs, p, c, prev + [v], cur + [w])
  {
    var before := hs[..|hs| - 1];
    forall i | 0 <= i < |hs|
        ensures MayRead(lib, p, hs[i].key, (prev + [v])[i]) && MayRead(lib, c, hs[i].key, (cur + [w])[i]) {
      if i < |before| {
        assert MayRead(lib, p, before[i].key, prev[i]) && MayRead(lib, c, before[i].key, cur[i]);
      }
    }
  }

  lemma HeadersNext(hs: seq<Watched>, prev: seq<string>, cur: seq<string>, v: string, w: string)
    requires |prev| == |cur| == |hs| - 1
    ensures HeaderEntries(hs, prev + [v], cur + [w]) == HeaderEntries(hs[..|hs| - 1], prev, cur)
        + HeaderEntry(hs[|hs| - 1], v, w)
  {
    assert (prev + [v])[..|prev|] == prev && (cur + [w])[..|cur|] == cur;
  }

  // ---- DNS ----

  ghost function DnsIntel(lib: Lib, previous: Document, current: Document): seq<Entry> {
    var p, c := Dns(previous), Dns(current);
    if c.None? then []
    else
      SetChanges(CaaRecords(lib, p), CaaRecords(lib, c), CaaAdded, CaaRemoved) + DnsFields(lib, p, c)
  }

  function DnsFields(lib: Lib, p: Option<Document>, c: Option<Document>): seq<Entry> {
    DiffDnssec(Lowered(lib, Sub(p, "DNSSEC"), "status"), Lowered(lib, Sub(c, "DNSSEC"), "status"))
    + DiffMtaSts(Lowered(lib, Sub(p, "MTA_STS"), "mode"), Lowered(lib, Sub(c, "MTA_STS"), "mode"))
    + DiffTlsRpt(StringVal(lib, Sub(p, "TLS_RPT"), "rua"), StringVal(lib, Sub(c, "TLS_RPT"), "rua"))
    + DiffBimi(StringVal(lib, Sub(p, "BIMI"), "record"), StringVal(lib, Sub(c, "BIMI"), "record"))
    + ValueChange("dns_ptr", Info, "dns.PTR", StringVal(lib, p, "PTR"), StringVal(lib, c, "PTR"))
  }

  /** diffDNSIntel. */
  method DiffDnsIntel(lib: Lib, previous: Document, current: Document) returns (r: seq<Entry>)
    ensures r == DnsIntel(lib, previous, current)
  {
    var p, c := Dns(previous), Dns(current);
    if c.None? {
      return [];
    }
    var caa := DiffCaa(lib, p, c);
    r := caa + DnsFields(lib, p, c);
  }

  // ---- Certificate transparency ----

  function Ct(lib: Lib, previous: Document, current: Document): seq<Entry> {
    var p, c := Section(previous, "ct"), Section(current, "ct");
    if c.None? then []
    else NewNames(Strings(p, "subdomains"), Strings(c, "subdomains"), NewSubdomain)
         + NewCertificates(lib, Serials(lib, p), Objects(Items(c, "certificates")))
  }

  /** diffCT. */
  method DiffCt(lib: Lib, previous: Document, current: Document) returns (r: seq<Entry>)
    ensures r == Ct(lib, previous, current)
  {
    var p, c := Section(previous, "ct"), Section(current, "ct");
    if c.None? {
      return [];
    }
    var prevNames := Collect(StringItem, Items(p, "subdomains"));
    var curNames := Collect(StringItem, Items(c, "subdomains"));
    var names := DiffNames(prevNames, curNames, NewSubdomain);
    var certs := DiffCertificates(lib, p, c);
    r := names + certs;
  }

  // ---- Crawled files ----

  function NewContacts(prev: seq<string>, cur: seq<string>): seq<Entry> {
    Each(NewContact, NotIn(cur, Elements(prev)))
  }

  function SecurityTxt(lib: Lib, p: Option<Document>, c: Option<Document>): seq<Entry> {
    if c.None? then When(p.Some?, Entry("security_txt_removed", Warning, "crawl.security_txt", [], ""))
    else if p.None? then [Entry("security_txt_added", Info, "crawl.security_txt", [], "")]
    else NewContacts(Strings(p, "contacts"), Strings(c, "contacts"))
         + ValueChange("security_txt_expires", Info, "crawl.security_txt.expires", StringVal(lib, p, "expires"),
             StringVal(lib, c, "expires"))
  }

  /** diffSecurityTxt. */
  method DiffSecurityTxt(lib: Lib, p: Option<Document>, c: Option<Document>) returns (r: seq<Entry>)
    ensures r == SecurityTxt(lib, p, c)
  {
    if c.None? {
      return When(p.Some?, Entry("security_txt_removed", Warning, "crawl.security_txt", [], ""));
    }
    if p.None? {
      return [Entry("security_txt_added", Info, "crawl.security_txt", [], "")];
    }
    var prevContacts := Collect(StringItem, Items(p, "contacts"));
    var curContacts := Collect(StringItem, Items(c, "contacts"));
    var known := ToSet(prevContacts);
    var added := Unknown(curContacts, known);
    var contacts := Report(NewContact, added);
    r := contacts
        + ValueChange("security_txt_expires", Info, "crawl.security_txt.expires", StringVal(lib, p, "expires"),
        StringVal(lib, c, "expires"));
  }

  /** diffOptionalCrawlFile. */
  function OptionalFile(lib: Lib, p: Option<Document>, c: Option<Document>, key: string): seq<Entry> {
    if c.Some? && p.None? then [Entry(key + "_added", Info, "crawl." + key, [], "")]
    else if c.None? && p.Some? then [Entry(key + "_removed", Info, "crawl." + key, [], "")]
    else ValueChange(key + "_changed", Info, "crawl." + key, StringVal(lib, p, "source"), StringVal(lib, c, "source"))
  }

  function Crawl(lib: Lib, previous: Document, current: Document): seq<Entry> {
    var p, c := Section(previous, "crawl"), Section(current, "crawl");
    if c.None? then []
    else SecurityTxt(lib, Sub(p, "security_txt"), Sub(c, "security_txt"))
         + OptionalFile(lib, Sub(p, "humans_txt"), Sub(c, "humans_txt"), "humans_txt")
         + OptionalFile(lib, Sub(p, "ads_txt"), Sub(c, "ads_txt"), "ads_txt")
  }

  /** diffCrawlIntel. */
  method DiffCrawl(lib: Lib, previous: Document, current: Document) returns (r: seq<Entry>)
    ensures r == Crawl(lib, previous, current)
  {
    var p, c := Section(previous, "crawl"), Section(current, "crawl");
    if c.None? {
      return [];
    }
    var txt := DiffSecurityTxt(lib, Sub(p, "security_txt"), Sub(c, "security_txt"));
    r := txt + OptionalFile(lib, Sub(p, "humans_txt"), Sub(c, "humans_txt"), "humans_txt")
             + OptionalFile(lib, Sub(p, "ads_txt"), Sub(c, "ads_txt"), "ads_txt");
  }

  // ---- The web section ----

  /** What the runtime settled on: map orders and header names. */
  datatype Picks = Picks(prevPlugins: seq<string>, curPlugins: seq<string>, prevThemes: seq<string>,
      curThemes: seq<string>,
      prevHeaders: seq<string>, curHeaders: seq<string>, prevKeys: seq<string>, curKeys: seq<string>)

  function PluginsOf(lib: Lib, web: Option<Document>): map<string, string> {
    Versions(lib, Items(web, "wordpress_plugins"))
  }

  function ThemesOf(lib: Lib, web: Option<Document>): map<string, string> {
    Versions(lib, Items(web, "wordpress_themes"))
  }

  ghost predicate WebPossible(lib: Lib, p: Option<Document>, c: Option<Document>, k: Picks) {
    && Enumerates(k.prevPlugins, PluginsOf(lib, p)) && Enumerates(k.curPlugins, PluginsOf(lib, c))
    && Enumerates(k.prevThemes, ThemesOf(lib, p)) && Enumerates(k.curThemes, ThemesOf(lib, c))
    && Read(lib, HEADERS, Sub(p, "security_headers"), Sub(c, "security_headers"), k.prevHeaders, k.curHeaders)
  }

  /** diffHSTSPreload. */
  function DiffHsts(lib: Lib, p: Option<Document>, c: Option<Document>): seq<Entry> {
    ValueChange("hsts_preload_status", Info, "web.hsts_preload.preload_status",
                Lowered(lib, Sub(p, "hsts_preload"), "preload_status"),
                Lowered(lib, Sub(c, "hsts_preload"), "preload_status"))
  }

  function NewCookies(p: Option<Document>, c: Option<Document>): seq<Entry> {
    NewNames(Strings(p, "cookie_names"), Strings(c, "cookie_names"), NewCookie)
  }

  /** Title and WordPress. */
  ghost function WebItems(lib: Lib, p: Option<Document>, c: Option<Document>, k: Picks): seq<Entry>
    requires WebPossible(lib, p, c, k)
  {
    ValueChange("web_title", Info, "web.title", StringVal(lib, p, "title"), StringVal(lib, c, "title"))
    + WordPress(Plugins, PluginsOf(lib, p), PluginsOf(lib, c), k.prevPlugins, k.curPlugins)
    + WordPress(Themes, ThemesOf(lib, p), ThemesOf(lib, c), k.prevThemes, k.curThemes)
  }

  /** Redirects, HSTS, cookies and headers. */
  ghost function WebBehaviour(lib: Lib, p: Option<Document>, c: Option<Document>, k: Picks): seq<Entry>
    requires WebPossible(lib, p, c, k)
  {
    DiffRedirects(lib, p, c)
    + DiffHsts(lib, p, c)
    + NewCookies(p, c)
    + (if Sub(c, "security_headers").None? then [] else HeaderEntries(HEADERS, k.prevHeaders, k.curHeaders))
  }

  ghost function WebParts(lib: Lib, p: Option<Document>, c: Option<Document>, k: Picks): seq<Entry>
    requires WebPossible(lib, p, c, k)
  {
    WebItems(lib, p, c, k) + WebBehaviour(lib, p, c, k)
  }

  ghost function Web(lib: Lib, previous: Document, current: Document, k: Picks): seq<Entry>
    requires WebPossible(lib, Section(previous, "web"), Section(current, "web"), k)
  {
    var p, c := Section(previous, "web"), Section(current, "web");
    if c.None? then [] else if p.None? then [Entry("added", Info, "web", [], "")] else WebParts(lib, p, c, k)
  }

  ghost predicate IsWebReport(lib: Lib, p: Option<Document>, c: Option<Document>, k: Picks, r: seq<Entry>) {
    WebPossible(lib, p, c, k) && r == WebParts(lib, p, c, k)
  }

  ghost predicate IsItemReport(lib: Lib, p: Option<Document>, c: Option<Document>, k: Picks, r: seq<Entry>) {
    && Enumerates(k.prevPlugins, PluginsOf(lib, p)) && Enumerates(k.curPlugins, PluginsOf(lib, c))
    && Enumerates(k.prevThemes, ThemesOf(lib, p)) && Enumerates(k.curThemes, ThemesOf(lib, c))
    && r == ValueChange("web_title", Info, "web.title", StringVal(lib, p, "title"), StringVal(lib, c, "title"))
            + WordPress(Plugins, PluginsOf(lib, p), PluginsOf(lib, c), k.prevPlugins, k.curPlugins)
            + WordPress(Themes, ThemesOf(lib, p), ThemesOf(lib, c), k.prevThemes, k.curThemes)
  }

  ghost predicate IsBehaviourReport(lib: Lib, p: Option<Document>, c: Option<Document>, ph: seq<string>,
                                    ch: seq<string>, r: seq<Entry>) {
    && Read(lib, HEADERS, Sub(p, "security_headers"), Sub(c, "security_headers"), ph, ch)
    && r == DiffRedirects(lib, p, c)
            + DiffHsts(lib, p, c)
            + NewCookies(p, c)
            + (if Sub(c, "security_headers").None? then [] else HeaderEntries(HEADERS, ph, ch))
  }

  lemma WebTogether(lib: Lib, p: Option<Document>, c: Option<Document>, k: Picks, items: seq<Entry>,
                    behaviour: seq<Entry>)
    requires IsItemReport(lib, p, c, k, items) && IsBehaviourReport(lib, p, c, k.prevHeaders, k.curHeaders, behaviour)
    ensures IsWebReport(lib, p, c, k, items + behaviour)
  {
  }

  method DiffWebItems(lib: Lib, p: Option<Document>, c: Option<Document>) returns (r: seq<Entry>)
    ensures exists k :: IsItemReport(lib, p, c, k, r)
  {
    var plugins := DiffWordPressItems(lib, Items(p, "wordpress_plugins"), Items(c, "wordpress_plugins"), Plugins);
    ghost var pp, cp :| IsWordPress(Plugins, PluginsOf(lib, p), PluginsOf(lib, c), pp, cp, plugins);
    var themes := DiffWordPressItems(lib, Items(p, "wordpress_themes"), Items(c, "wordpress_themes"), Themes);
    ghost var pt, ct :| IsWordPress(Themes, ThemesOf(lib, p), ThemesOf(lib, c), pt, ct, themes);
    r := ValueChange("web_title", Info, "web.title", StringVal(lib, p, "title"), StringVal(lib, c, "title")) + plugins
        + themes;
    ItemsTogether(lib, p, c, Picks(pp, cp, pt, ct, [], [], [], []), plugins, themes);
  }

  lemma ItemsTogether(lib: Lib, p: Option<Document>, c: Option<Document>, k: Picks, plugins: seq<Entry>,
                      themes: seq<Entry>)
    requires IsWordPress(Plugins, PluginsOf(lib, p), PluginsOf(lib, c), k.prevPlugins, k.curPlugins, plugins)
    requires IsWordPress(Themes, ThemesOf(lib, p), ThemesOf(lib, c), k.prevThemes, k.curThemes, themes)
    ensures IsItemReport(lib, p, c, k,
              ValueChange("web_title", Info, "web.title", StringVal(lib, p, "title"), StringVal(lib, c, "title"))
              + plugins + themes)
  {
  }

  method DiffWebBehaviour(lib: Lib, p: Option<Document>, c: Option<Document>) returns (r: seq<Entry>)
    ensures exists ph, ch :: IsBehaviourReport(lib, p, c, ph, ch, r)
  {
    var prevCookies := Collect(StringItem, Items(p, "cookie_names"));
    var curCookies := Collect(StringItem, Items(c, "cookie_names"));
    var cookies := DiffNames(prevCookies, curCookies, NewCookie);
    var headers := DiffSecurityHeaders(lib, HEADERS, Sub(p, "security_headers"), Sub(c, "security_headers"));
    ghost var ph,
        ch :| IsHeaderReport(lib, HEADERS, Sub(p, "security_headers"), Sub(c, "security_headers"), ph, ch, headers);
    r := DiffRedirects(lib, p, c)
         + DiffHsts(lib, p, c)
         + cookies + headers;
    assert IsBehaviourReport(lib, p, c, ph, ch, r);
  }

  method DiffWebParts(lib: Lib, p: Option<Document>, c: Option<Document>) returns (r: seq<Entry>)
    ensures exists k :: IsWebReport(lib, p, c, k, r)
  {
    var items := DiffWebItems(lib, p, c);
    ghost var k :| IsItemReport(lib, p, c, k, items);
    var behaviour := DiffWebBehaviour(lib, p, c);
    ghost var ph, ch :| IsBehaviourReport(lib, p, c, ph, ch, behaviour);
    ghost var picks := k.(prevHeaders := ph, curHeaders := ch);
    assert IsItemReport(lib, p, c, picks, items);
    WebTogether(lib, p, c, picks, items, behaviour);
    r := items + behaviour;
  }

  /** diffWeb; `k` holds the picks, made even where they do not matter. */
  method DiffWeb(lib: Lib, previous: Document, current: Document) returns (r: seq<Entry>)
    ensures exists k ::
        WebPossible(lib, Section(previous, "web"), Section(current, "web"), k) && r == Web(lib, previous, current, k)
  {
    var p, c := Section(previous, "web"), Section(current, "web");
    r := DiffWebParts(lib, p, c);
    ghost var k :| IsWebReport(lib, p, c, k, r);
    if c.None? {
      r := [];
    } else if p.None? {
      r := [Entry("added", Info, "web", [], "")];
    }
    assert WebPossible(lib, p, c, k) && r == Web(lib, previous, current, k);
  }
}

/** Comparing a stored scan with the current one. */
module DiffCompute {
  import opened Common
  import opened Sorting
  import opened Json
  import opened Values
  import opened DiffEntries
  import opened Routes
  import opened FieldDiffs
  import opened ListDiffs
  import opened SectionDiffs

  ghost predicate Possible(lib: Lib, previous: Document, current: Document, k: Picks) {
    && WebPossible(lib, Section(previous, "web"), Section(current, "web"), k)
    && Enumerates(k.prevKeys, previous) && Enumerates(k.curKeys, current)
  }

  /** Certificates, origin network and routes. */
  ghost function NetworkParts(lib: Lib, previous: Document, current: Document): seq<Entry> {
    DiffTls(lib, previous, current) + DiffBgp(lib, previous, current)
    + (BgpDrift(lib, previous, current) + TracerouteDrift(lib, previous, current))
  }

  /** Names, mail and DNS. */
  ghost function NameParts(lib: Lib, previous: Document, current: Document): seq<Entry> {
    Ct(lib, previous, current) + DiffDmarc(lib, previous, current) + DiffMailPosture(lib, previous, current)
    + DnsIntel(lib, previous, current) + SoaSpec(lib, previous, current)
  }

  /** Pages and everything else. */
  ghost function PageParts(lib: Lib, previous: Document, current: Document, k: Picks): seq<Entry>
    requires Possible(lib, previous, current, k)
  {
    Crawl(lib, previous, current) + Web(lib, previous, current, k) + Generic(previous, current, k.prevKeys, k.curKeys)
  }

  /** The eleven parts, one after the other. */
  ghost function Parts(lib: Lib, previous: Document, current: Document, k: Picks): seq<Entry>
    requires Possible(lib, previous, current, k)
  {
    NetworkParts(lib, previous, current) + NameParts(lib, previous, current) + PageParts(lib, previous, current, k)
  }

  predicate MoreSevere(a: Entry, b: Entry) {
    Rank(a.severity) > Rank(b.severity)
  }

  method DiffNetwork(lib: Lib, previous: Document, current: Document) returns (r: seq<Entry>)
    ensures r == NetworkParts(lib, previous, current)
  {
    var bgp := DiffBgpRouteDrift(lib, previous, current);
    var trace := DiffTracerouteDrift(lib, previous, current);
    r := DiffTls(lib, previous, current) + DiffBgp(lib, previous, current) + (bgp + trace);
  }

  method DiffNamesAndMail(lib: Lib, previous: Document, current: Document) returns (r: seq<Entry>)
    ensures r == NameParts(lib, previous, current)
  {
    var ct := DiffCt(lib, previous, current);
    var dns := DiffDnsIntel(lib, previous, current);
    var soa := DiffSoa(lib, previous, current);
    r := ct + DiffDmarc(lib, previous, current) + DiffMailPosture(lib, previous, current) + dns + soa;
  }

  ghost predicate IsPageReport(lib: Lib, previous: Document, current: Document, k: Picks, r: seq<Entry>) {
    Possible(lib, previous, current, k) && r == PageParts(lib, previous, current, k)
  }

  lemma WebIgnoresKeys(lib: Lib, previous: Document, current: Document, k: Picks, ps: seq<string>, ks: seq<string>)
    requires WebPossible(lib, Section(previous, "web"), Section(current, "web"), k)
    ensures var k' := k.(prevKeys := ps, curKeys := ks);
            WebPossible(lib, Section(previous, "web"), Section(current, "web"), k')
                && Web(lib, previous, current, k') == Web(lib, previous, current, k)
  {
  }

  method DiffPages(lib: Lib, previous: Document, current: Document) returns (r: seq<Entry>)
    ensures exists k :: IsPageReport(lib, previous, current, k, r)
  {
    var crawl := DiffCrawl(lib, previous, current);
    var web := DiffWeb(lib, previous, current);
    ghost var k :| WebPossible(lib, Section(previous, "web"), Section(current, "web"), k)
        && web == Web(lib, previous, current, k);
    var generic := DiffGeneric(previous, current);
    ghost var ps, ks :| IsGeneric(previous, current, ps, ks, generic);
    PagesTogether(lib, previous, current, k, ps, ks, crawl, web, generic);
    r := crawl + web + generic;
  }

  lemma PagesTogether(lib: Lib, previous: Document, current: Document, k: Picks, ps: seq<string>, ks: seq<string>,
                      crawl: seq<Entry>, web: seq<Entry>, generic: seq<Entry>)
    requires crawl == Crawl(lib, previous, current)
    requires WebPossible(lib, Section(previous, "web"), Section(current, "web"), k)
        && web == Web(lib, previous, current, k)
    requires IsGeneric(previous, current, ps, ks, generic)
    ensures IsPageReport(lib, previous, current, k.(prevKeys := ps, curKeys := ks), crawl + web + generic)
  {
    WebIgnoresKeys(lib, previous, current, k, ps, ks);
  }

  /** What Compute may return: the eleven parts for some picks, in an order in which severity never rises. */
  ghost predicate IsReport(lib: Lib, previous: Document, current: Document, k: Picks, r: seq<Entry>) {
    && Possible(lib, previous, current, k)
    && multiset(r) == multiset(Parts(lib, previous, current, k))
    && Ordered(MoreSevere, r)
  }

  /** Compute: nothing without a previous scan or a current one; else a rearrangement of the eleven parts in which
      severity never rises. */
  method Compute(lib: Lib, previous: Document, current: Option<Document>) returns (r: seq<Entry>)
    ensures previous == map[] || current.None? ==> r == []
    ensures previous != map[] && current.Some? ==> exists k :: IsReport(lib, previous, current.value, k, r)
  {
    if previous == map[] || current.None? {
      return [];
    }
    var network := DiffNetwork(lib, previous, current.value);
    var names := DiffNamesAndMail(lib, previous, current.value);
    var pages := DiffPages(lib, previous, current.value);
    ghost var k :| IsPageReport(lib, previous, current.value, k, pages);
    r := SortEntries(network + names + pages);
    PartsTogether(lib, previous, current.value, k, network, names, pages, r);
  }

  method SortEntries(entries: seq<Entry>) returns (r: seq<Entry>)
    ensures multiset(r) == multiset(entries) && Ordered(MoreSevere, r)
  {
    r := SortSlice(MoreSevere, entries);
  }

  lemma PartsTogether(lib: Lib, previous: Document, current: Document, k: Picks, network: seq<Entry>,
                      names: seq<Entry>, pages: seq<Entry>, r: seq<Entry>)
    requires network == NetworkParts(lib, previous, current) && names == NameParts(lib, previous, current)
    requires IsPageReport(lib, previous, current, k, pages)
    requires multiset(r) == multiset(network + names + pages) && Ordered(MoreSevere, r)
    ensures IsReport(lib, previous, current, k, r)
  {
  }

  /** What a minimum severity lets through. */
  function AtLeast(r: seq<Entry>, least: Severity): seq<Entry> {
    if r == [] then []
    else
      var before := AtLeast(r[..|r| - 1], least);
      if Rank(r[|r| - 1].severity) >= Rank(least) then before + [r[|r| - 1]] else before
  }

  lemma {:induction false} AllPass(r: seq<Entry>, least: Severity)
    requires forall i :: 0 <= i < |r| ==> Rank(r[i].severity) >= Rank(least)
    ensures AtLeast(r, least) == r
  {
    if r != [] {
      AllPass(r[..|r| - 1], least);
    }
  }

  /** Severity never rises along a report, so any minimum severity lets a prefix of it through. */
  lemma {:induction false} SeverestFirst(r: seq<Entry>, least: Severity)
    requires Ordered(MoreSevere, r)
    ensures AtLeast(r, least) <= r
  {
    if r != [] {
      var before, last := r[..|r| - 1], r[|r| - 1];
      SeverestFirst(before, least);
      if Rank(last.severity) >= Rank(least) {
        forall i | 0 <= i < |before| ensures Rank(before[i].severity) >= Rank(least) {
          assert !MoreSevere(r[|r| - 1], r[i]);
        }
        AllPass(before, least);
      }
    }
  }
}
