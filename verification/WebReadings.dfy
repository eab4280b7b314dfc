/** What the comparison of scans reads of WordPress items, headers and certificates, said without its readers. */
module WebReadings {
  import opened Common
  import opened Text
  import opened TextFacts
  import opened Json
  import opened Values
  import opened Readings
  import opened DiffEntries
  import opened ListDiffs
  import opened SectionDiffs
  import opened DiffReadings
  import opened DiffSilence

  /** A field in small letters. */
  ghost predicate LowerReads(lib: Lib, m: Option<Document>, key: string, s: string) {
    exists t :: FieldReads(lib, m, key, t) && s == ToLower(lib, t)
  }

  lemma LoweredIs(lib: Lib, m: Option<Document>, key: string, s: string)
    ensures ToLower(lib, StringVal(lib, m, key)) == s <==> LowerReads(lib, m, key, s)
  {
    StringValIs(lib, m, key, StringVal(lib, m, key));
    forall t | FieldReads(lib, m, key, t) ensures t == StringVal(lib, m, key) { StringValIs(lib, m, key, t); }
  }

  // ---- WordPress ----

  /** Item `i` of the list has the slug, in any case. */
  ghost predicate HasSlug(lib: Lib, items: seq<Json>, slug: string, i: nat) {
    slug != "" && i < |items| && items[i].Obj? && LowerReads(lib, Some(items[i].fields), "slug", slug)
  }

  /** And is the last to have it, with this version. */
  ghost predicate LastVersion(lib: Lib, items: seq<Json>, slug: string, version: string, i: nat) {
    && HasSlug(lib, items, slug, i) && FieldReads(lib, Some(items[i].fields), "version", version)
    && forall j: nat :: i < j ==> !HasSlug(lib, items, slug, j)
  }

  lemma SlugIs(lib: Lib, items: seq<Json>, slug: string, i: nat)
    requires i < |items| && slug != ""
    ensures Slug(lib, items[i]) == slug <==> HasSlug(lib, items, slug, i)
  {
    if items[i].Obj? { LoweredIs(lib, Some(items[i].fields), "slug", slug); }
  }

  lemma VersionsAre(lib: Lib, items: seq<Json>, slug: string, version: string)
    ensures slug in Versions(lib, items) && Versions(lib, items)[slug] == version <==>
            exists i: nat :: LastVersion(lib, items, slug, version, i)
  {
    if slug in Versions(lib, items) {
      var i := VersionHasItem(lib, items, slug);
      LastVersionCounts(lib, items, slug, i);
      LastSlugs(lib, items, slug, i);
      StringValIs(lib, Some(items[i].fields), "version", version);
      assert Versions(lib, items)[slug] == version ==> LastVersion(lib, items, slug, version, i);
      forall j: nat | LastVersion(lib, items, slug, version, j) ensures j == i {
      }
    }
    if i: nat :| LastVersion(lib, items, slug, version, i) {
      LastSlugs(lib, items, slug, i);
      LastVersionCounts(lib, items, slug, i);
    }
  }

  lemma LastSlugs(lib: Lib, items: seq<Json>, slug: string, i: nat)
    requires i < |items| && slug != ""
    ensures IsLast(lib, items, slug, i) <==>
            HasSlug(lib, items, slug, i) && forall j: nat :: i < j ==> !HasSlug(lib, items, slug, j)
  {
    forall j: nat | j < |items| ensures Slug(lib, items[j]) == slug <==> HasSlug(lib, items, slug, j) {
      SlugIs(lib, items, slug, j);
    }
  }

  /** The plugins and themes of a page with their versions: those of the last item listed with the slug. */
  lemma PluginsAre(lib: Lib, web: Option<Document>, slug: string, version: string)
    ensures slug in PluginsOf(lib, web) && PluginsOf(lib, web)[slug] == version <==>
            exists i: nat :: LastVersion(lib, Items(web, "wordpress_plugins"), slug, version, i)
    ensures slug in ThemesOf(lib, web) && ThemesOf(lib, web)[slug] == version <==>
            exists i: nat :: LastVersion(lib, Items(web, "wordpress_themes"), slug, version, i)
  {
    VersionsAre(lib, Items(web, "wordpress_plugins"), slug, version);
    VersionsAre(lib, Items(web, "wordpress_themes"), slug, version);
  }

  // ---- Headers ----

  /** The lookup may return the value: of the header with this very name, or if there is none, of any that has it up to
      case, or if there is none, nothing. */
  ghost predicate LookedUp(lib: Lib, headers: Option<Document>, key: string, v: string) {
    if headers.Some? && key in headers.value then PrintsTrimmed(lib, headers.value[key], v)
    else if headers.Some? && exists k :: NamedAlike(lib, headers.value, key, k)
    then exists k :: NamedAlike(lib, headers.value, key, k) && PrintsTrimmed(lib, headers.value[k], v)
    else v == ""
  }

  predicate NamedAlike(lib: Lib, headers: Document, key: string, k: string) {
    k in headers && ToLower(lib, k) == ToLower(lib, key)
  }

  lemma HeaderIs(lib: Lib, headers: Option<Document>, key: string, v: string)
    ensures MayRead(lib, headers, key, v) <==> LookedUp(lib, headers, key, v)
  {
    if headers.Some? {
      var hs := headers.value;
      forall k | k in hs ensures HeaderText(lib, hs, k) == v <==> PrintsTrimmed(lib, hs[k], v) {
        PrintsTrimmedIff(lib, hs[k], v);
      }
      forall k
        ensures k in Candidates(lib, hs, key) <==> if key in hs then k == key else NamedAlike(lib, hs, key, k)
      {
      }
      if k :| k in Candidates(lib, hs, key) {
        assert Candidates(lib, hs, key) != {};
      }
    }
  }

  // ---- Certificates ----

  /** Certificate `i` of the list has the serial. */
  ghost predicate HasSerial(lib: Lib, items: seq<Json>, serial: string, i: nat) {
    i < |items| && items[i].Obj? && FieldReads(lib, Some(items[i].fields), "serial", serial)
  }

  /** A serial counts as known if a certificate listed has it. */
  lemma CertifiedIff(lib: Lib, ct: Option<Document>, serial: string)
    ensures Certified(lib, ct, serial) <==> exists i: nat :: HasSerial(lib, Items(ct, "certificates"), serial, i)
  {
    var items := Items(ct, "certificates");
    var at := ObjectsAre(items);
    if Certified(lib, ct, serial) {
      var k :| 0 <= k < |Objects(items)| && StringVal(lib, Some(Objects(items)[k]), "serial") == serial;
      StringValIs(lib, Some(Objects(items)[k]), "serial", serial);
      assert HasSerial(lib, items, serial, at[k]);
    }
    if i: nat :| HasSerial(lib, items, serial, i) {
      StringValIs(lib, Some(items[i].fields), "serial", serial);
      var k :| 0 <= k < |at| && at[k] == i;
      assert Objects(items)[k] == items[i].fields;
    }
  }
}
