/** Exporting a store and importing the bundle into an empty one. */
module BundleRoundTrip {
  import opened Common
  import opened BundleMerge
  import opened Bundle
  import opened BundleTheorems
  import opened BundleConstraints
  import opened BundleOrder
  import Sorting
  import Base64
  import NamedProofs
  import ByIdProofs
  import PutProofs

  // ---- The store that comes back ----

  function RestoredTarget(env: Env, r: Named<TargetDetails>): Named<TargetDetails> {
    var exported := OrElse(r.details.normalizedHost, "");
    r.(details := TargetDetails(Some(if exported == "" then env.normalizeHost(r.key) else exported),
        Some(OrElse(r.details.tags, []))))
  }

  function RestoredSnapshot(r: SnapshotRow): SnapshotRow {
    r.(changes := Some(OrElse(r.changes, [])), changeDetails := Some(OrElse(r.changeDetails, [])),
        clientIp := Some(OrElse(r.clientIp, "")))
  }

  function RestoredTargets(env: Env, rows: map<Id, Named<TargetDetails>>): (r: map<Id, Named<TargetDetails>>)
    ensures r.Keys == rows.Keys
  {
    map k | k in rows :: RestoredTarget(env, rows[k])
  }

  function RestoredSnapshots(rows: map<Id, SnapshotRow>): (r: map<Id, SnapshotRow>)
    ensures r.Keys == rows.Keys
  {
    map k | k in rows :: RestoredSnapshot(rows[k])
  }

  function RestoredBlobs(now: Time, rows: BlobRows): (r: BlobRows)
    ensures r.Keys == rows.Keys
  {
    map k | k in rows :: rows[k].(fixed := rows[k].fixed.(createdAt := now))
  }

  /** The source store with its nullable columns filled in and new timestamps where the bundle carries none. */
  function Restored(env: Env, t: Tables): Tables {
    t.(targets := RestoredTargets(env, t.targets),
       snapshots := RestoredSnapshots(t.snapshots),
       blobs := RestoredBlobs(env.now, t.blobs),
       settings := if SettingsOut(t.settings).Some? then Some(SettingsRow(t.settings.value.value, env.now)) else None)
  }

  /** Blobs and configuration included. */
  predicate Full(opts: ExportOptions) {
    opts.includeBlobs && opts.includeConfig
  }

  // ---- Each table's items list the restored table ----

  /** The items converted from a listing are named as the listing is. */
  lemma SameNames<K(!new), R(!new), X(!new)>(rows: map<K, R>, xs: seq<X>, key: X -> K, out: (K, R) -> X, names: seq<K>)
    requires Lists(rows, xs, key, out) && |names| == |xs| && forall j :: 0 <= j < |xs| ==> names[j] == key(xs[j])
    ensures forall i, j :: 0 <= i < j < |names| ==> names[i] != names[j]
    ensures forall k :: k in rows <==> exists j :: 0 <= j < |names| && names[j] == k
  {
    forall k ensures k in rows <==> exists j :: 0 <= j < |names| && names[j] == k {
      if k in rows {
        var j :| 0 <= j < |xs| && key(xs[j]) == k;
        assert names[j] == k;
      }
    }
  }

  lemma NamedListed<R(!new), X(!new), A(!new)>(rows: map<Id, R>, xs: seq<X>, key: X -> Id, out: (Id, R) -> X,
                                               to: map<Id, Named<A>>, items: seq<NamedItem<A>>)
    requires Lists(rows, xs, key, out) && to.Keys == rows.Keys && |items| == |xs|
    requires forall j :: 0 <= j < |xs| ==>
        items[j].id == key(xs[j]) && items[j].id in to && items[j].row == to[items[j].id]
    ensures NamedProofs.Enumerates(to, items)
  {
    var names := Map((x: NamedItem<A>) => x.id, items);
    SameNames(rows, xs, key, out, names);
    assert forall j :: 0 <= j < |items| ==> names[j] == items[j].id;
    forall k ensures k in to <==> NamedProofs.Seen(items, |items|, k) {
      if k in to { var j :| 0 <= j < |names| && names[j] == k; assert items[j].id == k; }
    }
  }

  lemma ByIdListed<R(!new), X(!new), S(!new)>(rows: map<Id, R>, xs: seq<X>, key: X -> Id, out: (Id, R) -> X,
                                              to: map<Id, S>, items: seq<ByIdItem<S>>)
    requires Lists(rows, xs, key, out) && to.Keys == rows.Keys && |items| == |xs|
    requires forall j :: 0 <= j < |xs| ==>
        items[j].id == key(xs[j]) && items[j].id in to && items[j].row == Some(to[items[j].id])
    ensures ByIdProofs.Enumerates(to, items)
  {
    var names := Map((x: ByIdItem<S>) => x.id, items);
    SameNames(rows, xs, key, out, names);
    assert forall j :: 0 <= j < |items| ==> names[j] == items[j].id;
    forall k ensures k in to <==> exists j :: 0 <= j < |items| && items[j].id == k {
      if k in to { var j :| 0 <= j < |names| && names[j] == k; assert items[j].id == k; }
    }
  }

  lemma PutListed<K(!new), R(!new), X(!new), F(!new), S(!new)>(rows: map<K, R>, xs: seq<X>, key: X -> K,
      out: (K, R) -> X,
      to: map<K, Slot<F, S>>, items: seq<PutItem<K, F, S>>)
    requires Lists(rows, xs, key, out) && to.Keys == rows.Keys && |items| == |xs|
    requires forall j :: 0 <= j < |xs| ==>
        items[j].key == key(xs[j]) && items[j].key in to && items[j].slot == to[items[j].key]
    ensures PutProofs.Enumerates(to, items)
  {
    var names := Map((x: PutItem<K, F, S>) => x.key, items);
    SameNames(rows, xs, key, out, names);
    assert forall j :: 0 <= j < |items| ==> names[j] == items[j].key;
    forall k ensures k in to <==> exists j :: 0 <= j < |items| && items[j].key == k {
      if k in to { var j :| 0 <= j < |names| && names[j] == k; assert items[j].key == k; }
    }
  }

  lemma TargetsListed(env: Env, t: Tables, xs: seq<ExportTarget>)
    requires Lists(t.targets, xs, TargetId, TargetOut)
    ensures NamedProofs.Enumerates(RestoredTargets(env, t.targets), TargetItems(env, xs))
  {
    NamedListed(t.targets, xs, TargetId, TargetOut, RestoredTargets(env, t.targets), TargetItems(env, xs));
  }

  lemma SnapshotsListed(env: Env, t: Tables, xs: seq<ExportSnapshot>)
    requires Valid(t) && Lists(t.snapshots, xs, SnapshotId, SnapshotOut)
    ensures ByIdProofs.Enumerates(RestoredSnapshots(t.snapshots), SnapshotItems(Identity(t.targets.Keys), xs))
  {
    var to := RestoredSnapshots(t.snapshots);
    forall j | 0 <= j < |xs| ensures SnapshotItem(Identity(t.targets.Keys), xs[j]).row == Some(to[SnapshotId(xs[j])]) {
      SnapshotArrives(env, t, SnapshotId(xs[j]), xs[j]);
    }
    ByIdListed(t.snapshots, xs, SnapshotId, SnapshotOut, to, SnapshotItems(Identity(t.targets.Keys), xs));
  }

  lemma SnapshotArrives(env: Env, t: Tables, k: Id, x: ExportSnapshot)
    requires Valid(t) && k in t.snapshots && x == SnapshotOut(k, t.snapshots[k])
    ensures SnapshotItem(Identity(t.targets.Keys), x).row == Some(RestoredSnapshots(t.snapshots)[k])
  {
  }

  lemma BlobsListed(env: Env, t: Tables, xs: seq<ExportBlob>)
    requires Lists(t.blobs, xs, BlobKey, BlobOut)
    ensures PutProofs.Enumerates(RestoredBlobs(env.now, t.blobs), BlobItems(env.now, xs))
    ensures forall j :: 0 <= j < |xs| ==> Decodes(xs[j])
  {
    var to := RestoredBlobs(env.now, t.blobs);
    forall j | 0 <= j < |xs| ensures Decodes(xs[j]) && BlobItem(env.now, xs[j]).slot == to[BlobKey(xs[j])] {
      BlobArrives(env, t, BlobKey(xs[j]), xs[j]);
    }
    PutListed(t.blobs, xs, BlobKey, BlobOut, to, BlobItems(env.now, xs));
  }

  lemma BlobArrives(env: Env, t: Tables, k: (Id, string), x: ExportBlob)
    requires k in t.blobs && x == BlobOut(k, t.blobs[k])
    ensures Decodes(x) && BlobItem(env.now, x).slot == RestoredBlobs(env.now, t.blobs)[k]
  {
    Base64.GoRoundTrip(t.blobs[k].soft.data);
  }

  lemma CollectionsListed(t: Tables, xs: seq<ExportCollection>)
    requires Lists(t.collections, xs, CollectionId, CollectionOut)
    ensures NamedProofs.Enumerates(t.collections, CollectionItems(xs))
  {
    NamedListed(t.collections, xs, CollectionId, CollectionOut, t.collections, CollectionItems(xs));
  }

  function MemberItem(x: ExportMember): PutItem<(Id, Id), (), Time> {
    PutItem((x.collectionId, x.targetId), Slot((), x.addedAt))
  }

  lemma {:induction false} AllMembersKnown(collections: set<Id>, targets: set<Id>, xs: seq<ExportMember>)
    requires forall j :: 0 <= j < |xs| ==> xs[j].collectionId in collections && xs[j].targetId in targets
    ensures MemberItems(Identity(collections), Identity(targets), xs) == Map(MemberItem, xs)
  {
    if xs != [] {
      AllMembersKnown(collections, targets, xs[..|xs| - 1]);
    }
  }

  lemma MembersKnown(t: Tables, xs: seq<ExportMember>)
    requires Valid(t) && Lists(t.members, xs, MemberKey, MemberOut)
    ensures MemberItems(Identity(t.collections.Keys), Identity(t.targets.Keys), xs) == Map(MemberItem, xs)
  {
    forall j | 0 <= j < |xs| ensures xs[j].collectionId in t.collections && xs[j].targetId in t.targets {
      assert MemberKey(xs[j]) in t.members;
    }
    AllMembersKnown(t.collections.Keys, t.targets.Keys, xs);
  }

  lemma MembersListed(t: Tables, xs: seq<ExportMember>)
    requires Valid(t) && Lists(t.members, xs, MemberKey, MemberOut)
    ensures PutProofs.Enumerates(t.members, MemberItems(Identity(t.collections.Keys), Identity(t.targets.Keys), xs))
    ensures |MemberItems(Identity(t.collections.Keys), Identity(t.targets.Keys), xs)| == |xs|
  {
    MembersKnown(t, xs);
    forall j | 0 <= j < |xs| ensures MemberItem(xs[j]).slot == t.members[MemberKey(xs[j])] {
      NothingFixed(t.members[MemberKey(xs[j])]);
    }
    PutListed(t.members, xs, MemberKey, MemberOut, t.members, Map(MemberItem, xs));
  }

  lemma NotesListed(t: Tables, xs: seq<ExportNote>)
    requires Lists(t.notes, xs, NoteId, NoteOut)
    ensures ByIdProofs.Enumerates(t.notes, NoteItems(Identity(t.collections.Keys), Identity(t.targets.Keys), xs))
  {
    ByIdListed(t.notes, xs, NoteId, NoteOut, t.notes,
        NoteItems(Identity(t.collections.Keys), Identity(t.targets.Keys), xs));
  }

  lemma ViewsListed(t: Tables, xs: seq<ExportView>)
    requires Lists(t.views, xs, ViewId, ViewOut)
    ensures ByIdProofs.Enumerates(t.views, ViewItems(Identity(t.targets.Keys), xs))
  {
    ByIdListed(t.views, xs, ViewId, ViewOut, t.views, ViewItems(Identity(t.targets.Keys), xs));
  }

  lemma WebhooksListed(t: Tables, xs: seq<ExportWebhook>)
    requires Lists(t.webhooks, xs, WebhookId, WebhookOut)
    ensures PutProofs.Enumerates(t.webhooks, WebhookItems(xs))
  {
    PutListed(t.webhooks, xs, WebhookId, WebhookOut, t.webhooks, WebhookItems(xs));
  }

  lemma ConstraintsHereditary(targets: set<Id>, snapshots: set<Id>, collections: set<Id>)
    ensures ByIdProofs.Hereditary(SnapshotsOk(targets))
        && ByIdProofs.Hereditary(NotesOk(targets, snapshots, collections))
    ensures ByIdProofs.Hereditary(ViewsOk(targets, snapshots))
    ensures PutProofs.Hereditary(BlobsOk(snapshots)) && PutProofs.Hereditary(MembersOk(collections, targets))
    ensures PutProofs.Hereditary(WebhooksOk())
  {
  }

  lemma RestoredReferences(env: Env, t: Tables)
    requires Valid(t)
    ensures UniqueKeys(RestoredTargets(env, t.targets))
    ensures SnapshotsOk(t.targets.Keys)(RestoredSnapshots(t.snapshots))
    ensures BlobsOk(t.snapshots.Keys)(RestoredBlobs(env.now, t.blobs))
  {
  }

  /** Nothing was skipped, and every row of the source is counted. */
  ghost predicate AllImported(b: ExportBundle, r: ImportResult) {
    && r == ImportResult(|b.targets|, 0, |b.snapshots|, 0, |b.blobs|, |b.collections|, 0, |b.members|, |b.notes|, 0,
                         |b.views|, 0, |b.webhooks|, b.settings.Some?)
  }

  lemma TargetsArrive(env: Env, t: Tables, b: ExportBundle, p: Policy)
    requires Valid(t) && Lists(t.targets, b.targets, TargetId, TargetOut)
    ensures TargetPhase(env, EmptyTables, b, p)
        == Ok(NamedState(RestoredTargets(env, t.targets), Identity(t.targets.Keys), |b.targets|, 0))
  {
    RestoredReferences(env, t);
    TargetsListed(env, t, b.targets);
    NamedProofs.CopyNamed(p, RestoredTargets(env, t.targets), TargetItems(env, b.targets));
    assert RestoredTargets(env, t.targets).Keys == t.targets.Keys;
  }

  lemma SnapshotsArrive(env: Env, t: Tables, b: ExportBundle, p: Policy, ts: NamedState<TargetDetails>)
    requires Valid(t) && Lists(t.snapshots, b.snapshots, SnapshotId, SnapshotOut)
        && ts.idMap == Identity(t.targets.Keys) && ts.rows.Keys == t.targets.Keys
    ensures SnapshotPhase(EmptyTables, b, p, ts) == Ok(ByIdState(RestoredSnapshots(t.snapshots), |b.snapshots|, 0))
  {
    RestoredReferences(env, t);
    ConstraintsHereditary(t.targets.Keys, {}, {});
    SnapshotsListed(env, t, b.snapshots);
    ByIdProofs.CopyById(p, SnapshotsOk(t.targets.Keys), RestoredSnapshots(t.snapshots),
        SnapshotItems(Identity(t.targets.Keys), b.snapshots));
  }

  lemma BlobsArrive(env: Env, t: Tables, b: ExportBundle, sn: ByIdState<SnapshotRow>)
    requires Valid(t) && Lists(t.blobs, b.blobs, BlobKey, BlobOut) && sn.rows.Keys == t.snapshots.Keys
    ensures BlobPhase(env, EmptyTables, b, sn) == Ok(RestoredBlobs(env.now, t.blobs))
  {
    RestoredReferences(env, t);
    ConstraintsHereditary({}, t.snapshots.Keys, {});
    BlobsListed(env, t, b.blobs);
    PutProofs.CopyPut(BlobsOk(t.snapshots.Keys), RestoredBlobs(env.now, t.blobs), BlobItems(env.now, b.blobs));
    PutBlobsIs(env.now, t.snapshots.Keys, map[], b.blobs);
  }

  lemma CollectionsArrive(t: Tables, b: ExportBundle, p: Policy)
    requires Valid(t) && Lists(t.collections, b.collections, CollectionId, CollectionOut)
    ensures CollectionPhase(EmptyTables, b, p)
        == Ok(NamedState(t.collections, Identity(t.collections.Keys), |b.collections|, 0))
  {
    CollectionsListed(t, b.collections);
    NamedProofs.CopyNamed(p, t.collections, CollectionItems(b.collections));
  }

  lemma MembersArrive(t: Tables, b: ExportBundle, ts: NamedState<TargetDetails>, co: NamedState<CollectionDetails>)
    requires Valid(t) && Lists(t.members, b.members, MemberKey, MemberOut) && ts.idMap == Identity(t.targets.Keys)
        && ts.rows.Keys == t.targets.Keys
    requires co.idMap == Identity(t.collections.Keys) && co.rows.Keys == t.collections.Keys
    ensures MemberPhase(EmptyTables, b, ts, co) == Ok(t.members)
    ensures |MemberItems(co.idMap, ts.idMap, b.members)| == |b.members|
  {
    ConstraintsHereditary(t.targets.Keys, {}, t.collections.Keys);
    MembersListed(t, b.members);
    PutProofs.CopyPut(MembersOk(t.collections.Keys, t.targets.Keys), t.members,
        MemberItems(co.idMap, ts.idMap, b.members));
  }

  lemma NotesArrive(t: Tables, b: ExportBundle, p: Policy, ts: NamedState<TargetDetails>, sn: ByIdState<SnapshotRow>,
                    co: NamedState<CollectionDetails>)
    requires Valid(t) && Lists(t.notes, b.notes, NoteId, NoteOut) && ts.idMap == Identity(t.targets.Keys)
        && ts.rows.Keys == t.targets.Keys
    requires co.idMap == Identity(t.collections.Keys) && co.rows.Keys == t.collections.Keys
        && sn.rows.Keys == t.snapshots.Keys
    ensures NotePhase(EmptyTables, b, p, ts, sn, co) == Ok(ByIdState(t.notes, |b.notes|, 0))
  {
    ConstraintsHereditary(t.targets.Keys, t.snapshots.Keys, t.collections.Keys);
    NotesListed(t, b.notes);
    ByIdProofs.CopyById(p, NotesOk(t.targets.Keys, t.snapshots.Keys, t.collections.Keys), t.notes,
        NoteItems(co.idMap, ts.idMap, b.notes));
  }

  lemma ViewsArrive(t: Tables, b: ExportBundle, p: Policy, ts: NamedState<TargetDetails>, sn: ByIdState<SnapshotRow>)
    requires Valid(t) && Lists(t.views, b.views, ViewId, ViewOut) && ts.idMap == Identity(t.targets.Keys)
        && ts.rows.Keys == t.targets.Keys
    requires sn.rows.Keys == t.snapshots.Keys
    ensures ViewPhase(EmptyTables, b, p, ts, sn) == Ok(ByIdState(t.views, |b.views|, 0))
  {
    ConstraintsHereditary(t.targets.Keys, t.snapshots.Keys, {});
    ViewsListed(t, b.views);
    ByIdProofs.CopyById(p, ViewsOk(t.targets.Keys, t.snapshots.Keys), t.views, ViewItems(ts.idMap, b.views));
  }

  lemma WebhooksArrive(t: Tables, b: ExportBundle)
    requires Lists(t.webhooks, b.webhooks, WebhookId, WebhookOut)
    ensures WebhookPhase(EmptyTables, b) == Ok(t.webhooks)
  {
    ConstraintsHereditary({}, {}, {});
    WebhooksListed(t, b.webhooks);
    PutProofs.CopyPut(WebhooksOk(), t.webhooks, WebhookItems(b.webhooks));
  }

  /** Importing a full export into an empty store succeeds under either policy, skips nothing, and gives
      back the source store with its nulls filled in. */
  lemma ImportOfExport(env: Env, t: Tables, opts: ExportOptions, b: ExportBundle, conflict: string)
    requires Valid(t) && Full(opts) && IsExport(t, opts, b) && PolicyOf(env, conflict).Some?
    ensures var r := Import(env, EmptyTables, Some(b), conflict);
            r.Ok? && r.value.0 == Restored(env, t) && AllImported(b, r.value.1)
  {
    ExportArrives(env, t, opts, b, PolicyOf(env, conflict).value);
    ImportByPhases(env, EmptyTables, b, conflict, ArrivedPhases(env, t, b));
    ResultArrives(env, t, b);
  }

  /** What the loops leave behind. */
  function ArrivedPhases(env: Env, t: Tables, b: ExportBundle): Phases {
    Phases(NamedState(RestoredTargets(env, t.targets), Identity(t.targets.Keys), |b.targets|, 0),
           ByIdState(RestoredSnapshots(t.snapshots), |b.snapshots|, 0), RestoredBlobs(env.now, t.blobs),
           NamedState(t.collections, Identity(t.collections.Keys), |b.collections|, 0), t.members,
           ByIdState(t.notes, |b.notes|, 0), ByIdState(t.views, |b.views|, 0), t.webhooks)
  }

  lemma ResultArrives(env: Env, t: Tables, b: ExportBundle)
    requires |MemberItems(Identity(t.collections.Keys), Identity(t.targets.Keys), b.members)| == |b.members|
    ensures AllImported(b, ResultOf(b, ArrivedPhases(env, t, b)))
  {
  }

  lemma ExportArrives(env: Env, t: Tables, opts: ExportOptions, b: ExportBundle, p: Policy)
    requires Valid(t) && Full(opts) && IsExport(t, opts, b)
    ensures Ran(env, EmptyTables, b, p, ArrivedPhases(env, t, b))
    ensures |MemberItems(Identity(t.collections.Keys), Identity(t.targets.Keys), b.members)| == |b.members|
  {
    var ph := ArrivedPhases(env, t, b);
    TargetsArrive(env, t, b, p);
    SnapshotsArrive(env, t, b, p, ph.targets);
    BlobsArrive(env, t, b, ph.snapshots);
    CollectionsArrive(t, b, p);
    MembersArrive(t, b, ph.targets, ph.collections);
    NotesArrive(t, b, p, ph.targets, ph.snapshots, ph.collections);
    ViewsArrive(t, b, p, ph.targets, ph.snapshots);
    WebhooksArrive(t, b);
  }

  // ---- Exporting again ----

  /** The same items in every list, as often, in whatever order. */
  ghost predicate SameContents(a: ExportBundle, b: ExportBundle) {
    && a.formatVersion == b.formatVersion
    && multiset(a.targets) == multiset(b.targets)
    && multiset(a.snapshots) == multiset(b.snapshots)
    && multiset(a.blobs) == multiset(b.blobs)
    && multiset(a.collections) == multiset(b.collections)
    && multiset(a.members) == multiset(b.members)
    && multiset(a.notes) == multiset(b.notes)
    && multiset(a.views) == multiset(b.views)
    && multiset(a.webhooks) == multiset(b.webhooks)
    && a.settings == b.settings
  }

  lemma SameListing<K(!new), R(!new), X(!new)>(rows: map<K, R>, others: map<K, R>, items: seq<X>, again: seq<X>,
      key: X -> K, out: (K, R) -> X)
    requires Lists(rows, items, key, out) && Lists(others, again, key, out)
    requires rows.Keys == others.Keys && forall k :: k in rows ==> out(k, rows[k]) == out(k, others[k])
    ensures multiset(items) == multiset(again)
  {
    ListingDistinct(rows, items, key, out);
    ListingDistinct(others, again, key, out);
    forall x ensures x in items <==> x in again {
      if x in items {
        var j :| 0 <= j < |again| && key(again[j]) == key(x);
        assert again[j] == x;
      }
      if x in again {
        var j :| 0 <= j < |items| && key(items[j]) == key(x);
        assert items[j] == x;
      }
    }
    DistinctSameElements(items, again);
  }

  lemma ListingDistinct<K(!new), R(!new), X(!new)>(rows: map<K, R>, items: seq<X>, key: X -> K, out: (K, R) -> X)
    requires Lists(rows, items, key, out)
    ensures Distinct(items)
  {
    forall i, j | 0 <= i < j < |items| ensures items[i] != items[j] {
      assert key(items[i]) != key(items[j]);
    }
  }

  /** No target exports an empty normalized host that the import would fill in. */
  predicate HostsNormalized(env: Env, t: Tables) {
    forall k :: k in t.targets ==>
      OrElse(t.targets[k].details.normalizedHost, "") != "" || env.normalizeHost(t.targets[k].key) == ""
  }

  lemma TargetOutSame(env: Env, k: Id, r: Named<TargetDetails>)
    ensures TargetOut(k, RestoredTarget(env, r)) == TargetOut(k, r) <==>
            OrElse(r.details.normalizedHost, "") != "" || env.normalizeHost(r.key) == ""
  {
  }

  lemma TargetsSameIfNormalized(env: Env, t: Tables, b: ExportBundle, again: ExportBundle)
    requires Lists(t.targets, b.targets, TargetId, TargetOut)
        && Lists(RestoredTargets(env, t.targets), again.targets, TargetId, TargetOut)
    requires HostsNormalized(env, t)
    ensures multiset(b.targets) == multiset(again.targets)
  {
    var u := RestoredTargets(env, t.targets);
    assert u.Keys == t.targets.Keys;
    forall k | k in t.targets ensures TargetOut(k, t.targets[k]) == TargetOut(k, u[k]) {
      TargetOutSame(env, k, t.targets[k]);
    }
    SameListing(t.targets, u, b.targets, again.targets, TargetId, TargetOut);
  }

  lemma NormalizedIfTargetsSame(env: Env, t: Tables, b: ExportBundle, again: ExportBundle)
    requires Lists(t.targets, b.targets, TargetId, TargetOut)
        && Lists(RestoredTargets(env, t.targets), again.targets, TargetId, TargetOut)
    requires multiset(b.targets) == multiset(again.targets)
    ensures HostsNormalized(env, t)
  {
    forall k | k in t.targets
      ensures OrElse(t.targets[k].details.normalizedHost, "") != "" || env.normalizeHost(t.targets[k].key) == ""
    {
      var j :| 0 <= j < |b.targets| && TargetId(b.targets[j]) == k;
      assert b.targets[j] in multiset(again.targets);
      var i :| 0 <= i < |again.targets| && again.targets[i] == b.targets[j];
      assert TargetId(again.targets[i]) == k;
      TargetOutSame(env, k, t.targets[k]);
    }
  }

  lemma OthersSame(env: Env, t: Tables, opts: ExportOptions, b: ExportBundle, again: ExportBundle)
    requires Full(opts) && IsExport(t, opts, b) && IsExport(Restored(env, t), opts, again)
    ensures SameContents(b.(targets := []), again.(targets := []))
  {
    var u := Restored(env, t);
    SameListing(t.snapshots, u.snapshots, b.snapshots, again.snapshots, SnapshotId, SnapshotOut);
    SameListing(t.blobs, u.blobs, b.blobs, again.blobs, BlobKey, BlobOut);
    SameListing(t.collections, u.collections, b.collections, again.collections, CollectionId, CollectionOut);
    SameListing(t.members, u.members, b.members, again.members, MemberKey, MemberOut);
    SameListing(t.notes, u.notes, b.notes, again.notes, NoteId, NoteOut);
    SameListing(t.views, u.views, b.views, again.views, ViewId, ViewOut);
    SameListing(t.webhooks, u.webhooks, b.webhooks, again.webhooks, WebhookId, WebhookOut);
  }

  lemma SameOrderAgain(env: Env, t: Tables, opts: ExportOptions, b: ExportBundle, again: ExportBundle)
    requires Full(opts) && Sorting.StrictWeak(opts.nameBefore)
    requires IsExport(t, opts, b) && IsExport(Restored(env, t), opts, again)
    ensures InSameOrder(opts, b, again)
  {
    TargetsAlike(t.targets, RestoredTargets(env, t.targets), b.targets, again.targets);
    SnapshotsAlike(t.snapshots, RestoredSnapshots(t.snapshots), b.snapshots, again.snapshots);
    MembersAlike(t.members, b.members, again.members);
    NotesAlike(t.notes, b.notes, again.notes);
    ViewsAlike(t.views, b.views, again.views);
    CollectionsAlike(t.collections, b.collections, again.collections, opts.nameBefore);
    WebhooksAlike(t.webhooks, b.webhooks, again.webhooks, opts.nameBefore);
  }

  /** Export, import into an empty store, export again: every list holds the same items exactly when no target was
      exported with an empty normalized host that the import fills in; and the lists other than the blobs come in the
      same order up to rows the queries do not tell apart. */
  lemma RoundTrip(env: Env, t: Tables, opts: ExportOptions, b: ExportBundle, conflict: string, again: ExportBundle)
    requires Valid(t) && Full(opts) && IsExport(t, opts, b) && PolicyOf(env, conflict).Some?
    requires Sorting.StrictWeak(opts.nameBefore)
    requires Import(env, EmptyTables, Some(b), conflict).Ok?
    requires IsExport(Import(env, EmptyTables, Some(b), conflict).value.0, opts, again)
    ensures SameContents(b, again) <==> HostsNormalized(env, t)
    ensures InSameOrder(opts, b, again)
  {
    ImportOfExport(env, t, opts, b, conflict);
    if HostsNormalized(env, t) { TargetsSameIfNormalized(env, t, b, again); }
    if multiset(b.targets) == multiset(again.targets) { NormalizedIfTargetsSame(env, t, b, again); }
    OthersSame(env, t, opts, b, again);
    SameOrderAgain(env, t, opts, b, again);
  }

  // ---- The order of the blobs ----

  /** The import gives all blobs one creation time, so they may come back in any order. */
  lemma BlobsInAnyOrder(env: Env, t: Tables, opts: ExportOptions, again: ExportBundle, blobs: seq<ExportBlob>)
    requires opts.includeBlobs && IsExport(Restored(env, t), opts, again) && multiset(again.blobs) == multiset(blobs)
    ensures IsExport(Restored(env, t), opts, again.(blobs := blobs))
  {
    AnyOrder(RestoredBlobs(env.now, t.blobs), again.blobs, blobs);
  }

  /** A listing carried over to another state of its table that has the same order. */
  lemma Relisted<K(!new), R(!new), X(!new)>(rows: map<K, R>, others: map<K, R>, items: seq<X>, again: seq<X>,
      key: X -> K, out: (K, R) -> X, before: (R, R) -> bool)
    requires ListsInOrder(rows, items, key, out, before) && rows.Keys == others.Keys && |again| == |items|
    requires forall k, l :: k in rows && l in rows && before(others[k], others[l]) ==> before(rows[k], rows[l])
    requires forall j :: 0 <= j < |items| ==> key(again[j]) == key(items[j])
    requires forall j :: 0 <= j < |items| && key(items[j]) in others ==>
        again[j] == out(key(items[j]), others[key(items[j])])
    ensures ListsInOrder(others, again, key, out, before)
  {
    var names := Map(key, again);
    SameNames(rows, items, key, out, names);
    forall k ensures k in others <==> exists j :: 0 <= j < |again| && key(again[j]) == k {
      if k in others { var j :| 0 <= j < |names| && names[j] == k; assert key(again[j]) == k; }
    }
  }

  /** The targets of an export as they are after the import. */
  function TargetsAgain(env: Env, rows: map<Id, Named<TargetDetails>>, xs: seq<ExportTarget>): seq<ExportTarget>
    requires Lists(rows, xs, TargetId, TargetOut)
  {
    seq(|xs|, i requires 0 <= i < |xs| => TargetOut(TargetId(xs[i]), RestoredTarget(env, rows[TargetId(xs[i])])))
  }

  lemma TargetsRelisted(env: Env, rows: map<Id, Named<TargetDetails>>, xs: seq<ExportTarget>)
    requires ListsInOrder(rows, xs, TargetId, TargetOut, TargetBefore)
    ensures ListsInOrder(RestoredTargets(env, rows), TargetsAgain(env, rows, xs), TargetId, TargetOut, TargetBefore)
  {
    Relisted(rows, RestoredTargets(env, rows), xs, TargetsAgain(env, rows, xs), TargetId, TargetOut, TargetBefore);
  }

  lemma SnapshotsRelisted(rows: map<Id, SnapshotRow>, xs: seq<ExportSnapshot>)
    requires ListsInOrder(rows, xs, SnapshotId, SnapshotOut, SnapshotBefore)
    ensures ListsInOrder(RestoredSnapshots(rows), xs, SnapshotId, SnapshotOut, SnapshotBefore)
  {
    Relisted(rows, RestoredSnapshots(rows), xs, xs, SnapshotId, SnapshotOut, SnapshotBefore);
  }

  lemma BlobsRelisted(now: Time, rows: BlobRows, xs: seq<ExportBlob>)
    requires ListsInOrder(rows, xs, BlobKey, BlobOut, BlobBefore)
    ensures ListsInOrder(RestoredBlobs(now, rows), xs, BlobKey, BlobOut, BlobBefore)
  {
    Relisted(rows, RestoredBlobs(now, rows), xs, xs, BlobKey, BlobOut, BlobBefore);
  }

  /** There is an export of the imported store. */
  lemma ExportsAgain(env: Env, t: Tables, opts: ExportOptions, b: ExportBundle) returns (again: ExportBundle)
    requires Full(opts) && IsExport(t, opts, b)
    ensures IsExport(Restored(env, t), opts, again) && again.blobs == b.blobs
  {
    TargetsRelisted(env, t.targets, b.targets);
    SnapshotsRelisted(t.snapshots, b.snapshots);
    BlobsRelisted(env.now, t.blobs, b.blobs);
    again := b.(targets := TargetsAgain(env, t.targets, b.targets));
  }

  /** Every export of the imported store keeps the blobs in the source's order exactly when they were all created at
      one time. */
  lemma BlobOrderKeptIff(env: Env, t: Tables, opts: ExportOptions, b: ExportBundle, conflict: string)
    requires Valid(t) && Full(opts) && IsExport(t, opts, b) && PolicyOf(env, conflict).Some?
    ensures Import(env, EmptyTables, Some(b), conflict).Ok?
    ensures (forall again :: IsExport(Import(env, EmptyTables, Some(b), conflict).value.0, opts, again) ==>
                InSourceOrder(t.blobs, again.blobs))
        <==> OneTime(t.blobs)
  {
    ImportOfExport(env, t, opts, b, conflict);
    if !OneTime(t.blobs) {
      var again := ExportsAgain(env, t, opts, b);
      var blobs := SomeOrderBreaks(t.blobs, b.blobs);
      BlobsInAnyOrder(env, t, opts, again, blobs);
    }
  }
}
