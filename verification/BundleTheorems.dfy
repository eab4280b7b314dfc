/** What an import keeps, where it puts things, and what exporting and importing again give back. */
module BundleTheorems {
  import opened Common
  import opened BundleMerge
  import opened Bundle
  import opened BundleConstraints
  import NamedProofs
  import OverwriteProofs
  import ResolveProofs
  import ByIdProofs
  import PutProofs

  /** The phases of a successful import, one equation each. */
  ghost predicate Ran(env: Env, t: Tables, b: ExportBundle, p: Policy, ph: Phases) {
    && TargetPhase(env, t, b, p) == Ok(ph.targets)
    && SnapshotPhase(t, b, p, ph.targets) == Ok(ph.snapshots)
    && BlobPhase(env, t, b, ph.snapshots) == Ok(ph.blobs)
    && CollectionPhase(t, b, p) == Ok(ph.collections)
    && MemberPhase(t, b, ph.targets, ph.collections) == Ok(ph.members)
    && NotePhase(t, b, p, ph.targets, ph.snapshots, ph.collections) == Ok(ph.notes)
    && ViewPhase(t, b, p, ph.targets, ph.snapshots) == Ok(ph.views)
    && WebhookPhase(t, b) == Ok(ph.webhooks)
  }

  lemma RanIff(env: Env, t: Tables, b: ExportBundle, p: Policy, ph: Phases)
    ensures RunPhases(env, t, b, p) == Ok(ph) <==> Ran(env, t, b, p, ph)
  {
  }

  lemma ImportByPhases(env: Env, t: Tables, b: ExportBundle, conflict: string, ph: Phases)
    requires b.formatVersion == FORMAT_VERSION && PolicyOf(env, conflict).Some?
        && Ran(env, t, b, PolicyOf(env, conflict).value, ph)
    ensures Import(env, t, Some(b), conflict) == Ok((TablesAfter(env, t, b, ph), ResultOf(b, ph)))
  {
    RanIff(env, t, b, PolicyOf(env, conflict).value, ph);
  }

  /** Whatever fails inside the transaction, the error is that it was rolled back. */
  lemma PhasesAbort(env: Env, t: Tables, b: ExportBundle, p: Policy)
    requires RunPhases(env, t, b, p).Err?
    ensures RunPhases(env, t, b, p) == Err(Aborted)
  {
    NamedAborts(p, t.targets, TargetItems(env, b.targets));
    NamedAborts(p, t.collections, CollectionItems(b.collections));
    forall ok: map<Id, SnapshotRow> -> bool, items ensures ByIdAborted(MergeById(p, ok, t.snapshots, items)) {
      ByIdAborts(p, ok, t.snapshots, items);
    }
    forall ok: map<Id, NoteRow> -> bool, items ensures ByIdAborted(MergeById(p, ok, t.notes, items)) {
      ByIdAborts(p, ok, t.notes, items);
    }
    forall ok: map<Id, ViewRow> -> bool, items ensures ByIdAborted(MergeById(p, ok, t.views, items)) {
      ByIdAborts(p, ok, t.views, items);
    }
    forall snapshots ensures PutAborted(PutBlobs(env.now, snapshots, t.blobs, b.blobs)) {
      FoldError(BlobStep(env.now, snapshots), t.blobs, b.blobs, Aborted);
    }
    forall ok: MemberRows -> bool, items ensures PutAborted(PutAll(ok, t.members, items)) {
      FoldError(PutStep(ok), t.members, items, Aborted);
    }
    FoldError(PutStep(WebhooksOk()), t.webhooks, WebhookItems(b.webhooks), Aborted);
  }

  ghost predicate ByIdAborted<R>(r: Result<ByIdState<R>, ImportError>) {
    r.Err? ==> r == Err(Aborted)
  }

  ghost predicate PutAborted<R>(r: Result<R, ImportError>) {
    r.Err? ==> r == Err(Aborted)
  }

  lemma NamedAborts<A(!new)>(p: Policy, rows: map<Id, Named<A>>, items: seq<NamedItem<A>>)
    ensures MergeNamed(p, rows, items).Err? ==> MergeNamed(p, rows, items) == Err(Aborted)
  {
    FoldError(NamedStep<A>(p), NamedState(rows, map[], 0, 0), items, Aborted);
  }

  lemma ByIdAborts<R(!new)>(p: Policy, ok: map<Id, R> -> bool, rows: map<Id, R>, items: seq<ByIdItem<R>>)
    ensures ByIdAborted(MergeById(p, ok, rows, items))
  {
    FoldError(ByIdStep<R>(p, ok), ByIdState(rows, 0, 0), items, Aborted);
  }

  // ---- What every import keeps ----

  /** No row is deleted; when skipping, the rows of the five main tables stay as they were. */
  ghost predicate Kept(p: Policy, t: Tables, u: Tables) {
    && t.targets.Keys <= u.targets.Keys && t.snapshots.Keys <= u.snapshots.Keys && t.blobs.Keys <= u.blobs.Keys
    && t.collections.Keys <= u.collections.Keys && t.members.Keys <= u.members.Keys && t.notes.Keys <= u.notes.Keys
    && t.views.Keys <= u.views.Keys && t.webhooks.Keys <= u.webhooks.Keys
    && (p.Skip? ==>
          && (forall i :: i in t.targets ==> u.targets[i] == t.targets[i])
          && (forall i :: i in t.snapshots ==> u.snapshots[i] == t.snapshots[i])
          && (forall i :: i in t.collections ==> u.collections[i] == t.collections[i])
          && (forall i :: i in t.notes ==> u.notes[i] == t.notes[i])
          && (forall i :: i in t.views ==> u.views[i] == t.views[i]))
  }

  /** Imported plus skipped is the number of items, table by table. */
  predicate AllCounted(b: ExportBundle, r: ImportResult) {
    && r.targetsImported + r.targetsSkipped == |b.targets|
    && r.snapshotsImported + r.snapshotsSkipped == |b.snapshots|
    && r.collectionsImported + r.collectionsSkipped == |b.collections|
    && r.notesImported + r.notesSkipped == |b.notes|
    && r.viewsImported + r.viewsSkipped == |b.views|
  }

  lemma MainTablesKept(env: Env, t: Tables, b: ExportBundle, p: Policy, ph: Phases)
    requires Valid(t) && Ran(env, t, b, p, ph)
    ensures NamedProofs.NamedInv(p, t.targets, TargetItems(env, b.targets), |b.targets|, ph.targets)
    ensures ByIdProofs.ByIdInv(p, SnapshotsOk(ph.targets.rows.Keys), t.snapshots,
        SnapshotItems(ph.targets.idMap, b.snapshots), |b.snapshots|, ph.snapshots)
    ensures NamedProofs.NamedInv(p, t.collections, CollectionItems(b.collections), |b.collections|, ph.collections)
  {
    NamedProofs.MergeNamedKeeps(p, t.targets, TargetItems(env, b.targets));
    ByIdProofs.MergeByIdKeeps(p, SnapshotsOk(ph.targets.rows.Keys), t.snapshots,
        SnapshotItems(ph.targets.idMap, b.snapshots));
    NamedProofs.MergeNamedKeeps(p, t.collections, CollectionItems(b.collections));
  }

  lemma ReferencesKept(env: Env, t: Tables, b: ExportBundle, p: Policy, ph: Phases)
    requires Valid(t) && Ran(env, t, b, p, ph)
    ensures NotesOk(ph.targets.rows.Keys, ph.snapshots.rows.Keys, ph.collections.rows.Keys)(t.notes)
    ensures ViewsOk(ph.targets.rows.Keys, ph.snapshots.rows.Keys)(t.views)
    ensures BlobsOk(ph.snapshots.rows.Keys)(t.blobs)
    ensures MembersOk(ph.collections.rows.Keys, ph.targets.rows.Keys)(t.members)
    ensures SnapshotsOk(ph.targets.rows.Keys)(t.snapshots)
  {
    KeysGrow(env, t, b, p, ph);
    ReferencesGrow(t, ph.targets.rows.Keys, ph.snapshots.rows.Keys, ph.collections.rows.Keys);
  }

  lemma KeysGrow(env: Env, t: Tables, b: ExportBundle, p: Policy, ph: Phases)
    requires Valid(t) && Ran(env, t, b, p, ph)
    ensures t.targets.Keys <= ph.targets.rows.Keys && t.snapshots.Keys <= ph.snapshots.rows.Keys
    ensures t.collections.Keys <= ph.collections.rows.Keys
  {
    MainTablesKept(env, t, b, p, ph);
  }

  /** References stay good when the tables they point into grow. */
  lemma ReferencesGrow(t: Tables, targets: set<Id>, snapshots: set<Id>, collections: set<Id>)
    requires Valid(t) && t.targets.Keys <= targets && t.snapshots.Keys <= snapshots && t.collections.Keys <= collections
    ensures SnapshotsOk(targets)(t.snapshots)
    ensures NotesOk(targets, snapshots, collections)(t.notes)
    ensures ViewsOk(targets, snapshots)(t.views)
    ensures BlobsOk(snapshots)(t.blobs)
    ensures MembersOk(collections, targets)(t.members)
  {
  }

  lemma OtherTablesKept(env: Env, t: Tables, b: ExportBundle, p: Policy, ph: Phases)
    requires Valid(t) && Ran(env, t, b, p, ph)
    ensures PutProofs.PutInv(BlobsOk(ph.snapshots.rows.Keys), t.blobs, BlobItems(env.now, b.blobs), |b.blobs|, ph.blobs)
    ensures PutProofs.PutInv(MembersOk(ph.collections.rows.Keys, ph.targets.rows.Keys), t.members,
              MemberItems(ph.collections.idMap, ph.targets.idMap, b.members),
              |MemberItems(ph.collections.idMap, ph.targets.idMap, b.members)|, ph.members)
    ensures PutProofs.PutInv(WebhooksOk(), t.webhooks, WebhookItems(b.webhooks), |b.webhooks|, ph.webhooks)
  {
    ReferencesKept(env, t, b, p, ph);
    PutBlobsIs(env.now, ph.snapshots.rows.Keys, t.blobs, b.blobs);
    PutProofs.PutAllKeeps(BlobsOk(ph.snapshots.rows.Keys), t.blobs, BlobItems(env.now, b.blobs));
    PutProofs.PutAllKeeps(MembersOk(ph.collections.rows.Keys, ph.targets.rows.Keys), t.members,
      MemberItems(ph.collections.idMap, ph.targets.idMap, b.members));
    PutProofs.PutAllKeeps(WebhooksOk(), t.webhooks, WebhookItems(b.webhooks));
  }

  lemma NotesAndViewsKept(env: Env, t: Tables, b: ExportBundle, p: Policy, ph: Phases)
    requires Valid(t) && Ran(env, t, b, p, ph)
    ensures ByIdProofs.ByIdInv(p, NotesOk(ph.targets.rows.Keys, ph.snapshots.rows.Keys, ph.collections.rows.Keys),
        t.notes,
        NoteItems(ph.collections.idMap, ph.targets.idMap, b.notes), |b.notes|, ph.notes)
    ensures ByIdProofs.ByIdInv(p, ViewsOk(ph.targets.rows.Keys, ph.snapshots.rows.Keys), t.views,
              ViewItems(ph.targets.idMap, b.views), |b.views|, ph.views)
  {
    ReferencesKept(env, t, b, p, ph);
    ByIdProofs.MergeByIdKeeps(p, NotesOk(ph.targets.rows.Keys, ph.snapshots.rows.Keys, ph.collections.rows.Keys),
        t.notes,
        NoteItems(ph.collections.idMap, ph.targets.idMap, b.notes));
    ByIdProofs.MergeByIdKeeps(p, ViewsOk(ph.targets.rows.Keys, ph.snapshots.rows.Keys), t.views,
        ViewItems(ph.targets.idMap, b.views));
  }

  /** A successful import keeps every constraint, deletes nothing, changes no row of the five main tables
      when skipping, and counts every item exactly once. */
  lemma ImportKeeps(env: Env, t: Tables, b: ExportBundle, conflict: string)
    requires Valid(t) && Import(env, t, Some(b), conflict).Ok?
    ensures var (u, r) := Import(env, t, Some(b), conflict).value;
            Valid(u) && Kept(PolicyOf(env, conflict).value, t, u) && AllCounted(b, r)
  {
    var p := PolicyOf(env, conflict).value;
    var ph := RunPhases(env, t, b, p).value;
    RanIff(env, t, b, p, ph);
    MainTablesKept(env, t, b, p, ph);
    OtherTablesKept(env, t, b, p, ph);
    NotesAndViewsKept(env, t, b, p, ph);
  }

  // ---- Where targets and snapshots land ----

  /** An id means the same host in the store and throughout the bundle. */
  ghost predicate HostsAgree(t: Tables, xs: seq<ExportTarget>) {
    && (forall i :: 0 <= i < |xs| && xs[i].id in t.targets ==> t.targets[xs[i].id].key == xs[i].host)
    && (forall i, j :: 0 <= i < |xs| && 0 <= j < |xs| && xs[i].id == xs[j].id ==> xs[i].host == xs[j].host)
  }

  /** Every bundle target was resolved to a live row with its host. */
  ghost predicate HostsResolved(ts: NamedState<TargetDetails>, xs: seq<ExportTarget>) {
    forall i :: 0 <= i < |xs| ==>
      xs[i].id in ts.idMap && ts.idMap[xs[i].id] in ts.rows && ts.rows[ts.idMap[xs[i].id]].key == xs[i].host
  }

  lemma HostsAgreeIff(env: Env, t: Tables, xs: seq<ExportTarget>)
    ensures HostsAgree(t, xs) <==> NamedProofs.IdsAgree(t.targets, TargetItems(env, xs))
  {
    var items := TargetItems(env, xs);
    assert forall i :: 0 <= i < |xs| ==> items[i].id == xs[i].id && items[i].row.key == xs[i].host;
    if NamedProofs.IdsAgree(t.targets, items) {
      forall i, j | 0 <= i < |xs| && 0 <= j < |xs| && xs[i].id == xs[j].id ensures xs[i].host == xs[j].host {
        assert items[i].id == items[j].id;
      }
      forall i | 0 <= i < |xs| && xs[i].id in t.targets ensures t.targets[xs[i].id].key == xs[i].host {
        assert items[i].id in t.targets;
      }
    }
    if HostsAgree(t, xs) {
      forall i, j | 0 <= i < |items| && 0 <= j < |items| && items[i].id == items[j].id
          ensures items[i].row.key == items[j].row.key {
        assert xs[i].id == xs[j].id;
      }
    }
  }

  lemma HostsResolvedIff(env: Env, ts: NamedState<TargetDetails>, xs: seq<ExportTarget>)
    ensures HostsResolved(ts, xs) <==> NamedProofs.ResolvedByKey(ts, TargetItems(env, xs))
  {
    var items := TargetItems(env, xs);
    assert forall i :: 0 <= i < |xs| ==> items[i].id == xs[i].id && items[i].row.key == xs[i].host;
    if NamedProofs.ResolvedByKey(ts, items) {
      forall i | 0 <= i < |xs|
        ensures xs[i].id in ts.idMap && ts.idMap[xs[i].id] in ts.rows && ts.rows[ts.idMap[xs[i].id]].key == xs[i].host
      {
        assert items[i].id in ts.idMap;
      }
    }
  }

  /** No id and no host twice. */
  predicate TargetsDistinct(xs: seq<ExportTarget>) {
    forall i, j :: 0 <= i < j < |xs| ==> xs[i].id != xs[j].id && xs[i].host != xs[j].host
  }

  /** No target unknown by id finds its host on a row that a later target takes over by id. */
  ghost predicate HostsUntangled(t: Tables, xs: seq<ExportTarget>) {
    forall i, j :: 0 <= i < j < |xs| && xs[i].id !in t.targets && xs[j].id in t.targets ==>
        t.targets[xs[j].id].key != xs[i].host
  }

  lemma HostsUntangledIff(env: Env, t: Tables, xs: seq<ExportTarget>)
    ensures HostsUntangled(t, xs) <==> OverwriteProofs.Untangled(t.targets, TargetItems(env, xs))
    ensures TargetsDistinct(xs) ==> NamedProofs.AllDistinct(TargetItems(env, xs))
  {
    var items := TargetItems(env, xs);
    assert forall i :: 0 <= i < |xs| ==> items[i].id == xs[i].id && items[i].row.key == xs[i].host;
    if OverwriteProofs.Untangled(t.targets, items) {
      forall i, j | 0 <= i < j < |xs| && xs[i].id !in t.targets && xs[j].id in t.targets
        ensures t.targets[xs[j].id].key != xs[i].host
      {
        assert !OverwriteProofs.Tangled(t.targets, items, i, j);
      }
    }
  }

  /** The host of target `i`, whose id is new, is that of a row whose id only later targets have, with another host. */
  ghost predicate HostRenamedLater(t: Tables, xs: seq<ExportTarget>, i: nat, j: nat)
    requires i < |xs| && j < |xs|
  {
    && xs[i].id !in t.targets && xs[j].id in t.targets
    && t.targets[xs[j].id].key == xs[i].host && xs[j].host != xs[i].host
    && forall k, l :: 0 <= k < |xs| && 0 <= l < |xs| && xs[k].id == xs[i].id && xs[l].id == xs[j].id ==> k < l
  }

  /** Targets with one id have one host, and none loses it to a later target. */
  ghost predicate HostsLast(t: Tables, xs: seq<ExportTarget>) {
    && (forall i, j :: 0 <= i < |xs| && 0 <= j < |xs| && xs[i].id == xs[j].id ==> xs[i].host == xs[j].host)
    && (forall i, j {:trigger HostRenamedLater(t, xs, i, j)} :: 0 <= i < |xs| && 0 <= j < |xs| ==>
          !HostRenamedLater(t, xs, i, j))
  }

  lemma HostsLastIff(env: Env, t: Tables, xs: seq<ExportTarget>)
    ensures HostsLast(t, xs) <==>
        var items := TargetItems(env, xs);
        ResolveProofs.KeysAgree(items) && ResolveProofs.NoneRenamedLater(t.targets, items)
  {
    var items := TargetItems(env, xs);
    assert forall i :: 0 <= i < |xs| ==> items[i].id == xs[i].id && items[i].row.key == xs[i].host;
    forall i, j | 0 <= i < |xs| && 0 <= j < |xs|
      ensures HostRenamedLater(t, xs, i, j) <==> ResolveProofs.RenamedLater(t.targets, items, i, j)
    {
      TargetRenamedIff(env, t, xs, i, j);
    }
    if ResolveProofs.KeysAgree(items) {
      forall i, j | 0 <= i < |xs| && 0 <= j < |xs| && xs[i].id == xs[j].id ensures xs[i].host == xs[j].host {
        assert items[i].id == items[j].id;
      }
    }
  }

  lemma TargetRenamedIff(env: Env, t: Tables, xs: seq<ExportTarget>, i: nat, j: nat)
    requires i < |xs| && j < |xs|
    ensures HostRenamedLater(t, xs, i, j) <==> ResolveProofs.RenamedLater(t.targets, TargetItems(env, xs), i, j)
  {
    var items := TargetItems(env, xs);
    assert forall k :: 0 <= k < |xs| ==> items[k].id == xs[k].id && items[k].row.key == xs[k].host;
    if ResolveProofs.RenamedLater(t.targets, items, i, j) {
      forall k, l | 0 <= k < |xs| && 0 <= l < |xs| && xs[k].id == xs[i].id && xs[l].id == xs[j].id ensures k < l {
        assert items[k].id == items[i].id && items[l].id == items[j].id;
      }
    }
  }

  /** Every bundle target ends at the row of its own host exactly when: skipping, shared ids agree on their host;
      overwriting, targets with one id have one host and no target is merged by host into a row that only later
      targets rename. Agreement is enough under either policy. */
  lemma TargetsResolveToTheirHost(env: Env, t: Tables, b: ExportBundle, p: Policy)
    requires Valid(t) && TargetPhase(env, t, b, p).Ok?
    ensures HostsAgree(t, b.targets) ==> HostsResolved(TargetPhase(env, t, b, p).value, b.targets)
    ensures p.Skip? ==> (HostsResolved(TargetPhase(env, t, b, p).value, b.targets) <==> HostsAgree(t, b.targets))
    ensures p.Overwrite? ==>
              (HostsResolved(TargetPhase(env, t, b, p).value, b.targets) <==> HostsLast(t, b.targets))
  {
    var items := TargetItems(env, b.targets);
    HostsAgreeIff(env, t, b.targets);
    HostsResolvedIff(env, TargetPhase(env, t, b, p).value, b.targets);
    if HostsAgree(t, b.targets) {
      NamedProofs.AgreementResolves(p, t.targets, items);
    }
    if p.Skip? {
      NamedProofs.SkipResolvesIffAgree(t.targets, items);
    } else {
      HostsLastIff(env, t, b.targets);
      ResolveProofs.OverwriteResolvesIff(t.targets, items);
    }
  }

  /** A snapshot row of the result is an old one unchanged, or one of the bundle's under its remapped target. */
  ghost predicate SnapshotLands(t: Tables, u: Tables, b: ExportBundle, idMap: map<Id, Id>, id: Id)
    requires id in u.snapshots
  {
    || (id in t.snapshots && u.snapshots[id] == t.snapshots[id])
    || exists j :: 0 <= j < |b.snapshots| && b.snapshots[j].id == id && b.snapshots[j].targetId in idMap
         && u.snapshots[id].targetId == idMap[b.snapshots[j].targetId] && u.snapshots[id].body == b.snapshots[j].body
  }

  lemma SnapshotsLand(env: Env, t: Tables, b: ExportBundle, p: Policy, ph: Phases, id: Id)
    requires Valid(t) && Ran(env, t, b, p, ph) && id in ph.snapshots.rows
    ensures SnapshotLands(t, TablesAfter(env, t, b, ph), b, ph.targets.idMap, id)
  {
    MainTablesKept(env, t, b, p, ph);
    if !(id in t.snapshots && ph.snapshots.rows[id] == t.snapshots[id]) {
      WrittenSnapshot(ph.targets.idMap, b.snapshots, id, ph.snapshots.rows[id]);
    }
  }

  lemma WrittenSnapshot(idMap: map<Id, Id>, xs: seq<ExportSnapshot>, id: Id, row: SnapshotRow)
    requires ByIdProofs.HasRow(SnapshotItems(idMap, xs), |xs|, id, row)
    ensures exists j :: 0 <= j < |xs| && xs[j].id == id && xs[j].targetId in idMap
              && row.targetId == idMap[xs[j].targetId] && row.body == xs[j].body
  {
    var items := SnapshotItems(idMap, xs);
    var j :| 0 <= j < |xs| && items[j].id == id && items[j].row == Some(row);
    assert items[j] == SnapshotItem(idMap, xs[j]);
  }

  /** The live row `row` has the host of the bundle target with id `id`. */
  ghost predicate HasHostOf(b: ExportBundle, rows: map<Id, Named<TargetDetails>>, row: Id, id: Id) {
    row in rows && exists k :: 0 <= k < |b.targets| && b.targets[k].id == id && rows[row].key == b.targets[k].host
  }

  lemma MappedHasHost(env: Env, t: Tables, b: ExportBundle, p: Policy, ts: NamedState<TargetDetails>, id: Id)
    requires Valid(t) && TargetPhase(env, t, b, p) == Ok(ts) && HostsResolved(ts, b.targets) && id in ts.idMap
    ensures HasHostOf(b, ts.rows, ts.idMap[id], id)
  {
    var items := TargetItems(env, b.targets);
    NamedProofs.MergeNamedKeeps(p, t.targets, items);
    assert NamedProofs.Seen(items, |items|, id);
    var k :| 0 <= k < |items| && items[k].id == id;
    assert b.targets[k].id == id;
  }

  /** When targets resolve to their host, every snapshot the import wrote hangs under the host it had at the source. */
  lemma SnapshotsKeepTheirHost(env: Env, t: Tables, b: ExportBundle, p: Policy, ph: Phases, id: Id)
    requires Valid(t) && Ran(env, t, b, p, ph) && HostsResolved(ph.targets, b.targets) && id in ph.snapshots.rows
    requires !(id in t.snapshots && ph.snapshots.rows[id] == t.snapshots[id])
    ensures exists j :: 0 <= j < |b.snapshots| && b.snapshots[j].id == id
              && HasHostOf(b, ph.targets.rows, ph.snapshots.rows[id].targetId, b.snapshots[j].targetId)
  {
    SnapshotsLand(env, t, b, p, ph, id);
    var j :| 0 <= j < |b.snapshots| && b.snapshots[j].id == id && b.snapshots[j].targetId in ph.targets.idMap
             && ph.snapshots.rows[id].targetId == ph.targets.idMap[b.snapshots[j].targetId];
    MappedHasHost(env, t, b, p, ph.targets, b.snapshots[j].targetId);
  }

  // ---- Importing twice ----

  ghost predicate SameButSettingsTime(u: Tables, v: Tables) {
    && v == u.(settings := v.settings)
    && (u.settings.Some? <==> v.settings.Some?)
    && (u.settings.Some? ==> v.settings.value.value == u.settings.value.value)
  }

  lemma UpsertsTwice(env: Env, later: Env, t: Tables, b: ExportBundle, p: Policy, ph: Phases)
    requires Valid(t) && Ran(env, t, b, p, ph)
    ensures PutBlobs(later.now, ph.snapshots.rows.Keys, ph.blobs, b.blobs) == Ok(ph.blobs)
    ensures PutAll(MembersOk(ph.collections.rows.Keys, ph.targets.rows.Keys), ph.members,
              MemberItems(ph.collections.idMap, ph.targets.idMap, b.members)) == Ok(ph.members)
    ensures PutAll(WebhooksOk(), ph.webhooks, WebhookItems(b.webhooks)) == Ok(ph.webhooks)
  {
    ReferencesKept(env, t, b, p, ph);
    BlobsIgnoreSoft(ph.snapshots.rows.Keys);
    MembersIgnoreSoft(ph.collections.rows.Keys, ph.targets.rows.Keys);
    PutBlobsIs(env.now, ph.snapshots.rows.Keys, t.blobs, b.blobs);
    PutBlobsIs(later.now, ph.snapshots.rows.Keys, ph.blobs, b.blobs);
    BlobsTwice(env.now, later.now, BlobsOk(ph.snapshots.rows.Keys), t.blobs, b.blobs);
    PutProofs.PutTwice(MembersOk(ph.collections.rows.Keys, ph.targets.rows.Keys), t.members,
      MemberItems(ph.collections.idMap, ph.targets.idMap, b.members));
    PutProofs.PutTwice(WebhooksOk(), t.webhooks, WebhookItems(b.webhooks));
  }

  /** A second `skip` import of the same bundle succeeds, imports nothing into the five main tables, and
      changes nothing but the settings' timestamp. */
  lemma SkipImportTwice(env: Env, later: Env, t: Tables, b: ExportBundle, conflict: string)
    requires Valid(t) && PolicyOf(env, conflict) == Some(Skip) && Import(env, t, Some(b), conflict).Ok?
    requires later == env.(now := later.now)
    ensures var u := Import(env, t, Some(b), conflict).value.0;
            var again := Import(later, u, Some(b), conflict);
            && again.Ok? && SameButSettingsTime(u, again.value.0)
            && again.value.1.targetsImported == 0 && again.value.1.snapshotsImported == 0
            && again.value.1.collectionsImported == 0 && again.value.1.notesImported == 0
                && again.value.1.viewsImported == 0
  {
    var ph := RunPhases(env, t, b, Skip).value;
    RanIff(env, t, b, Skip, ph);
    var u := TablesAfter(env, t, b, ph);
    ReferencesKept(env, t, b, Skip, ph);
    MainTablesKept(env, t, b, Skip, ph);
    UpsertsTwice(env, later, t, b, Skip, ph);
    NamedProofs.SkipTwice(t.targets, TargetItems(env, b.targets));
    NamedProofs.SkipTwice(t.collections, CollectionItems(b.collections));
    SameTargetItems(env, later, b.targets);
    ByIdProofs.ByIdSkipTwice(SnapshotsOk(ph.targets.rows.Keys), t.snapshots,
        SnapshotItems(ph.targets.idMap, b.snapshots));
    ByIdProofs.ByIdSkipTwice(NotesOk(ph.targets.rows.Keys, ph.snapshots.rows.Keys, ph.collections.rows.Keys), t.notes,
        NoteItems(ph.collections.idMap, ph.targets.idMap, b.notes));
    ByIdProofs.ByIdSkipTwice(ViewsOk(ph.targets.rows.Keys, ph.snapshots.rows.Keys), t.views,
        ViewItems(ph.targets.idMap, b.views));
    var again := Phases(NamedState(u.targets, ph.targets.idMap, 0, |b.targets|),
        ByIdState(u.snapshots, 0, |b.snapshots|), u.blobs,
        NamedState(u.collections, ph.collections.idMap, 0, |b.collections|), u.members,
        ByIdState(u.notes, 0, |b.notes|), ByIdState(u.views, 0, |b.views|), u.webhooks);
    assert Ran(later, u, b, Skip, again);
    RanIff(later, u, b, Skip, again);
  }

  lemma SameTargetItems(env: Env, later: Env, xs: seq<ExportTarget>)
    requires later.normalizeHost == env.normalizeHost
    ensures TargetItems(later, xs) == TargetItems(env, xs)
  {
  }

  predicate CollectionsDistinct(xs: seq<ExportCollection>) {
    forall i, j :: 0 <= i < j < |xs| ==> xs[i].id != xs[j].id && xs[i].name != xs[j].name
  }

  /** No collection unknown by id finds its name on a row that a later collection takes over by id. */
  ghost predicate NamesUntangled(t: Tables, xs: seq<ExportCollection>) {
    forall i, j :: 0 <= i < j < |xs| && xs[i].id !in t.collections && xs[j].id in t.collections ==>
      t.collections[xs[j].id].key != xs[i].name
  }

  lemma NamesUntangledIff(t: Tables, xs: seq<ExportCollection>)
    ensures NamesUntangled(t, xs) <==> OverwriteProofs.Untangled(t.collections, CollectionItems(xs))
    ensures CollectionsDistinct(xs) ==> NamedProofs.AllDistinct(CollectionItems(xs))
  {
    var items := CollectionItems(xs);
    assert forall i :: 0 <= i < |xs| ==> items[i].id == xs[i].id && items[i].row.key == xs[i].name;
    if OverwriteProofs.Untangled(t.collections, items) {
      forall i, j | 0 <= i < j < |xs| && xs[i].id !in t.collections && xs[j].id in t.collections
        ensures t.collections[xs[j].id].key != xs[i].name
      {
        assert !OverwriteProofs.Tangled(t.collections, items, i, j);
      }
    }
  }

  /** The bundle repeats no id, host or name. */
  predicate NoRepeats(b: ExportBundle) {
    && TargetsDistinct(b.targets) && CollectionsDistinct(b.collections)
    && (forall i, j :: 0 <= i < j < |b.snapshots| ==> b.snapshots[i].id != b.snapshots[j].id)
    && (forall i, j :: 0 <= i < j < |b.notes| ==> b.notes[i].id != b.notes[j].id)
    && (forall i, j :: 0 <= i < j < |b.views| ==> b.views[i].id != b.views[j].id)
  }

  /** A second `overwrite` import of a bundle without repetitions succeeds and changes nothing but the settings'
      timestamp exactly when no target is merged by host, and no collection by name, into a row that a later one
      renames. */
  lemma OverwriteImportTwice(env: Env, later: Env, t: Tables, b: ExportBundle, conflict: string)
    requires Valid(t) && NoRepeats(b) && PolicyOf(env, conflict) == Some(Overwrite)
        && Import(env, t, Some(b), conflict).Ok?
    requires later == env.(now := later.now)
    ensures var u := Import(env, t, Some(b), conflict).value.0;
            var again := Import(later, u, Some(b), conflict);
            again.Ok? && SameButSettingsTime(u, again.value.0) <==>
                HostsUntangled(t, b.targets) && NamesUntangled(t, b.collections)
  {
    if HostsUntangled(t, b.targets) && NamesUntangled(t, b.collections) {
      UntangledImportTwice(env, later, t, b, conflict);
    } else {
      TangledImportTwice(env, later, t, b, conflict);
    }
  }

  lemma UntangledImportTwice(env: Env, later: Env, t: Tables, b: ExportBundle, conflict: string)
    requires Valid(t) && NoRepeats(b) && PolicyOf(env, conflict) == Some(Overwrite)
        && Import(env, t, Some(b), conflict).Ok?
    requires later == env.(now := later.now) && HostsUntangled(t, b.targets) && NamesUntangled(t, b.collections)
    ensures var u := Import(env, t, Some(b), conflict).value.0;
            var again := Import(later, u, Some(b), conflict);
            again.Ok? && SameButSettingsTime(u, again.value.0)
  {
    var ph := RunPhases(env, t, b, Overwrite).value;
    RanIff(env, t, b, Overwrite, ph);
    var u := TablesAfter(env, t, b, ph);
    ReferencesKept(env, t, b, Overwrite, ph);
    MainTablesKept(env, t, b, Overwrite, ph);
    UpsertsTwice(env, later, t, b, Overwrite, ph);
    HostsUntangledIff(env, t, b.targets);
    NamesUntangledIff(t, b.collections);
    OverwriteProofs.OverwriteTwiceIffUntangled(t.targets, TargetItems(env, b.targets));
    OverwriteProofs.OverwriteTwiceIffUntangled(t.collections, CollectionItems(b.collections));
    SameTargetItems(env, later, b.targets);
    var sn := MergeById(Overwrite, SnapshotsOk(ph.targets.rows.Keys), u.snapshots,
        SnapshotItems(ph.targets.idMap, b.snapshots));
    ByIdProofs.ByIdOverwriteTwice(SnapshotsOk(ph.targets.rows.Keys), t.snapshots,
        SnapshotItems(ph.targets.idMap, b.snapshots));
    var no := MergeById(Overwrite, NotesOk(ph.targets.rows.Keys, ph.snapshots.rows.Keys, ph.collections.rows.Keys),
        u.notes,
        NoteItems(ph.collections.idMap, ph.targets.idMap, b.notes));
    ByIdProofs.ByIdOverwriteTwice(NotesOk(ph.targets.rows.Keys, ph.snapshots.rows.Keys, ph.collections.rows.Keys),
        t.notes,
        NoteItems(ph.collections.idMap, ph.targets.idMap, b.notes));
    var vi := MergeById(Overwrite, ViewsOk(ph.targets.rows.Keys, ph.snapshots.rows.Keys), u.views,
        ViewItems(ph.targets.idMap, b.views));
    ByIdProofs.ByIdOverwriteTwice(ViewsOk(ph.targets.rows.Keys, ph.snapshots.rows.Keys), t.views,
        ViewItems(ph.targets.idMap, b.views));
    var again := Phases(NamedState(u.targets, ph.targets.idMap, |b.targets|, 0), sn.value, u.blobs,
      NamedState(u.collections, ph.collections.idMap, |b.collections|, 0), u.members, no.value, vi.value, u.webhooks);
    assert Ran(later, u, b, Overwrite, again);
    RanIff(later, u, b, Overwrite, again);
  }

  lemma TangledImportTwice(env: Env, later: Env, t: Tables, b: ExportBundle, conflict: string)
    requires Valid(t) && NoRepeats(b) && PolicyOf(env, conflict) == Some(Overwrite)
        && Import(env, t, Some(b), conflict).Ok?
    requires later == env.(now := later.now) && !(HostsUntangled(t, b.targets) && NamesUntangled(t, b.collections))
    ensures var u := Import(env, t, Some(b), conflict).value.0;
            var again := Import(later, u, Some(b), conflict);
            again.Ok? ==> again.value.0.targets != u.targets || again.value.0.collections != u.collections
  {
    var ph := RunPhases(env, t, b, Overwrite).value;
    RanIff(env, t, b, Overwrite, ph);
    var u := TablesAfter(env, t, b, ph);
    HostsUntangledIff(env, t, b.targets);
    NamesUntangledIff(t, b.collections);
    OverwriteProofs.OverwriteTwiceIffUntangled(t.targets, TargetItems(env, b.targets));
    OverwriteProofs.OverwriteTwiceIffUntangled(t.collections, CollectionItems(b.collections));
    SameTargetItems(env, later, b.targets);
    if Import(later, u, Some(b), conflict).Ok? {
      var again := RunPhases(later, u, b, Overwrite).value;
      RanIff(later, u, b, Overwrite, again);
    }
  }
}

/** Facts about the constraints themselves. */
module BundleConstraints {
  import opened Common
  import opened BundleMerge
  import opened Bundle
  import PutProofs

  predicate AllDecode(xs: seq<ExportBlob>) {
    forall i :: 0 <= i < |xs| ==> Decodes(xs[i])
  }

  /** The blob loop succeeds when every content decodes and the upserts do. */
  lemma PutBlobsIs(now: Time, snapshots: set<Id>, rows: BlobRows, xs: seq<ExportBlob>)
    ensures PutBlobs(now, snapshots, rows, xs).Ok? <==>
            AllDecode(xs) && PutAll(BlobsOk(snapshots), rows, BlobItems(now, xs)).Ok?
    ensures PutBlobs(now, snapshots, rows, xs).Ok? ==>
            PutBlobs(now, snapshots, rows, xs) == PutAll(BlobsOk(snapshots), rows, BlobItems(now, xs))
  {
    FoldGuarded(BlobStep(now, snapshots), (x: ExportBlob) => Decodes(x), PutStep(BlobsOk(snapshots)), Aborted, rows, xs,
      BlobItems(now, xs));
  }

  lemma BlobsIgnoreSoft(snapshots: set<Id>)
    ensures PutProofs.IgnoresSoft(BlobsOk(snapshots))
  {
    var ok := BlobsOk(snapshots);
    forall a, b | PutProofs.SameFixed(a, b) ensures ok(a) == ok(b) {
      assert forall k :: k in a <==> k in b;
    }
  }

  lemma MembersIgnoreSoft(collections: set<Id>, targets: set<Id>)
    ensures PutProofs.IgnoresSoft(MembersOk(collections, targets))
  {
    var ok := MembersOk(collections, targets);
    forall a, b | PutProofs.SameFixed(a, b) ensures ok(a) == ok(b) {
      assert forall k :: k in a <==> k in b;
    }
  }

  /** Blob rows keep the creation time of the first import: only content is upserted. */
  lemma BlobsTwice(now: Time, later: Time, ok: BlobRows -> bool, rows: BlobRows, xs: seq<ExportBlob>)
    requires ok(rows) && PutProofs.IgnoresSoft(ok) && PutAll(ok, rows, BlobItems(now, xs)).Ok?
    ensures var after := PutAll(ok, rows, BlobItems(now, xs)).value;
            PutAll(ok, after, BlobItems(later, xs)) == Ok(after)
  {
    PutProofs.PutTwice(ok, rows, BlobItems(now, xs));
    var after := PutAll(ok, rows, BlobItems(now, xs)).value;
    PutProofs.PutAllKeeps(ok, rows, BlobItems(now, xs));
    forall i | 0 <= i < |xs| ensures BlobItem(now, xs[i]).key in after {
      PutProofs.LastSoftOf(BlobItems(now, xs), |xs|, i);
    }
    SameUpsert(ok, after, after, BlobItems(now, xs), BlobItems(later, xs), |xs|);
    assert BlobItems(now, xs)[..|xs|] == BlobItems(now, xs) && BlobItems(later, xs)[..|xs|] == BlobItems(later, xs);
  }

  /** Upserts whose keys are all present do not look at the fixed columns offered. */
  lemma {:induction false} SameUpsert(ok: BlobRows -> bool, base: BlobRows, rows: BlobRows,
                                      xs: seq<PutItem<(Id, string), BlobFixed, BlobSoft>>,
                                      ys: seq<PutItem<(Id, string), BlobFixed, BlobSoft>>, n: nat)
    requires |xs| == |ys| && n <= |xs|
    requires forall i :: 0 <= i < |xs| ==>
        xs[i].key == ys[i].key && xs[i].slot.soft == ys[i].slot.soft && xs[i].key in base
    requires base == rows
    ensures PutAll(ok, rows, xs[..n]) == PutAll(ok, rows, ys[..n])
    ensures PutAll(ok, rows, xs[..n]).Ok? ==> PutAll(ok, rows, xs[..n]).value.Keys == base.Keys
  {
    if n > 0 {
      SameUpsert(ok, base, rows, xs, ys, n - 1);
      FoldSnoc(PutStep(ok), rows, xs, n - 1);
      FoldSnoc(PutStep(ok), rows, ys, n - 1);
    }
  }
}
