/** The database behind the export and import endpoints. */
module BundleService {
  import opened Common
  import opened Json
  import opened BundleMerge
  import opened Bundle
  import opened BundleTheorems
  import BundleStore
  import NamedProofs
  import ByIdProofs
  import Sorting

  class Database {
    var tables: Tables

    constructor ()
      ensures tables == EmptyTables && Valid(tables)
    {
      tables := EmptyTables;
    }

    method ExportAll(opts: ExportOptions) returns (b: ExportBundle)
      requires Sorting.StrictWeak(opts.nameBefore)
      ensures IsExport(tables, opts, b)
    {
      b := BundleStore.BuildBundle(tables, opts);
    }

    /** Checks the request, runs the loops in one transaction, and commits or rolls back: on any error the
        tables are the old ones, and otherwise they are what `Import` says, with every constraint kept. */
    method ImportBundle(env: Env, bundle: Option<ExportBundle>, conflict: string)
        returns (r: Result<ImportResult, ImportError>)
      requires Valid(tables)
      modifies this
      ensures Valid(tables)
      ensures r.Err? <==> Import(env, old(tables), bundle, conflict).Err?
      ensures r.Err? ==> tables == old(tables) && r.error == Import(env, old(tables), bundle, conflict).error
      ensures r.Ok? ==> (tables, r.value) == Import(env, old(tables), bundle, conflict).value
    {
      if bundle.None? {
        return Err(MissingBundle);
      }
      var b := bundle.value;
      if b.formatVersion != FORMAT_VERSION {
        return Err(BadVersion);
      }
      var p := PolicyOf(env, conflict);
      if p.None? {
        return Err(BadPolicy);
      }
      var tx := new BundleStore.Transaction(tables);
      var ok, ph := RunImport(tx, env, b, p.value, tables);
      if !ok {
        NeverRan(env, tables, b, p.value);
        PhasesAbort(env, tables, b, p.value);
        return Err(Aborted);
      }
      ImportByPhases(env, tables, b, conflict, ph);
      ImportKeeps(env, tables, b, conflict);
      tables := tx.Shown();
      r := Ok(tx.result);
    }
  }

  /** The transaction still shows the tables it began with and has counted nothing. */
  ghost predicate Begun(tx: BundleStore.Transaction, t: Tables)
    reads tx
  {
    && tx.Shown() == t
    && tx.targetIdMap == map[] && tx.collectionIdMap == map[] && tx.result == NothingImported
  }

  /** The loops over targets and snapshots. */
  method RunTargets(tx: BundleStore.Transaction, env: Env, b: ExportBundle, p: Policy, ghost t: Tables)
    returns (ok: bool, ghost ts: NamedState<TargetDetails>, ghost sn: ByIdState<SnapshotRow>)
    requires Valid(t) && Begun(tx, t)
    modifies tx`targets, tx`snapshots, tx`targetIdMap, tx`result
    ensures ok ==> TargetPhase(env, t, b, p) == Ok(ts) && SnapshotPhase(t, b, p, ts) == Ok(sn)
    ensures ok ==> ts == NamedState(tx.targets, tx.targetIdMap, tx.result.targetsImported, tx.result.targetsSkipped)
    ensures ok ==> sn == ByIdState(tx.snapshots, tx.result.snapshotsImported, tx.result.snapshotsSkipped)
    ensures ok ==> t.targets.Keys <= tx.targets.Keys && t.snapshots.Keys <= tx.snapshots.Keys
    ensures ok ==> tx.result == NothingImported.(targetsImported := ts.imported, targetsSkipped := ts.skipped,
                                                 snapshotsImported := sn.imported, snapshotsSkipped := sn.skipped)
    ensures !ok ==> TargetPhase(env, t, b, p).Err? || SnapshotPhase(t, b, p, TargetPhase(env, t, b, p).value).Err?
  {
    ts, sn := NamedState(map[], map[], 0, 0), ByIdState(map[], 0, 0);
    ok := tx.ImportTargets(env, p, b.targets);
    if !ok { return; }
    ts := TargetPhase(env, t, b, p).value;
    NamedProofs.MergeNamedKeeps(p, t.targets, TargetItems(env, b.targets));
    SnapshotRefsGrow(t.targets.Keys, tx.targets.Keys, t.snapshots);
    ok := tx.ImportSnapshots(p, b.snapshots);
    if !ok { return; }
    sn := SnapshotPhase(t, b, p, ts).value;
    ByIdProofs.MergeByIdKeeps(p, SnapshotsOk(ts.rows.Keys), t.snapshots, SnapshotItems(ts.idMap, b.snapshots));
  }

  /** The loops over blobs and collections. */
  method RunCollections(tx: BundleStore.Transaction, env: Env, b: ExportBundle, p: Policy, ghost t: Tables,
                        ghost sn: ByIdState<SnapshotRow>)
    returns (ok: bool, ghost co: NamedState<CollectionDetails>)
    requires Valid(t) && tx.blobs == t.blobs && tx.collections == t.collections && tx.collectionIdMap == map[]
    requires tx.result.blobsImported == tx.result.collectionsImported == tx.result.collectionsSkipped == 0
    requires tx.snapshots == sn.rows && t.snapshots.Keys <= tx.snapshots.Keys
    modifies tx`blobs, tx`collections, tx`collectionIdMap, tx`result
    ensures ok ==> BlobPhase(env, t, b, sn) == Ok(tx.blobs) && CollectionPhase(t, b, p) == Ok(co)
    ensures ok ==>
        co == NamedState(tx.collections, tx.collectionIdMap, tx.result.collectionsImported,
        tx.result.collectionsSkipped)
    ensures ok ==> t.collections.Keys <= tx.collections.Keys
    ensures ok ==>
        tx.result == old(tx.result).(blobsImported := |b.blobs|, collectionsImported := co.imported,
        collectionsSkipped := co.skipped)
    ensures !ok ==> BlobPhase(env, t, b, sn).Err? || CollectionPhase(t, b, p).Err?
  {
    co := NamedState(map[], map[], 0, 0);
    ok := tx.ImportBlobs(env.now, b.blobs);
    if !ok { return; }
    ok := tx.ImportCollections(p, b.collections);
    if !ok { return; }
    co := CollectionPhase(t, b, p).value;
    NamedProofs.MergeNamedKeeps(p, t.collections, CollectionItems(b.collections));
  }

  /** The loops over memberships, notes and views. */
  method RunReferences(tx: BundleStore.Transaction, b: ExportBundle, p: Policy, ghost t: Tables,
                       ghost ts: NamedState<TargetDetails>,
                       ghost sn: ByIdState<SnapshotRow>, ghost co: NamedState<CollectionDetails>)
    returns (ok: bool, ghost no: ByIdState<NoteRow>, ghost vi: ByIdState<ViewRow>)
    requires Valid(t) && tx.members == t.members && tx.notes == t.notes && tx.views == t.views
    requires tx.targets == ts.rows && tx.targetIdMap == ts.idMap && tx.snapshots == sn.rows
    requires tx.collections == co.rows && tx.collectionIdMap == co.idMap
    requires t.targets.Keys <= tx.targets.Keys && t.snapshots.Keys <= tx.snapshots.Keys
        && t.collections.Keys <= tx.collections.Keys
    requires tx.result.membersImported == tx.result.notesImported == tx.result.notesSkipped == tx.result.viewsImported
        == tx.result.viewsSkipped == 0
    modifies tx`members, tx`notes, tx`views, tx`result
    ensures ok ==>
        MemberPhase(t, b, ts, co) == Ok(tx.members) && NotePhase(t, b, p, ts, sn, co) == Ok(no)
        && ViewPhase(t, b, p, ts, sn) == Ok(vi)
    ensures ok ==> no.rows == tx.notes && vi.rows == tx.views
    ensures ok ==> tx.result == old(tx.result).(membersImported := |MemberItems(co.idMap, ts.idMap, b.members)|,
                                                notesImported := no.imported, notesSkipped := no.skipped,
                                                viewsImported := vi.imported, viewsSkipped := vi.skipped)
    ensures !ok ==>
        MemberPhase(t, b, ts, co).Err? || NotePhase(t, b, p, ts, sn, co).Err? || ViewPhase(t, b, p, ts, sn).Err?
  {
    no, vi := ByIdState(map[], 0, 0), ByIdState(map[], 0, 0);
    ReferencesGrow(t, ts.rows.Keys, sn.rows.Keys, co.rows.Keys);
    ok := tx.ImportMembers(b.members);
    if !ok { return; }
    ok := tx.ImportNotes(p, b.notes);
    if !ok { return; }
    no := NotePhase(t, b, p, ts, sn, co).value;
    ok := tx.ImportViews(p, b.views);
    if !ok { return; }
    vi := ViewPhase(t, b, p, ts, sn).value;
  }

  /** Webhooks and settings, which cannot fail. */
  method RunConfig(tx: BundleStore.Transaction, env: Env, b: ExportBundle, ghost t: Tables)
    requires tx.webhooks == t.webhooks && tx.settings == t.settings
    requires tx.result.webhooksImported == 0 && !tx.result.settingsImported
    modifies tx`webhooks, tx`settings, tx`result
    ensures WebhookPhase(t, b) == Ok(tx.webhooks) && tx.settings == SettingsAfter(env, t, b)
    ensures tx.result == old(tx.result).(webhooksImported := |b.webhooks|, settingsImported := b.settings.Some?)
  {
    tx.ImportWebhooks(b.webhooks);
    if b.settings.Some? {
      tx.settings := Some(SettingsRow(Obj(b.settings.value), env.now));
      tx.result := tx.result.(settingsImported := true);
    }
  }

  /** The first four loops. */
  method RunNodes(tx: BundleStore.Transaction, env: Env, b: ExportBundle, p: Policy, ghost t: Tables)
    returns (ok: bool, ghost ts: NamedState<TargetDetails>, ghost sn: ByIdState<SnapshotRow>,
        ghost co: NamedState<CollectionDetails>)
    requires Valid(t) && Begun(tx, t)
    modifies tx`targets, tx`snapshots, tx`blobs, tx`collections, tx`targetIdMap, tx`collectionIdMap, tx`result
    ensures ok ==> TargetPhase(env, t, b, p) == Ok(ts) && SnapshotPhase(t, b, p, ts) == Ok(sn)
    ensures ok ==> BlobPhase(env, t, b, sn) == Ok(tx.blobs) && CollectionPhase(t, b, p) == Ok(co)
    ensures ok ==> tx.targets == ts.rows && tx.targetIdMap == ts.idMap && tx.snapshots == sn.rows
    ensures ok ==> tx.collections == co.rows && tx.collectionIdMap == co.idMap
    ensures ok ==>
        t.targets.Keys <= tx.targets.Keys && t.snapshots.Keys <= tx.snapshots.Keys
        && t.collections.Keys <= tx.collections.Keys
    ensures ok ==> tx.result == NothingImported.(targetsImported := ts.imported, targetsSkipped := ts.skipped,
                                                 snapshotsImported := sn.imported, snapshotsSkipped := sn.skipped,
                                                 blobsImported := |b.blobs|, collectionsImported := co.imported,
                                                 collectionsSkipped := co.skipped)
    ensures !ok ==> forall q :: !Ran(env, t, b, p, q)
  {
    co := NamedState(map[], map[], 0, 0);
    ok, ts, sn := RunTargets(tx, env, b, p, t);
    if !ok { return; }
    ok, co := RunCollections(tx, env, b, p, t, sn);
  }

  /** The remaining loops, given what the first four left behind. */
  method RunRest(tx: BundleStore.Transaction, env: Env, b: ExportBundle, p: Policy, ghost t: Tables,
                 ghost ts: NamedState<TargetDetails>,
                 ghost sn: ByIdState<SnapshotRow>, ghost co: NamedState<CollectionDetails>)
    returns (ok: bool, ghost no: ByIdState<NoteRow>, ghost vi: ByIdState<ViewRow>)
    requires Valid(t) && tx.members == t.members && tx.notes == t.notes && tx.views == t.views
    requires tx.webhooks == t.webhooks && tx.settings == t.settings
    requires tx.targets == ts.rows && tx.targetIdMap == ts.idMap && tx.snapshots == sn.rows
    requires tx.collections == co.rows && tx.collectionIdMap == co.idMap
    requires t.targets.Keys <= tx.targets.Keys && t.snapshots.Keys <= tx.snapshots.Keys
        && t.collections.Keys <= tx.collections.Keys
    requires tx.result == NothingImported.(targetsImported := ts.imported, targetsSkipped := ts.skipped,
                                           snapshotsImported := sn.imported, snapshotsSkipped := sn.skipped,
                                           blobsImported := |b.blobs|, collectionsImported := co.imported,
                                           collectionsSkipped := co.skipped)
    modifies tx`members, tx`notes, tx`views, tx`webhooks, tx`settings, tx`result
    ensures ok ==>
        MemberPhase(t, b, ts, co) == Ok(tx.members) && NotePhase(t, b, p, ts, sn, co) == Ok(no)
        && ViewPhase(t, b, p, ts, sn) == Ok(vi)
    ensures ok ==> WebhookPhase(t, b) == Ok(tx.webhooks) && tx.settings == SettingsAfter(env, t, b)
    ensures ok ==> no.rows == tx.notes && vi.rows == tx.views
    ensures ok ==> forall bl :: tx.result == ResultOf(b, Phases(ts, sn, bl, co, tx.members, no, vi, tx.webhooks))
    ensures !ok ==>
        MemberPhase(t, b, ts, co).Err? || NotePhase(t, b, p, ts, sn, co).Err? || ViewPhase(t, b, p, ts, sn).Err?
  {
    ok, no, vi := RunReferences(tx, b, p, t, ts, sn, co);
    if !ok { return; }
    RunConfig(tx, env, b, t);
  }

  /** The loops of the import in their order; the first failure ends it. */
  method RunImport(tx: BundleStore.Transaction, env: Env, b: ExportBundle, p: Policy, ghost t: Tables)
      returns (ok: bool, ghost ph: Phases)
    requires Valid(t) && Begun(tx, t)
    modifies tx
    ensures ok ==> Ran(env, t, b, p, ph) && tx.result == ResultOf(b, ph)
    ensures ok ==> tx.Shown() == TablesAfter(env, t, b, ph)
    ensures !ok ==> forall q :: !Ran(env, t, b, p, q)
  {
    ph := Phases(NamedState(map[], map[], 0, 0), ByIdState(map[], 0, 0), map[], NamedState(map[], map[], 0, 0), map[],
                 ByIdState(map[], 0, 0), ByIdState(map[], 0, 0), map[]);
    ghost var ts, sn, co, no, vi;
    ok, ts, sn, co := RunNodes(tx, env, b, p, t);
    if !ok { return; }
    ok, no, vi := RunRest(tx, env, b, p, t, ts, sn, co);
    if !ok { return; }
    ph := Phases(ts, sn, tx.blobs, co, tx.members, no, vi, tx.webhooks);
  }

  lemma NeverRan(env: Env, t: Tables, b: ExportBundle, p: Policy)
    requires forall q :: !Ran(env, t, b, p, q)
    ensures RunPhases(env, t, b, p).Err?
  {
    var r := RunPhases(env, t, b, p);
    if r.Ok? {
      RanIff(env, t, b, p, r.value);
    }
  }

  lemma SnapshotRefsGrow(before: set<Id>, after: set<Id>, rows: map<Id, SnapshotRow>)
    requires before <= after && SnapshotRefs(before, rows)
    ensures SnapshotRefs(after, rows)
  {
  }
}
