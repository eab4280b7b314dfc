/** What the name of the conflict strategy makes of an import, item by item. */
module ImportPolicies {
  import opened Common
  import opened BundleMerge
  import opened Bundle
  import opened BundleTheorems
  import opened BundleConstraints
  import opened Json
  import Base64
  import NamedProofs
  import OverwriteProofs
  import ByIdProofs
  import PutProofs

  // ---- Which requests are refused ----

  /** A request without a bundle, with a bundle of another version, or with another name is refused for that reason,
      the first of these that applies; any other fails only inside the transaction. */
  lemma RefusedExactly(env: Env, t: Tables, bundle: Option<ExportBundle>, conflict: string)
    ensures var r, name := Import(env, t, bundle, conflict), env.foldCase(conflict);
            && (r == Err(MissingBundle) <==> bundle.None?)
            && (r == Err(BadVersion) <==> bundle.Some? && bundle.value.formatVersion != 1)
            && (r == Err(BadPolicy) <==> bundle.Some? && bundle.value.formatVersion == 1
                                         && name != "" && name != "overwrite" && name != "skip")
  {
    assert "skip" != "overwrite" && "skip" != "";
    if bundle.Some? && PolicyOf(env, conflict).Some? {
      var p := PolicyOf(env, conflict).value;
      if RunPhases(env, t, bundle.value, p).Err? { PhasesAbort(env, t, bundle.value, p); }
    }
  }

  // ---- Skip ----

  lemma SkipMeans(env: Env, conflict: string)
    requires env.foldCase(conflict) == "skip"
    ensures PolicyOf(env, conflict) == Some(Skip)
  {
    assert "skip" != "overwrite" && "skip" != "";
  }

  /** Under "skip" every target, snapshot, collection, note and view of the store stays as it was, and the rows that
      are imported are those that were not there. */
  lemma SkipKeepsOldRows(env: Env, t: Tables, b: ExportBundle, conflict: string)
    requires Valid(t) && env.foldCase(conflict) == "skip" && Import(env, t, Some(b), conflict).Ok?
    ensures var (u, r) := Import(env, t, Some(b), conflict).value;
            && (forall i :: i in t.targets ==> i in u.targets && u.targets[i] == t.targets[i])
            && (forall i :: i in t.snapshots ==> i in u.snapshots && u.snapshots[i] == t.snapshots[i])
            && (forall i :: i in t.collections ==> i in u.collections && u.collections[i] == t.collections[i])
            && (forall i :: i in t.notes ==> i in u.notes && u.notes[i] == t.notes[i])
            && (forall i :: i in t.views ==> i in u.views && u.views[i] == t.views[i])
  {
    SkipMeans(env, conflict);
    ImportKeeps(env, t, b, conflict);
  }

  lemma {:induction false} SkipCountsNewRows(env: Env, t: Tables, b: ExportBundle, conflict: string)
    requires Valid(t) && env.foldCase(conflict) == "skip" && Import(env, t, Some(b), conflict).Ok?
    ensures var (u, r) := Import(env, t, Some(b), conflict).value;
            && r.targetsImported == |u.targets| - |t.targets|
            && r.targetsSkipped == |b.targets| - r.targetsImported
            && r.snapshotsImported == |u.snapshots| - |t.snapshots|
            && r.snapshotsSkipped == |b.snapshots| - r.snapshotsImported
            && r.collectionsImported == |u.collections| - |t.collections|
            && r.collectionsSkipped == |b.collections| - r.collectionsImported
            && r.notesImported == |u.notes| - |t.notes| && r.notesSkipped == |b.notes| - r.notesImported
            && r.viewsImported == |u.views| - |t.views| && r.viewsSkipped == |b.views| - r.viewsImported
  {
    SkipMeans(env, conflict);
    ImportKeeps(env, t, b, conflict);
    var ph := RunPhases(env, t, b, Skip).value;
    RanIff(env, t, b, Skip, ph);
    Counted(env, t, b, Skip, ph);
  }

  lemma Counted(env: Env, t: Tables, b: ExportBundle, p: Policy, ph: Phases)
    requires Ran(env, t, b, p, ph)
    ensures p.Skip? ==>
              && ph.targets.imported == |ph.targets.rows| - |t.targets|
              && ph.snapshots.imported == |ph.snapshots.rows| - |t.snapshots|
              && ph.collections.imported == |ph.collections.rows| - |t.collections|
              && ph.notes.imported == |ph.notes.rows| - |t.notes| && ph.views.imported == |ph.views.rows| - |t.views|
    ensures p.Overwrite? ==> ph.targets.skipped == 0 && ph.collections.skipped == 0
    ensures p.Overwrite? ==>
              ph.snapshots.imported == ByIdProofs.Live(SnapshotItems(ph.targets.idMap, b.snapshots))
              && ph.notes.imported == ByIdProofs.Live(NoteItems(ph.collections.idMap, ph.targets.idMap, b.notes))
              && ph.views.imported == ByIdProofs.Live(ViewItems(ph.targets.idMap, b.views))
  {
    NamedProofs.MergeNamedCounts(p, t.targets, TargetItems(env, b.targets));
    NamedProofs.MergeNamedCounts(p, t.collections, CollectionItems(b.collections));
    ByIdProofs.MergeByIdCounts(p, SnapshotsOk(ph.targets.rows.Keys), t.snapshots,
        SnapshotItems(ph.targets.idMap, b.snapshots));
    ByIdProofs.MergeByIdCounts(p, NotesOk(ph.targets.rows.Keys, ph.snapshots.rows.Keys, ph.collections.rows.Keys),
        t.notes, NoteItems(ph.collections.idMap, ph.targets.idMap, b.notes));
    ByIdProofs.MergeByIdCounts(p, ViewsOk(ph.targets.rows.Keys, ph.snapshots.rows.Keys), t.views,
        ViewItems(ph.targets.idMap, b.views));
  }

  // ---- Overwrite ----

  lemma OverwriteMeans(env: Env, conflict: string)
    requires env.foldCase(conflict) == "" || env.foldCase(conflict) == "overwrite"
    ensures PolicyOf(env, conflict) == Some(Overwrite)
  {
  }

  /** One of the first `j` targets of the bundle has the id. */
  ghost predicate TargetBeforeIt(b: ExportBundle, j: nat, id: Id)
    requires j <= |b.targets|
  {
    exists i :: 0 <= i < j && b.targets[i].id == id
  }

  /** The columns a target's item gives: its host is normalized if the bundle does not do it. */
  function TargetColumns(env: Env, x: ExportTarget): TargetDetails {
    TargetDetails(Some(if x.normalizedHost != "" then x.normalizedHost else env.normalizeHost(x.host)),
                  Some(match x.tags case Some(tags) => tags case None => []))
  }

  /** Target `j` gets a row of its own: it has one, or no old row with its host is left that was not taken before. */
  ghost predicate TargetOwns(t: Tables, b: ExportBundle, j: nat)
    requires j < |b.targets|
  {
    || b.targets[j].id in t.targets
    || forall o :: o in t.targets && t.targets[o].key == b.targets[j].host ==> TargetBeforeIt(b, j, o)
  }

  /** `r` is the row of target `j` after the import. */
  ghost predicate TargetLandsIn(t: Tables, b: ExportBundle, j: nat, r: Id)
    requires j < |b.targets|
  {
    if TargetOwns(t, b, j) then r == b.targets[j].id
    else r in t.targets && t.targets[r].key == b.targets[j].host && !TargetBeforeIt(b, j, r)
  }

  /** The target is written: under its id, or else into the old row with its host, which keeps its host and age and
      shows the item's columns unless a later target has the row's id. */
  ghost predicate TargetWritten(env: Env, t: Tables, b: ExportBundle, j: nat, u: Tables)
    requires j < |b.targets|
  {
    exists r :: TargetLandsIn(t, b, j, r) && TargetShows(env, t, b, j, r, u)
  }

  ghost predicate TargetShows(env: Env, t: Tables, b: ExportBundle, j: nat, r: Id, u: Tables)
    requires j < |b.targets|
  {
    var x := b.targets[j];
    r in u.targets
    && if TargetOwns(t, b, j) then u.targets[r] == Named(x.host, x.createdAt, TargetColumns(env, x))
       else x.id !in u.targets && r in t.targets
            && (!TargetBeforeIt(b, |b.targets|, r) ==>
                  u.targets[r] == t.targets[r].(details := TargetColumns(env, x)))
  }

  lemma TargetItemsSeen(env: Env, b: ExportBundle, n: nat, id: Id)
    requires n <= |b.targets|
    ensures NamedProofs.Seen(TargetItems(env, b.targets), n, id) <==> TargetBeforeIt(b, n, id)
  {
    var items := TargetItems(env, b.targets);
    if i :| 0 <= i < n && items[i].id == id { assert b.targets[i].id == id; }
    if i :| 0 <= i < n && b.targets[i].id == id { assert items[i].id == id; }
  }

  lemma TargetEnds(env: Env, t: Tables, b: ExportBundle, ts: NamedState<TargetDetails>, j: nat)
    requires Valid(t) && NoRepeats(b) && j < |b.targets| && TargetPhase(env, t, b, Overwrite) == Ok(ts)
    ensures b.targets[j].id in ts.idMap && TargetLandsIn(t, b, j, ts.idMap[b.targets[j].id])
    ensures forall u: Tables :: u.targets == ts.rows ==> TargetShows(env, t, b, j, ts.idMap[b.targets[j].id], u)
  {
    var items := TargetItems(env, b.targets);
    HostsUntangledIff(env, t, b.targets);
    OverwriteProofs.OverwriteEnds(t.targets, items);
    OverwriteProofs.OverwriteKeepsAges(t.targets, items);
    assert OverwriteProofs.OwnRow(t.targets, items, ts, j)
        || OverwriteProofs.MergedRow(t.targets, items, |items|, ts, j);
    forall n, k | 0 <= n <= |items| ensures NamedProofs.Seen(items, n, k) <==> TargetBeforeIt(b, n, k) {
      TargetItemsSeen(env, b, n, k);
    }
    assert items[j] == TargetItem(env, b.targets[j]);
  }

  // ---- The same for collections and names ----

  ghost predicate CollectionBeforeIt(b: ExportBundle, j: nat, id: Id)
    requires j <= |b.collections|
  {
    exists i :: 0 <= i < j && b.collections[i].id == id
  }

  ghost predicate CollectionOwns(t: Tables, b: ExportBundle, j: nat)
    requires j < |b.collections|
  {
    || b.collections[j].id in t.collections
    || forall o :: o in t.collections && t.collections[o].key == b.collections[j].name ==> CollectionBeforeIt(b, j, o)
  }

  ghost predicate CollectionLandsIn(t: Tables, b: ExportBundle, j: nat, r: Id)
    requires j < |b.collections|
  {
    if CollectionOwns(t, b, j) then r == b.collections[j].id
    else r in t.collections && t.collections[r].key == b.collections[j].name && !CollectionBeforeIt(b, j, r)
  }

  ghost predicate CollectionWritten(t: Tables, b: ExportBundle, j: nat, u: Tables)
    requires j < |b.collections|
  {
    exists r :: CollectionLandsIn(t, b, j, r) && CollectionShows(t, b, j, r, u)
  }

  ghost predicate CollectionShows(t: Tables, b: ExportBundle, j: nat, r: Id, u: Tables)
    requires j < |b.collections|
  {
    var x := b.collections[j];
    var columns := CollectionDetails(x.description, x.updatedAt);
    r in u.collections
    && if CollectionOwns(t, b, j) then u.collections[r] == Named(x.name, x.createdAt, columns)
       else x.id !in u.collections && r in t.collections
            && (!CollectionBeforeIt(b, |b.collections|, r) ==>
                  u.collections[r] == t.collections[r].(details := columns))
  }

  lemma CollectionItemsSeen(b: ExportBundle, n: nat, id: Id)
    requires n <= |b.collections|
    ensures NamedProofs.Seen(CollectionItems(b.collections), n, id) <==> CollectionBeforeIt(b, n, id)
  {
    var items := CollectionItems(b.collections);
    if i :| 0 <= i < n && items[i].id == id { assert b.collections[i].id == id; }
    if i :| 0 <= i < n && b.collections[i].id == id { assert items[i].id == id; }
  }

  lemma CollectionEnds(t: Tables, b: ExportBundle, co: NamedState<CollectionDetails>, j: nat)
    requires Valid(t) && NoRepeats(b) && j < |b.collections| && CollectionPhase(t, b, Overwrite) == Ok(co)
    ensures b.collections[j].id in co.idMap && CollectionLandsIn(t, b, j, co.idMap[b.collections[j].id])
    ensures forall u: Tables :: u.collections == co.rows ==>
        CollectionShows(t, b, j, co.idMap[b.collections[j].id], u)
  {
    var items := CollectionItems(b.collections);
    NamesUntangledIff(t, b.collections);
    OverwriteProofs.OverwriteEnds(t.collections, items);
    OverwriteProofs.OverwriteKeepsAges(t.collections, items);
    assert OverwriteProofs.OwnRow(t.collections, items, co, j)
        || OverwriteProofs.MergedRow(t.collections, items, |items|, co, j);
    forall n, k | 0 <= n <= |items| ensures NamedProofs.Seen(items, n, k) <==> CollectionBeforeIt(b, n, k) {
      CollectionItemsSeen(b, n, k);
    }
    assert items[j] == CollectionItem(b.collections[j]);
  }

  // ---- Snapshots, notes and views ----

  ghost predicate TargetOf(t: Tables, b: ExportBundle, k: nat, id: Id, r: Id)
    requires k < |b.targets|
  {
    b.targets[k].id == id && TargetLandsIn(t, b, k, r)
  }

  /** A reference to a target of the bundle, and what it becomes; other references stay. */
  ghost predicate TargetRef(t: Tables, b: ExportBundle, was: Option<Id>, at: Option<Id>) {
    if was.Some? && TargetBeforeIt(b, |b.targets|, was.value)
    then at.Some? && exists k :: 0 <= k < |b.targets| && TargetOf(t, b, k, was.value, at.value)
    else at == was
  }

  ghost predicate CollectionOf(t: Tables, b: ExportBundle, k: nat, id: Id, r: Id)
    requires k < |b.collections|
  {
    b.collections[k].id == id && CollectionLandsIn(t, b, k, r)
  }

  ghost predicate CollectionRef(t: Tables, b: ExportBundle, was: Option<Id>, at: Option<Id>) {
    if was.Some? && CollectionBeforeIt(b, |b.collections|, was.value)
    then at.Some? && exists k :: 0 <= k < |b.collections| && CollectionOf(t, b, k, was.value, at.value)
    else at == was
  }

  lemma TargetMapped(env: Env, t: Tables, b: ExportBundle, ts: NamedState<TargetDetails>, was: Option<Id>)
    requires Valid(t) && NoRepeats(b) && TargetPhase(env, t, b, Overwrite) == Ok(ts)
    ensures TargetRef(t, b, was, Remap(was, ts.idMap))
    ensures was.Some? ==> (was.value in ts.idMap <==> TargetBeforeIt(b, |b.targets|, was.value))
  {
    var items := TargetItems(env, b.targets);
    NamedProofs.MergeNamedKeeps(Overwrite, t.targets, items);
    if was.Some? {
      TargetItemsSeen(env, b, |b.targets|, was.value);
      if was.value in ts.idMap {
        var k :| 0 <= k < |b.targets| && b.targets[k].id == was.value;
        TargetEnds(env, t, b, ts, k);
        assert TargetOf(t, b, k, was.value, ts.idMap[was.value]);
      }
    }
  }

  lemma CollectionMapped(t: Tables, b: ExportBundle, co: NamedState<CollectionDetails>, was: Option<Id>)
    requires Valid(t) && NoRepeats(b) && CollectionPhase(t, b, Overwrite) == Ok(co)
    ensures CollectionRef(t, b, was, Remap(was, co.idMap))
  {
    var items := CollectionItems(b.collections);
    NamedProofs.MergeNamedKeeps(Overwrite, t.collections, items);
    if was.Some? {
      CollectionItemsSeen(b, |b.collections|, was.value);
      if was.value in co.idMap {
        var k :| 0 <= k < |b.collections| && b.collections[k].id == was.value;
        CollectionEnds(t, b, co, k);
        assert CollectionOf(t, b, k, was.value, co.idMap[was.value]);
      }
    }
  }

  /** A snapshot of a target of the bundle is written under its id with all its columns, under the target's row. */
  ghost predicate SnapshotWritten(t: Tables, b: ExportBundle, x: ExportSnapshot, u: Tables) {
    TargetBeforeIt(b, |b.targets|, x.targetId) ==>
      && x.id in u.snapshots
      && var row := u.snapshots[x.id];
         && TargetRef(t, b, Some(x.targetId), Some(row.targetId)) && row.body == x.body
         && row.rawData == (match x.rawData case Some(d) => d case None => map[])
         && row.changes == Some(match x.changes case Some(c) => c case None => [])
         && row.changeDetails == Some(match x.changeDetails case Some(c) => c case None => [])
         && row.clientIp == Some(x.clientIp)
  }

  lemma SnapshotEnds(env: Env, t: Tables, b: ExportBundle, ph: Phases, j: nat)
    requires Valid(t) && NoRepeats(b) && Ran(env, t, b, Overwrite, ph) && j < |b.snapshots|
    ensures SnapshotWritten(t, b, b.snapshots[j], TablesAfter(env, t, b, ph))
  {
    var x := b.snapshots[j];
    var items := SnapshotItems(ph.targets.idMap, b.snapshots);
    TargetMapped(env, t, b, ph.targets, Some(x.targetId));
    ByIdProofs.OverwriteWrites(SnapshotsOk(ph.targets.rows.Keys), t.snapshots, items);
    assert items[j] == SnapshotItem(ph.targets.idMap, x);
  }

  ghost predicate NoteWritten(t: Tables, b: ExportBundle, x: ExportNote, u: Tables) {
    && x.id in u.notes
    && var row := u.notes[x.id];
       && row.body == x.body && row.status == x.status && row.snapshotId == x.snapshotId
       && row.graphNodeId == x.graphNodeId && row.refs == (match x.refs case Some(r) => r case None => [])
       && TargetRef(t, b, x.targetId, row.targetId) && CollectionRef(t, b, x.collectionId, row.collectionId)
  }

  lemma NoteEnds(env: Env, t: Tables, b: ExportBundle, ph: Phases, j: nat)
    requires Valid(t) && NoRepeats(b) && Ran(env, t, b, Overwrite, ph) && j < |b.notes|
    ensures NoteWritten(t, b, b.notes[j], TablesAfter(env, t, b, ph))
  {
    var x := b.notes[j];
    var items := NoteItems(ph.collections.idMap, ph.targets.idMap, b.notes);
    TargetMapped(env, t, b, ph.targets, x.targetId);
    CollectionMapped(t, b, ph.collections, x.collectionId);
    ByIdProofs.OverwriteWrites(NotesOk(ph.targets.rows.Keys, ph.snapshots.rows.Keys, ph.collections.rows.Keys),
        t.notes, items);
    assert items[j] == NoteItem(ph.collections.idMap, ph.targets.idMap, x);
  }

  ghost predicate ViewWritten(t: Tables, b: ExportBundle, x: ExportView, u: Tables) {
    && x.id in u.views
    && var row := u.views[x.id];
       && row.name == x.name && row.body == x.body && row.snapshotId == x.snapshotId
       && row.compareSnapshotId == x.compareSnapshotId
       && row.pinned == (match x.pinned case Some(d) => d case None => map[])
       && TargetRef(t, b, x.targetId, row.targetId)
  }

  lemma ViewEnds(env: Env, t: Tables, b: ExportBundle, ph: Phases, j: nat)
    requires Valid(t) && NoRepeats(b) && Ran(env, t, b, Overwrite, ph) && j < |b.views|
    ensures ViewWritten(t, b, b.views[j], TablesAfter(env, t, b, ph))
  {
    var x := b.views[j];
    var items := ViewItems(ph.targets.idMap, b.views);
    TargetMapped(env, t, b, ph.targets, x.targetId);
    ByIdProofs.OverwriteWrites(ViewsOk(ph.targets.rows.Keys, ph.snapshots.rows.Keys), t.views, items);
    assert items[j] == ViewItem(ph.targets.idMap, x);
  }

  /** Every item of the bundle is written. */
  ghost predicate AllWritten(env: Env, t: Tables, b: ExportBundle, u: Tables) {
    && (forall j :: 0 <= j < |b.targets| ==> TargetWritten(env, t, b, j, u))
    && (forall j :: 0 <= j < |b.collections| ==> CollectionWritten(t, b, j, u))
    && (forall j :: 0 <= j < |b.snapshots| ==> SnapshotWritten(t, b, b.snapshots[j], u))
    && (forall j :: 0 <= j < |b.notes| ==> NoteWritten(t, b, b.notes[j], u))
    && (forall j :: 0 <= j < |b.views| ==> ViewWritten(t, b, b.views[j], u))
  }

  /** Under "overwrite" or the empty name each item of a bundle without repetitions is written: a target or collection
      under its id or into the row with its key, a snapshot, note or view under its id. */
  lemma OverwriteWritesItems(env: Env, t: Tables, b: ExportBundle, conflict: string)
    requires env.foldCase(conflict) == "" || env.foldCase(conflict) == "overwrite"
    requires Valid(t) && NoRepeats(b) && Import(env, t, Some(b), conflict).Ok?
    ensures AllWritten(env, t, b, Import(env, t, Some(b), conflict).value.0)
  {
    OverwriteMeans(env, conflict);
    var ph := RunPhases(env, t, b, Overwrite).value;
    RanIff(env, t, b, Overwrite, ph);
    PhasesWrite(env, t, b, ph);
  }

  lemma PhasesWrite(env: Env, t: Tables, b: ExportBundle, ph: Phases)
    requires Valid(t) && NoRepeats(b) && Ran(env, t, b, Overwrite, ph)
    ensures AllWritten(env, t, b, TablesAfter(env, t, b, ph))
  {
    var u := TablesAfter(env, t, b, ph);
    forall j | 0 <= j < |b.targets| ensures TargetWritten(env, t, b, j, u) {
      TargetEnds(env, t, b, ph.targets, j);
    }
    forall j | 0 <= j < |b.collections| ensures CollectionWritten(t, b, j, u) {
      CollectionEnds(t, b, ph.collections, j);
    }
    forall j | 0 <= j < |b.snapshots| ensures SnapshotWritten(t, b, b.snapshots[j], u) {
      SnapshotEnds(env, t, b, ph, j);
    }
    forall j | 0 <= j < |b.notes| ensures NoteWritten(t, b, b.notes[j], u) { NoteEnds(env, t, b, ph, j); }
    forall j | 0 <= j < |b.views| ensures ViewWritten(t, b, b.views[j], u) { ViewEnds(env, t, b, ph, j); }
  }

  /** Snapshots of the bundle whose target is in the bundle. */
  ghost function OfBundleTargets(b: ExportBundle, xs: seq<ExportSnapshot>): nat {
    if xs == [] then 0
    else
      var last := if TargetBeforeIt(b, |b.targets|, xs[|xs| - 1].targetId) then 1 else 0;
      OfBundleTargets(b, xs[..|xs| - 1]) + last
  }

  /** And all of them are counted as imported, but for the snapshots of targets that the bundle does not hold. */
  lemma {:induction false} OverwriteCountsItems(env: Env, t: Tables, b: ExportBundle, conflict: string)
    requires env.foldCase(conflict) == "" || env.foldCase(conflict) == "overwrite"
    requires Valid(t) && NoRepeats(b) && Import(env, t, Some(b), conflict).Ok?
    ensures var r := Import(env, t, Some(b), conflict).value.1;
            && r.targetsImported == |b.targets| && r.targetsSkipped == 0
            && r.collectionsImported == |b.collections| && r.collectionsSkipped == 0
            && r.snapshotsImported == OfBundleTargets(b, b.snapshots)
            && r.snapshotsSkipped == |b.snapshots| - r.snapshotsImported
            && r.notesImported == |b.notes| && r.notesSkipped == 0
            && r.viewsImported == |b.views| && r.viewsSkipped == 0
  {
    OverwriteMeans(env, conflict);
    ImportKeeps(env, t, b, conflict);
    var ph := RunPhases(env, t, b, Overwrite).value;
    RanIff(env, t, b, Overwrite, ph);
    OverwriteCounted(env, t, b, ph);
  }

  lemma {:induction false} OverwriteCounted(env: Env, t: Tables, b: ExportBundle, ph: Phases)
    requires Valid(t) && NoRepeats(b) && Ran(env, t, b, Overwrite, ph)
    ensures ph.targets.skipped == 0 && ph.collections.skipped == 0
    ensures ph.snapshots.imported == OfBundleTargets(b, b.snapshots)
    ensures ph.notes.imported == |b.notes| && ph.views.imported == |b.views|
  {
    Counted(env, t, b, Overwrite, ph);
    LiveSnapshots(env, t, b, ph.targets, b.snapshots);
    AllLive(NoteItems(ph.collections.idMap, ph.targets.idMap, b.notes));
    AllLive(ViewItems(ph.targets.idMap, b.views));
  }

  lemma {:induction false} AllLive<R(!new)>(items: seq<ByIdItem<R>>)
    requires forall j :: 0 <= j < |items| ==> items[j].row.Some?
    ensures ByIdProofs.Live(items) == |items|
  {
    if items != [] { AllLive(items[..|items| - 1]); }
  }

  lemma {:induction false} LiveSnapshots(env: Env, t: Tables, b: ExportBundle, ts: NamedState<TargetDetails>,
                                         xs: seq<ExportSnapshot>)
    requires Valid(t) && NoRepeats(b) && TargetPhase(env, t, b, Overwrite) == Ok(ts)
    ensures ByIdProofs.Live(SnapshotItems(ts.idMap, xs)) == OfBundleTargets(b, xs)
  {
    if xs != [] {
      var n := |xs| - 1;
      LiveSnapshots(env, t, b, ts, xs[..n]);
      TargetMapped(env, t, b, ts, Some(xs[n].targetId));
      assert SnapshotItems(ts.idMap, xs)[..n] == SnapshotItems(ts.idMap, xs[..n]);
    }
  }

  // ---- Blobs, memberships, webhooks and settings: alike under every strategy ----

  lemma {:induction false} LastSoftIs<K(!new), F(!new), S(!new)>(items: seq<PutItem<K, F, S>>, n: nat, j: nat)
    requires j < n <= |items| && forall i :: j < i < n ==> items[i].key != items[j].key
    ensures PutProofs.LastSoft(items, n, items[j].key) == Some(items[j].slot.soft)
  {
    if j < n - 1 { LastSoftIs(items, n - 1, j); }
  }

  /** The last blob of a snapshot and kind gives its bytes and content type; a blob that was there keeps its id and
      age. */
  lemma BlobsWritten(env: Env, t: Tables, b: ExportBundle, conflict: string, j: nat)
    requires Valid(t) && Import(env, t, Some(b), conflict).Ok? && j < |b.blobs|
    requires forall i :: j < i < |b.blobs| ==>
               (b.blobs[i].snapshotId, b.blobs[i].kind) != (b.blobs[j].snapshotId, b.blobs[j].kind)
    ensures var (u, r) := Import(env, t, Some(b), conflict).value;
            var x := b.blobs[j];
            var k := (x.snapshotId, x.kind);
            && k in u.blobs && u.blobs[k].soft.contentType == x.contentType
            && Base64.GoDecode(x.dataBase64) == Some(u.blobs[k].soft.data)
            && (k in t.blobs ==> u.blobs[k].fixed == t.blobs[k].fixed)
            && r.blobsImported == |b.blobs|
  {
    var p := PolicyOf(env, conflict).value;
    var ph := RunPhases(env, t, b, p).value;
    RanIff(env, t, b, p, ph);
    var items := BlobItems(env.now, b.blobs);
    OtherTablesKept(env, t, b, p, ph);
    PutBlobsIs(env.now, ph.snapshots.rows.Keys, t.blobs, b.blobs);
    assert items[j] == BlobItem(env.now, b.blobs[j]);
    assert forall i :: 0 <= i < |items| ==> items[i].key == (b.blobs[i].snapshotId, b.blobs[i].kind);
    LastSoftIs(items, |items|, j);
    assert Decodes(b.blobs[j]);
  }

  /** The last webhook with an id gives its columns; one that was there keeps its age. */
  lemma WebhooksWritten(env: Env, t: Tables, b: ExportBundle, conflict: string, j: nat)
    requires Valid(t) && Import(env, t, Some(b), conflict).Ok? && j < |b.webhooks|
    requires forall i :: j < i < |b.webhooks| ==> b.webhooks[i].id != b.webhooks[j].id
    ensures var (u, r) := Import(env, t, Some(b), conflict).value;
            var x := b.webhooks[j];
            && x.id in u.webhooks
            && var row := u.webhooks[x.id].soft;
               && row.name == x.name && row.kind == x.kind && row.url == x.url && row.enabled == x.enabled
               && row.updatedAt == x.updatedAt && row.config == (match x.config case Some(c) => c case None => map[])
               && (x.id in t.webhooks ==> u.webhooks[x.id].fixed == t.webhooks[x.id].fixed)
               && r.webhooksImported == |b.webhooks|
  {
    var p := PolicyOf(env, conflict).value;
    var ph := RunPhases(env, t, b, p).value;
    RanIff(env, t, b, p, ph);
    var items := WebhookItems(b.webhooks);
    OtherTablesKept(env, t, b, p, ph);
    assert items[j] == WebhookItem(b.webhooks[j]);
    assert forall i :: 0 <= i < |items| ==> items[i].key == b.webhooks[i].id;
    LastSoftIs(items, |items|, j);
  }

  /** Settings in the bundle replace those of the store, stamped with the time of the import. */
  lemma SettingsWritten(env: Env, t: Tables, b: ExportBundle, conflict: string)
    requires Import(env, t, Some(b), conflict).Ok?
    ensures var (u, r) := Import(env, t, Some(b), conflict).value;
            && (r.settingsImported <==> b.settings.Some?)
            && (b.settings.None? ==> u.settings == t.settings)
            && (b.settings.Some? ==>
                  u.settings.Some? && u.settings.value.value == Obj(b.settings.value)
                  && u.settings.value.updatedAt == env.now)
  {
  }

  /** Every membership whose two ends are in the bundle joins their rows, and those are the ones counted. */
  lemma MembersWritten(env: Env, t: Tables, b: ExportBundle, conflict: string, j: nat)
    requires Valid(t) && Import(env, t, Some(b), conflict).Ok? && j < |b.members|
    requires exists i :: 0 <= i < |b.collections| && b.collections[i].id == b.members[j].collectionId
    requires exists i :: 0 <= i < |b.targets| && b.targets[i].id == b.members[j].targetId
    ensures var p := PolicyOf(env, conflict).value;
            var ph := RunPhases(env, t, b, p).value;
            && b.members[j].collectionId in ph.collections.idMap && b.members[j].targetId in ph.targets.idMap
            && (ph.collections.idMap[b.members[j].collectionId], ph.targets.idMap[b.members[j].targetId])
                in Import(env, t, Some(b), conflict).value.0.members
  {
    var p := PolicyOf(env, conflict).value;
    var ph := RunPhases(env, t, b, p).value;
    RanIff(env, t, b, p, ph);
    OtherTablesKept(env, t, b, p, ph);
    NamedProofs.MergeNamedKeeps(p, t.targets, TargetItems(env, b.targets));
    NamedProofs.MergeNamedKeeps(p, t.collections, CollectionItems(b.collections));
    TargetItemsSeen(env, b, |b.targets|, b.members[j].targetId);
    CollectionItemsSeen(b, |b.collections|, b.members[j].collectionId);
    MemberListed(ph.collections.idMap, ph.targets.idMap, b.members, j);
  }

  lemma {:induction false} MemberListed(collections: map<Id, Id>, targets: map<Id, Id>, xs: seq<ExportMember>, j: nat)
    requires j < |xs| && xs[j].collectionId in collections && xs[j].targetId in targets
    ensures var items := MemberItems(collections, targets, xs);
            PutProofs.LastSoft(items, |items|, (collections[xs[j].collectionId], targets[xs[j].targetId])).Some?
  {
    var n := |xs| - 1;
    var before, all := MemberItems(collections, targets, xs[..n]), MemberItems(collections, targets, xs);
    if j < n {
      MemberListed(collections, targets, xs[..n], j);
      SoftOfPrefix(before, all, (collections[xs[j].collectionId], targets[xs[j].targetId]));
    }
  }

  lemma {:induction false} SoftOfPrefix(a: seq<PutItem<(Id, Id), (), Time>>, b: seq<PutItem<(Id, Id), (), Time>>,
                                        key: (Id, Id))
    requires a <= b && PutProofs.LastSoft(a, |a|, key).Some?
    ensures PutProofs.LastSoft(b, |b|, key).Some?
  {
    if |b| > |a| && b[|b| - 1].key != key {
      SoftOfPrefix(a, b[..|b| - 1], key);
      SoftOfItems(b, |b| - 1, key);
    } else if |b| == |a| {
      assert a == b;
    }
  }

  lemma {:induction false} SoftOfItems(b: seq<PutItem<(Id, Id), (), Time>>, n: nat, key: (Id, Id))
    requires n <= |b|
    ensures forall k {:trigger PutProofs.LastSoft(b[..n], k, key)} :: 0 <= k <= n ==>
              PutProofs.LastSoft(b[..n], k, key) == PutProofs.LastSoft(b, k, key)
  {
    for k := 0 to n
      invariant forall i :: 0 <= i <= k ==> PutProofs.LastSoft(b[..n], i, key) == PutProofs.LastSoft(b, i, key)
    {
    }
  }
}
