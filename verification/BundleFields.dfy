/** What a bundle shows of each row, column by column, and in which order. */
module BundleFields {
  import opened Common
  import opened Json
  import opened BundleMerge
  import opened Bundle
  import Base64
  import Sorting

  /** Every key of the table names one item, and every item a row. */
  ghost predicate OneEach<K(!new), R(!new)>(rows: map<K, R>, keys: seq<K>) {
    && (forall i, j :: 0 <= i < j < |keys| ==> keys[i] != keys[j])
    && (forall j :: 0 <= j < |keys| ==> keys[j] in rows)
    && (forall k :: k in rows ==> k in keys)
  }

  lemma KeysOnce<K(!new), R(!new), X(!new)>(rows: map<K, R>, xs: seq<X>, key: X -> K, out: (K, R) -> X)
    requires Lists(rows, xs, key, out)
    ensures OneEach(rows, Map(key, xs))
  {
    forall k | k in rows ensures k in Map(key, xs) {
      var j :| 0 <= j < |xs| && key(xs[j]) == k;
      assert Map(key, xs)[j] == k;
    }
  }

  predicate TargetShows(x: ExportTarget, r: Named<TargetDetails>) {
    && x.host == r.key && x.createdAt == r.createdAt
    && x.normalizedHost == (match r.details.normalizedHost case Some(h) => h case None => "")
    && x.tags == Some(match r.details.tags case Some(tags) => tags case None => [])
  }

  /** Targets, oldest first. */
  lemma TargetsExported(t: Tables, opts: ExportOptions, b: ExportBundle)
    requires IsExport(t, opts, b)
    ensures OneEach(t.targets, Map(TargetId, b.targets))
    ensures forall j :: 0 <= j < |b.targets| ==> TargetShows(b.targets[j], t.targets[b.targets[j].id])
    ensures forall i, j :: 0 <= i < j < |b.targets| ==> b.targets[i].createdAt <= b.targets[j].createdAt
  {
    KeysOnce(t.targets, b.targets, TargetId, TargetOut);
    forall j | 0 <= j < |b.targets|
      ensures b.targets[j] == TargetOut(b.targets[j].id, t.targets[b.targets[j].id])
    {
      assert TargetId(b.targets[j]) in t.targets;
    }
    forall i, j | 0 <= i < j < |b.targets| ensures b.targets[i].createdAt <= b.targets[j].createdAt {
      assert !TargetBefore(t.targets[TargetId(b.targets[j])], t.targets[TargetId(b.targets[i])]);
    }
  }

  predicate SnapshotShows(x: ExportSnapshot, r: SnapshotRow) {
    && x.targetId == r.targetId && x.body == r.body && x.rawData == Some(r.rawData)
    && x.changes == Some(match r.changes case Some(c) => c case None => [])
    && x.changeDetails == Some(match r.changeDetails case Some(c) => c case None => [])
    && x.clientIp == (match r.clientIp case Some(ip) => ip case None => "")
  }

  /** Snapshots by the time of the scan. */
  lemma SnapshotsExported(t: Tables, opts: ExportOptions, b: ExportBundle)
    requires IsExport(t, opts, b)
    ensures OneEach(t.snapshots, Map(SnapshotId, b.snapshots))
    ensures forall j :: 0 <= j < |b.snapshots| ==> SnapshotShows(b.snapshots[j], t.snapshots[b.snapshots[j].id])
    ensures forall i, j :: 0 <= i < j < |b.snapshots| ==>
              b.snapshots[i].body.scannedAt <= b.snapshots[j].body.scannedAt
  {
    KeysOnce(t.snapshots, b.snapshots, SnapshotId, SnapshotOut);
    forall j | 0 <= j < |b.snapshots|
      ensures b.snapshots[j] == SnapshotOut(b.snapshots[j].id, t.snapshots[b.snapshots[j].id])
    {
      assert SnapshotId(b.snapshots[j]) in t.snapshots;
    }
    forall i, j | 0 <= i < j < |b.snapshots| ensures b.snapshots[i].body.scannedAt <= b.snapshots[j].body.scannedAt {
      assert !SnapshotBefore(t.snapshots[SnapshotId(b.snapshots[j])], t.snapshots[SnapshotId(b.snapshots[i])]);
    }
  }

  predicate BlobShows(x: ExportBlob, r: Slot<BlobFixed, BlobSoft>) {
    x.id == r.fixed.id && x.contentType == r.soft.contentType && Base64.GoDecode(x.dataBase64) == Some(r.soft.data)
  }

  /** Blobs, if they are asked for, oldest first. */
  lemma BlobsExported(t: Tables, opts: ExportOptions, b: ExportBundle)
    requires IsExport(t, opts, b)
    ensures !opts.includeBlobs ==> b.blobs == []
    ensures opts.includeBlobs ==>
              && OneEach(t.blobs, Map(BlobKey, b.blobs))
              && forall j :: 0 <= j < |b.blobs| ==>
                   BlobShows(b.blobs[j], t.blobs[(b.blobs[j].snapshotId, b.blobs[j].kind)])
    ensures opts.includeBlobs ==> forall i, j :: 0 <= i < j < |b.blobs| ==>
              t.blobs[(b.blobs[i].snapshotId, b.blobs[i].kind)].fixed.createdAt
              <= t.blobs[(b.blobs[j].snapshotId, b.blobs[j].kind)].fixed.createdAt
  {
    if opts.includeBlobs {
      KeysOnce(t.blobs, b.blobs, BlobKey, BlobOut);
      forall j | 0 <= j < |b.blobs|
        ensures (b.blobs[j].snapshotId, b.blobs[j].kind) in t.blobs
        ensures BlobShows(b.blobs[j], t.blobs[(b.blobs[j].snapshotId, b.blobs[j].kind)])
      {
        assert BlobKey(b.blobs[j]) in t.blobs;
        Base64.GoRoundTrip(t.blobs[BlobKey(b.blobs[j])].soft.data);
      }
      forall i, j | 0 <= i < j < |b.blobs|
        ensures t.blobs[(b.blobs[i].snapshotId, b.blobs[i].kind)].fixed.createdAt
                <= t.blobs[(b.blobs[j].snapshotId, b.blobs[j].kind)].fixed.createdAt
      {
        assert !BlobBefore(t.blobs[BlobKey(b.blobs[j])], t.blobs[BlobKey(b.blobs[i])]);
      }
    }
  }

  predicate CollectionShows(x: ExportCollection, r: Named<CollectionDetails>) {
    && x.name == r.key && x.createdAt == r.createdAt && x.description == r.details.description
    && x.updatedAt == r.details.updatedAt
  }

  /** Collections by name. */
  lemma CollectionsExported(t: Tables, opts: ExportOptions, b: ExportBundle)
    requires IsExport(t, opts, b)
    ensures OneEach(t.collections, Map(CollectionId, b.collections))
    ensures forall j :: 0 <= j < |b.collections| ==>
              CollectionShows(b.collections[j], t.collections[b.collections[j].id])
    ensures forall i, j :: 0 <= i < j < |b.collections| ==>
              !opts.nameBefore(b.collections[j].name, b.collections[i].name)
  {
    KeysOnce(t.collections, b.collections, CollectionId, CollectionOut);
    forall j | 0 <= j < |b.collections|
      ensures b.collections[j] == CollectionOut(b.collections[j].id, t.collections[b.collections[j].id])
    {
      assert CollectionId(b.collections[j]) in t.collections;
    }
    forall i, j | 0 <= i < j < |b.collections|
      ensures !opts.nameBefore(b.collections[j].name, b.collections[i].name)
    {
      var x, y := t.collections[CollectionId(b.collections[i])], t.collections[CollectionId(b.collections[j])];
      assert !CollectionBefore(opts.nameBefore)(y, x);
      assert !opts.nameBefore(CollectionName(y), CollectionName(x));
    }
  }

  /** Memberships by the time they were added. */
  lemma MembersExported(t: Tables, opts: ExportOptions, b: ExportBundle)
    requires IsExport(t, opts, b)
    ensures OneEach(t.members, Map(MemberKey, b.members))
    ensures forall j :: 0 <= j < |b.members| ==>
              b.members[j].addedAt == t.members[(b.members[j].collectionId, b.members[j].targetId)].soft
    ensures forall i, j :: 0 <= i < j < |b.members| ==> b.members[i].addedAt <= b.members[j].addedAt
  {
    KeysOnce(t.members, b.members, MemberKey, MemberOut);
    forall j | 0 <= j < |b.members|
      ensures (b.members[j].collectionId, b.members[j].targetId) in t.members
      ensures b.members[j].addedAt == t.members[(b.members[j].collectionId, b.members[j].targetId)].soft
    {
      assert MemberKey(b.members[j]) in t.members;
    }
    forall i, j | 0 <= i < j < |b.members| ensures b.members[i].addedAt <= b.members[j].addedAt {
      assert !MemberBefore(t.members[MemberKey(b.members[j])], t.members[MemberKey(b.members[i])]);
    }
  }

  predicate NoteShows(x: ExportNote, r: NoteRow) {
    && x.body == r.body && x.status == r.status && x.targetId == r.targetId && x.snapshotId == r.snapshotId
    && x.collectionId == r.collectionId && x.graphNodeId == r.graphNodeId && x.refs == Some(r.refs)
  }

  /** Notes by their last change. */
  lemma NotesExported(t: Tables, opts: ExportOptions, b: ExportBundle)
    requires IsExport(t, opts, b)
    ensures OneEach(t.notes, Map(NoteId, b.notes))
    ensures forall j :: 0 <= j < |b.notes| ==> NoteShows(b.notes[j], t.notes[b.notes[j].id])
    ensures forall i, j :: 0 <= i < j < |b.notes| ==> b.notes[i].body.updatedAt <= b.notes[j].body.updatedAt
  {
    KeysOnce(t.notes, b.notes, NoteId, NoteOut);
    forall j | 0 <= j < |b.notes| ensures b.notes[j] == NoteOut(b.notes[j].id, t.notes[b.notes[j].id]) {
      assert NoteId(b.notes[j]) in t.notes;
    }
    forall i, j | 0 <= i < j < |b.notes| ensures b.notes[i].body.updatedAt <= b.notes[j].body.updatedAt {
      assert !NoteBefore(t.notes[NoteId(b.notes[j])], t.notes[NoteId(b.notes[i])]);
    }
  }

  predicate ViewShows(x: ExportView, r: ViewRow) {
    && x.name == r.name && x.body == r.body && x.targetId == r.targetId && x.snapshotId == r.snapshotId
    && x.compareSnapshotId == r.compareSnapshotId && x.pinned == Some(r.pinned)
  }

  /** Graph views by their last change. */
  lemma ViewsExported(t: Tables, opts: ExportOptions, b: ExportBundle)
    requires IsExport(t, opts, b)
    ensures OneEach(t.views, Map(ViewId, b.views))
    ensures forall j :: 0 <= j < |b.views| ==> ViewShows(b.views[j], t.views[b.views[j].id])
    ensures forall i, j :: 0 <= i < j < |b.views| ==> b.views[i].body.updatedAt <= b.views[j].body.updatedAt
  {
    KeysOnce(t.views, b.views, ViewId, ViewOut);
    forall j | 0 <= j < |b.views| ensures b.views[j] == ViewOut(b.views[j].id, t.views[b.views[j].id]) {
      assert ViewId(b.views[j]) in t.views;
    }
    forall i, j | 0 <= i < j < |b.views| ensures b.views[i].body.updatedAt <= b.views[j].body.updatedAt {
      assert !ViewBefore(t.views[ViewId(b.views[j])], t.views[ViewId(b.views[i])]);
    }
  }

  predicate WebhookShows(x: ExportWebhook, r: Slot<Time, WebhookBody>) {
    && x.name == r.soft.name && x.kind == r.soft.kind && x.url == r.soft.url && x.config == Some(r.soft.config)
    && x.enabled == r.soft.enabled && x.createdAt == r.fixed && x.updatedAt == r.soft.updatedAt
  }

  /** Webhooks by name, and the settings if they are an object; both only if the configuration is asked for. */
  lemma ConfigExported(t: Tables, opts: ExportOptions, b: ExportBundle)
    requires IsExport(t, opts, b)
    ensures !opts.includeConfig ==> b.webhooks == [] && b.settings == None
    ensures opts.includeConfig ==>
              && OneEach(t.webhooks, Map(WebhookId, b.webhooks))
              && (forall j :: 0 <= j < |b.webhooks| ==> WebhookShows(b.webhooks[j], t.webhooks[b.webhooks[j].id]))
              && (forall i, j :: 0 <= i < j < |b.webhooks| ==>
                    !opts.nameBefore(b.webhooks[j].name, b.webhooks[i].name))
    ensures opts.includeConfig ==>
              forall d :: b.settings == Some(d) <==> t.settings.Some? && t.settings.value.value == Obj(d)
  {
    if opts.includeConfig {
      KeysOnce(t.webhooks, b.webhooks, WebhookId, WebhookOut);
      WebhooksShow(t, b.webhooks, opts.nameBefore);
    }
  }

  lemma WebhooksShow(t: Tables, xs: seq<ExportWebhook>, lt: (string, string) -> bool)
    requires ListsInOrder(t.webhooks, xs, WebhookId, WebhookOut, WebhookBefore(lt))
    ensures forall j :: 0 <= j < |xs| ==> xs[j].id in t.webhooks && WebhookShows(xs[j], t.webhooks[xs[j].id])
    ensures forall i, j :: 0 <= i < j < |xs| ==> !lt(xs[j].name, xs[i].name)
  {
    forall j | 0 <= j < |xs| ensures xs[j].id in t.webhooks && xs[j] == WebhookOut(xs[j].id, t.webhooks[xs[j].id]) {
      assert WebhookId(xs[j]) in t.webhooks;
    }
    forall i, j | 0 <= i < j < |xs| ensures !lt(xs[j].name, xs[i].name) {
      var x, y := t.webhooks[WebhookId(xs[i])], t.webhooks[WebhookId(xs[j])];
      assert !WebhookBefore(lt)(y, x);
      assert !lt(WebhookName(y), WebhookName(x));
    }
  }
}
