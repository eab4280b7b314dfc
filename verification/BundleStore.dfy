/** The export and import as they run: queries read into lists, and one transaction whose loops update the
    tables, the id maps and the counters row by row. */
module BundleStore {
  import opened Common
  import Sorting
  import opened BundleMerge
  import opened Bundle
  import Base64

  // ---- Export ----

  /** A query's rows: each row of the table once. */
  ghost predicate Rows<K(!new), R(!new)>(table: map<K, R>, rows: seq<(K, R)>) {
    && (forall i, j :: 0 <= i < j < |rows| ==> rows[i].0 != rows[j].0)
    && (forall k :: k in table <==> exists j :: 0 <= j < |rows| && rows[j].0 == k)
    && (forall j :: 0 <= j < |rows| ==> rows[j].0 in table && rows[j].1 == table[rows[j].0])
  }

  method Scan<K(!new, ==), R(!new)>(table: map<K, R>) returns (rows: seq<(K, R)>)
    ensures Rows(table, rows)
  {
    rows := [];
    var rest := table.Keys;
    while rest != {}
      invariant rest <= table.Keys
      invariant forall i, j :: 0 <= i < j < |rows| ==> rows[i].0 != rows[j].0
      invariant forall k :: k in table.Keys - rest <==> exists j :: 0 <= j < |rows| && rows[j].0 == k
      invariant forall j :: 0 <= j < |rows| ==> rows[j].0 in table && rows[j].1 == table[rows[j].0]
      decreases |rest|
    {
      var k :| k in rest;
      ghost var before := rows;
      rows := rows + [(k, table[k])];
      forall j | 0 <= j < |before| ensures rows[j].0 != k {
        assert before[j].0 in table.Keys - rest;
      }
      forall x ensures x in table.Keys - (rest - {k}) <==> exists j :: 0 <= j < |rows| && rows[j].0 == x {
        if x == k { assert rows[|before|].0 == x; }
        if x in table.Keys - rest {
          var j :| 0 <= j < |before| && before[j].0 == x;
          assert rows[j].0 == x;
        }
        if j :| 0 <= j < |rows| && rows[j].0 == x {
          assert j < |before| ==> before[j].0 in table.Keys - rest;
        }
      }
      rest := rest - {k};
    }
    assert table.Keys - rest == table.Keys;
  }

  function SecondOf<K, R>(row: (K, R)): R {
    row.1
  }

  /** The rows in the query's order; rows that it does not order in any order. */
  method Query<K(!new, ==), R(!new)>(table: map<K, R>, before: (R, R) -> bool) returns (rows: seq<(K, R)>)
    requires Sorting.StrictWeak(before)
    ensures Rows(table, rows)
    ensures forall i, j :: 0 <= i < j < |rows| ==> !before(rows[j].1, rows[i].1)
  {
    var scanned := Scan(table);
    var byRow := Sorting.OrderBy(before, SecondOf<K, R>);
    Sorting.OrderByStrictWeak(before, SecondOf<K, R>);
    rows := Sorting.SortSlice(byRow, scanned);
    PermutedRows(table, scanned, rows);
    forall i, j | 0 <= i < j < |rows| ensures !before(rows[j].1, rows[i].1) {
      assert !byRow(rows[j], rows[i]);
    }
  }

  lemma PermutedRows<K(!new), R(!new)>(table: map<K, R>, a: seq<(K, R)>, b: seq<(K, R)>)
    requires Rows(table, a) && multiset(a) == multiset(b)
    ensures Rows(table, b)
  {
    forall i, j | 0 <= i < j < |a| ensures a[i] != a[j] {
      assert a[i].0 != a[j].0;
    }
    forall x ensures x in a <==> x in b {
      assert x in a <==> x in multiset(a);
      assert x in b <==> x in multiset(b);
    }
    forall j | 0 <= j < |b| ensures b[j].0 in table && b[j].1 == table[b[j].0] {
      assert b[j] in a;
    }
    forall i, j | 0 <= i < j < |b| ensures b[i].0 != b[j].0 {
      DistinctCount(a, b[i]);
      Sorting.CountTwice(b, i, j);
    }
    forall k | k in table ensures exists j :: 0 <= j < |b| && b[j].0 == k {
      var j :| 0 <= j < |a| && a[j].0 == k;
      assert a[j] in b;
    }
  }

  /** The loop that turns rows into items. */
  method Collect<K(!new), R(!new), X(!new)>(rows: seq<(K, R)>, out: (K, R) -> X) returns (items: seq<X>)
    ensures |items| == |rows| && forall j :: 0 <= j < |rows| ==> items[j] == out(rows[j].0, rows[j].1)
  {
    items := [];
    for i := 0 to |rows|
      invariant |items| == i && forall j :: 0 <= j < i ==> items[j] == out(rows[j].0, rows[j].1)
    {
      items := items + [out(rows[i].0, rows[i].1)];
    }
  }

  lemma CollectedLists<K(!new), R(!new), X(!new)>(table: map<K, R>, rows: seq<(K, R)>, items: seq<X>, key: X -> K,
      out: (K, R) -> X)
    requires Rows(table, rows) && |items| == |rows|
    requires forall j :: 0 <= j < |rows| ==> items[j] == out(rows[j].0, rows[j].1)
    requires forall k, r :: key(out(k, r)) == k
    ensures Lists(table, items, key, out)
  {
    forall k ensures k in table <==> exists j :: 0 <= j < |items| && key(items[j]) == k {
      if k in table {
        var j :| 0 <= j < |rows| && rows[j].0 == k;
        assert key(items[j]) == k;
      }
    }
  }

  /** Reads one table into a list of items in the query's order. */
  method Export<K(!new, ==), R(!new), X(!new)>(table: map<K, R>, before: (R, R) -> bool, key: X -> K, out: (K, R) -> X)
      returns (items: seq<X>)
    requires Sorting.StrictWeak(before) && forall k, r :: key(out(k, r)) == k
    ensures ListsInOrder(table, items, key, out, before)
  {
    var rows := Query(table, before);
    items := Collect(rows, out);
    CollectedLists(table, rows, items, key, out);
  }

  method ExportTargets(rows: map<Id, Named<TargetDetails>>) returns (items: seq<ExportTarget>)
    ensures ListsInOrder(rows, items, TargetId, TargetOut, TargetBefore)
  {
    items := Export(rows, TargetBefore, TargetId, TargetOut);
  }

  method ExportSnapshots(rows: map<Id, SnapshotRow>) returns (items: seq<ExportSnapshot>)
    ensures ListsInOrder(rows, items, SnapshotId, SnapshotOut, SnapshotBefore)
  {
    items := Export(rows, SnapshotBefore, SnapshotId, SnapshotOut);
  }

  method ExportBlobs(rows: BlobRows) returns (items: seq<ExportBlob>)
    ensures ListsInOrder(rows, items, BlobKey, BlobOut, BlobBefore)
  {
    items := Export(rows, BlobBefore, BlobKey, BlobOut);
  }

  method ExportCollections(rows: map<Id, Named<CollectionDetails>>, nameBefore: (string, string) -> bool)
      returns (items: seq<ExportCollection>)
    requires Sorting.StrictWeak(nameBefore)
    ensures ListsInOrder(rows, items, CollectionId, CollectionOut, CollectionBefore(nameBefore))
  {
    Sorting.OrderByStrictWeak(nameBefore, CollectionName);
    items := Export(rows, CollectionBefore(nameBefore), CollectionId, CollectionOut);
  }

  method ExportMembers(rows: MemberRows) returns (items: seq<ExportMember>)
    ensures ListsInOrder(rows, items, MemberKey, MemberOut, MemberBefore)
  {
    items := Export(rows, MemberBefore, MemberKey, MemberOut);
  }

  method ExportNotes(rows: map<Id, NoteRow>) returns (items: seq<ExportNote>)
    ensures ListsInOrder(rows, items, NoteId, NoteOut, NoteBefore)
  {
    items := Export(rows, NoteBefore, NoteId, NoteOut);
  }

  method ExportViews(rows: map<Id, ViewRow>) returns (items: seq<ExportView>)
    ensures ListsInOrder(rows, items, ViewId, ViewOut, ViewBefore)
  {
    items := Export(rows, ViewBefore, ViewId, ViewOut);
  }

  method ExportWebhooks(rows: map<Id, Slot<Time, WebhookBody>>, nameBefore: (string, string) -> bool)
      returns (items: seq<ExportWebhook>)
    requires Sorting.StrictWeak(nameBefore)
    ensures ListsInOrder(rows, items, WebhookId, WebhookOut, WebhookBefore(nameBefore))
  {
    Sorting.OrderByStrictWeak(nameBefore, WebhookName);
    items := Export(rows, WebhookBefore(nameBefore), WebhookId, WebhookOut);
  }

  method BuildBundle(t: Tables, opts: ExportOptions) returns (b: ExportBundle)
    requires Sorting.StrictWeak(opts.nameBefore)
    ensures IsExport(t, opts, b)
  {
    var targets := ExportTargets(t.targets);
    var snapshots := ExportSnapshots(t.snapshots);
    var blobs: seq<ExportBlob> := [];
    if opts.includeBlobs {
      blobs := ExportBlobs(t.blobs);
    }
    var collections := ExportCollections(t.collections, opts.nameBefore);
    var members := ExportMembers(t.members);
    var notes := ExportNotes(t.notes);
    var views := ExportViews(t.views);
    var webhooks: seq<ExportWebhook>, settings := [], None;
    if opts.includeConfig {
      webhooks := ExportWebhooks(t.webhooks, opts.nameBefore);
      settings := SettingsOut(t.settings);
    }
    b := ExportBundle(FORMAT_VERSION, targets, snapshots, blobs, collections, members, notes, views, webhooks,
        settings);
  }

  // ---- Import ----

  /** The tables as one transaction sees them, with the loops' maps and counters. */
  class Transaction {
    var targets: map<Id, Named<TargetDetails>>
    var snapshots: map<Id, SnapshotRow>
    var blobs: BlobRows
    var collections: map<Id, Named<CollectionDetails>>
    var members: MemberRows
    var notes: map<Id, NoteRow>
    var views: map<Id, ViewRow>
    var webhooks: map<Id, Slot<Time, WebhookBody>>
    var settings: Option<SettingsRow>
    var targetIdMap: map<Id, Id>
    var collectionIdMap: map<Id, Id>
    var result: ImportResult

    constructor (t: Tables)
      ensures Shown() == t
      ensures targetIdMap == map[] && collectionIdMap == map[] && result == NothingImported
    {
      targets, snapshots, blobs, collections := t.targets, t.snapshots, t.blobs, t.collections;
      members, notes, views, webhooks, settings := t.members, t.notes, t.views, t.webhooks, t.settings;
      targetIdMap, collectionIdMap, result := map[], map[], NothingImported;
    }

    /** The tables as the transaction sees them. */
    function Shown(): Tables
      reads this
    {
      Tables(targets, snapshots, blobs, collections, members, notes, views, webhooks, settings)
    }

    /** Looks a row up by natural key. */
    static method FindByKey<A(!new)>(rows: map<Id, Named<A>>, key: string) returns (o: Option<Id>)
      requires UniqueKeys(rows)
      ensures o == Owner(rows, key)
    {
      if i :| i in rows && rows[i].key == key {
        o := Some(i);
        OwnerIs(rows, i);
      } else {
        o := None;
      }
    }

    /** One target: found by id, found by host, or new. */
    method ImportTarget(env: Env, p: Policy, x: ExportTarget) returns (ok: bool)
      requires UniqueKeys(targets)
      modifies this`targets, this`targetIdMap, this`result
      ensures match StepNamed(p, old(NamedState(targets, targetIdMap, result.targetsImported, result.targetsSkipped)),
          TargetItem(env, x))
              case Err(_) => !ok
              case Ok(s) => ok && s == NamedState(targets, targetIdMap, result.targetsImported, result.targetsSkipped)
                            && UniqueKeys(targets)
                            && result == old(result).(targetsImported := s.imported, targetsSkipped := s.skipped)
    {
      ok := true;
      var normalized := if x.normalizedHost == "" then env.normalizeHost(x.host) else x.normalizedHost;
      var details := TargetDetails(Some(normalized), Some(OrElse(x.tags, [])));
      var owner := FindByKey(targets, x.host);
      if x.id in targets {
        if p == Skip {
          targetIdMap := targetIdMap[x.id := x.id];
          result := result.(targetsSkipped := result.targetsSkipped + 1);
          return;
        }
        if owner.Some? && owner.value != x.id {
          RenameClashes(targets, x.id, owner.value, Named(x.host, x.createdAt, details));
          return false;
        }
        targets := targets[x.id := Named(x.host, x.createdAt, details)];
        targetIdMap := targetIdMap[x.id := x.id];
      } else if owner.Some? {
        targetIdMap := targetIdMap[x.id := owner.value];
        if p == Skip {
          result := result.(targetsSkipped := result.targetsSkipped + 1);
          return;
        }
        targets := targets[owner.value := targets[owner.value].(details := details)];
      } else {
        targets := targets[x.id := Named(x.host, x.createdAt, details)];
        targetIdMap := targetIdMap[x.id := x.id];
      }
      result := result.(targetsImported := result.targetsImported + 1);
    }

    method ImportTargets(env: Env, p: Policy, xs: seq<ExportTarget>) returns (ok: bool)
      requires UniqueKeys(targets) && targetIdMap == map[] && result.targetsImported == result.targetsSkipped == 0
      modifies this`targets, this`targetIdMap, this`result
      ensures match MergeNamed(p, old(targets), TargetItems(env, xs))
              case Err(_) => !ok
              case Ok(s) => ok && s == NamedState(targets, targetIdMap, result.targetsImported, result.targetsSkipped)
                            && UniqueKeys(targets)
                            && result == old(result).(targetsImported := s.imported, targetsSkipped := s.skipped)
    {
      ghost var start := NamedState(targets, map[], 0, 0);
      ghost var items := TargetItems(env, xs);
      for i := 0 to |xs|
        invariant UniqueKeys(targets)
        invariant Fold(NamedStep(p), start, items[..i])
            == Ok(NamedState(targets, targetIdMap, result.targetsImported, result.targetsSkipped))
        invariant result
            == old(result).(targetsImported := result.targetsImported, targetsSkipped := result.targetsSkipped)
      {
        FoldNext(NamedStep(p), start, items, i,
            NamedState(targets, targetIdMap, result.targetsImported, result.targetsSkipped));
        ok := ImportTarget(env, p, xs[i]);
        if !ok { return; }
      }
      assert items[..|xs|] == items;
      ok := true;
    }

    method ImportSnapshot(p: Policy, x: ExportSnapshot) returns (ok: bool)
      requires SnapshotRefs(targets.Keys, snapshots)
      modifies this`snapshots, this`result
      ensures match StepById(p, SnapshotsOk(targets.Keys),
          old(ByIdState(snapshots, result.snapshotsImported, result.snapshotsSkipped)), SnapshotItem(targetIdMap, x))
              case Err(_) => !ok
              case Ok(s) => ok && s == ByIdState(snapshots, result.snapshotsImported, result.snapshotsSkipped)
                            && SnapshotRefs(targets.Keys, snapshots)
                            && result == old(result).(snapshotsImported := s.imported, snapshotsSkipped := s.skipped)
    {
      ok := true;
      if x.targetId !in targetIdMap || (x.id in snapshots && p == Skip) {
        result := result.(snapshotsSkipped := result.snapshotsSkipped + 1);
        return;
      }
      var targetId := targetIdMap[x.targetId];
      var row := SnapshotRow(targetId, x.body, OrElse(x.rawData, map[]), Some(OrElse(x.changes, [])),
                             Some(OrElse(x.changeDetails, [])), Some(x.clientIp));
      if targetId !in targets {
        assert snapshots[x.id := row][x.id].targetId !in targets;
        return false;
      }
      snapshots := snapshots[x.id := row];
      result := result.(snapshotsImported := result.snapshotsImported + 1);
    }

    method ImportSnapshots(p: Policy, xs: seq<ExportSnapshot>) returns (ok: bool)
      requires SnapshotRefs(targets.Keys, snapshots) && result.snapshotsImported == result.snapshotsSkipped == 0
      modifies this`snapshots, this`result
      ensures match MergeById(p, SnapshotsOk(targets.Keys), old(snapshots), SnapshotItems(targetIdMap, xs))
              case Err(_) => !ok
              case Ok(s) => ok && s == ByIdState(snapshots, result.snapshotsImported, result.snapshotsSkipped)
                            && result == old(result).(snapshotsImported := s.imported, snapshotsSkipped := s.skipped)
    {
      ghost var start := ByIdState(snapshots, 0, 0);
      ghost var items := SnapshotItems(targetIdMap, xs);
      ghost var step := ByIdStep(p, SnapshotsOk(targets.Keys));
      for i := 0 to |xs|
        invariant SnapshotRefs(targets.Keys, snapshots)
        invariant Fold(step, start, items[..i])
            == Ok(ByIdState(snapshots, result.snapshotsImported, result.snapshotsSkipped))
        invariant result
            == old(result).(snapshotsImported := result.snapshotsImported, snapshotsSkipped := result.snapshotsSkipped)
      {
        FoldNext(step, start, items, i, ByIdState(snapshots, result.snapshotsImported, result.snapshotsSkipped));
        ok := ImportSnapshot(p, xs[i]);
        if !ok { return; }
      }
      assert items[..|xs|] == items;
      ok := true;
    }

    /** One blob: its content decoded, then put in the place of its snapshot and kind. */
    method ImportBlob(now: Time, x: ExportBlob) returns (ok: bool)
      requires BlobRefs(snapshots.Keys, blobs)
      modifies this`blobs, this`result
      ensures match StepBlob(now, snapshots.Keys, old(blobs), x)
              case Err(_) => !ok
              case Ok(rows) => ok && blobs == rows && BlobRefs(snapshots.Keys, blobs)
                               && result == old(result).(blobsImported := old(result).blobsImported + 1)
    {
      ok := true;
      var data := Base64.GoDecode(x.dataBase64);
      if data.None? {
        return false;
      }
      var key := (x.snapshotId, x.kind);
      var soft := BlobSoft(x.contentType, data.value);
      if key in blobs {
        BlobUpsertOk(snapshots.Keys, blobs, key, soft);
        blobs := blobs[key := blobs[key].(soft := soft)];
      } else {
        var row := Slot(BlobFixed(x.id, now), soft);
        var taken := exists k :: k in blobs && blobs[k].fixed.id == x.id;
        BlobInsertOk(snapshots.Keys, blobs, key, row);
        if x.snapshotId !in snapshots || taken {
          return false;
        }
        blobs := blobs[key := row];
      }
      result := result.(blobsImported := result.blobsImported + 1);
    }

    method ImportBlobs(now: Time, xs: seq<ExportBlob>) returns (ok: bool)
      requires BlobRefs(snapshots.Keys, blobs)
      modifies this`blobs, this`result
      ensures match PutBlobs(now, snapshots.Keys, old(blobs), xs)
              case Err(_) => !ok
              case Ok(rows) => ok && blobs == rows
                               && result == old(result).(blobsImported := old(result).blobsImported + |xs|)
    {
      ghost var start := blobs;
      ghost var step := BlobStep(now, snapshots.Keys);
      for i := 0 to |xs|
        invariant BlobRefs(snapshots.Keys, blobs)
        invariant Fold(step, start, xs[..i]) == Ok(blobs)
        invariant result == old(result).(blobsImported := old(result).blobsImported + i)
      {
        FoldNext(step, start, xs, i, blobs);
        ok := ImportBlob(now, xs[i]);
        if !ok { return; }
      }
      assert xs[..|xs|] == xs;
      ok := true;
    }

    /** One collection: found by id, found by name, or new. */
    method ImportCollection(p: Policy, x: ExportCollection) returns (ok: bool)
      requires UniqueKeys(collections)
      modifies this`collections, this`collectionIdMap, this`result
      ensures match StepNamed(p,
          old(NamedState(collections, collectionIdMap, result.collectionsImported, result.collectionsSkipped)),
          CollectionItem(x))
              case Err(_) => !ok
              case Ok(s) => ok && s == NamedState(collections, collectionIdMap,
                                                  result.collectionsImported, result.collectionsSkipped)
                            && UniqueKeys(collections)
                            && result == old(result).(collectionsImported := s.imported,
                                 collectionsSkipped := s.skipped)
    {
      ok := true;
      var details := CollectionDetails(x.description, x.updatedAt);
      var owner := FindByKey(collections, x.name);
      if x.id in collections {
        if p == Skip {
          collectionIdMap := collectionIdMap[x.id := x.id];
          result := result.(collectionsSkipped := result.collectionsSkipped + 1);
          return;
        }
        if owner.Some? && owner.value != x.id {
          RenameClashes(collections, x.id, owner.value, Named(x.name, x.createdAt, details));
          return false;
        }
        collections := collections[x.id := Named(x.name, x.createdAt, details)];
        collectionIdMap := collectionIdMap[x.id := x.id];
      } else if owner.Some? {
        collectionIdMap := collectionIdMap[x.id := owner.value];
        if p == Skip {
          result := result.(collectionsSkipped := result.collectionsSkipped + 1);
          return;
        }
        collections := collections[owner.value := collections[owner.value].(details := details)];
      } else {
        collections := collections[x.id := Named(x.name, x.createdAt, details)];
        collectionIdMap := collectionIdMap[x.id := x.id];
      }
      result := result.(collectionsImported := result.collectionsImported + 1);
    }

    method ImportCollections(p: Policy, xs: seq<ExportCollection>) returns (ok: bool)
      requires UniqueKeys(collections) && collectionIdMap == map[]
          && result.collectionsImported == result.collectionsSkipped == 0
      modifies this`collections, this`collectionIdMap, this`result
      ensures match MergeNamed(p, old(collections), CollectionItems(xs))
              case Err(_) => !ok
              case Ok(s) => ok && s == NamedState(collections, collectionIdMap,
                                                  result.collectionsImported, result.collectionsSkipped)
                            && UniqueKeys(collections)
                            && result == old(result).(collectionsImported := s.imported,
                                 collectionsSkipped := s.skipped)
    {
      ghost var start := NamedState(collections, map[], 0, 0);
      ghost var items := CollectionItems(xs);
      for i := 0 to |xs|
        invariant UniqueKeys(collections)
        invariant Fold(NamedStep(p), start, items[..i])
            == Ok(NamedState(collections, collectionIdMap, result.collectionsImported, result.collectionsSkipped))
        invariant result
            == old(result).(collectionsImported := result.collectionsImported,
            collectionsSkipped := result.collectionsSkipped)
      {
        FoldNext(NamedStep(p), start, items, i,
            NamedState(collections, collectionIdMap, result.collectionsImported, result.collectionsSkipped));
        ok := ImportCollection(p, xs[i]);
        if !ok { return; }
      }
      assert items[..|xs|] == items;
      ok := true;
    }

    /** One membership with both ends known. */
    method ImportMember(key: (Id, Id), addedAt: Time) returns (ok: bool)
      requires MemberRefs(collections.Keys, targets.Keys, members)
      modifies this`members, this`result
      ensures match StepPut(MembersOk(collections.Keys, targets.Keys), old(members), PutItem(key, Slot((), addedAt)))
              case Err(_) => !ok
              case Ok(rows) => ok && members == rows && MemberRefs(collections.Keys, targets.Keys, members)
                               && result == old(result).(membersImported := old(result).membersImported + 1)
    {
      ok := key.0 in collections && key.1 in targets;
      if key in members { NothingFixed(members[key]); }
      ghost var rows := members[key := Slot((), addedAt)];
      assert Put(members, PutItem(key, Slot((), addedAt))) == rows && key in rows;
      if ok {
        members := members[key := Slot((), addedAt)];
        result := result.(membersImported := result.membersImported + 1);
      }
    }

    method ImportMembers(xs: seq<ExportMember>) returns (ok: bool)
      requires MemberRefs(collections.Keys, targets.Keys, members)
      modifies this`members, this`result
      ensures match PutAll(MembersOk(collections.Keys, targets.Keys), old(members),
          MemberItems(collectionIdMap, targetIdMap, xs))
              case Err(_) => !ok
              case Ok(rows) => ok && members == rows
                               && result == old(result).(membersImported := old(result).membersImported
                                   + |MemberItems(collectionIdMap, targetIdMap, xs)|)
    {
      ghost var start := members;
      ghost var step := PutStep(MembersOk(collections.Keys, targets.Keys));
      ghost var all := MemberItems(collectionIdMap, targetIdMap, xs);
      ghost var was := result;
      ghost var n: nat := 0;
      for i := 0 to |xs|
        invariant MemberRefs(collections.Keys, targets.Keys, members)
        invariant n == |MemberItems(collectionIdMap, targetIdMap, xs[..i])|
        invariant n <= |all| && Fold(step, start, all[..n]) == Ok(members)
        invariant result == was.(membersImported := was.membersImported + n)
      {
        var x := xs[i];
        MemberNext(collectionIdMap, targetIdMap, xs, i);
        if x.collectionId !in collectionIdMap || x.targetId !in targetIdMap {
          continue;
        }
        var key := (collectionIdMap[x.collectionId], targetIdMap[x.targetId]);
        assert all[n] == PutItem(key, Slot((), x.addedAt));
        FoldNext(step, start, all, n, members);
        ok := ImportMember(key, x.addedAt);
        if !ok { return; }
        n := n + 1;
      }
      assert xs[..|xs|] == xs && all[..n] == all;
      ok := true;
    }

    method ImportNote(p: Policy, x: ExportNote) returns (ok: bool)
      requires NoteRefs(targets.Keys, snapshots.Keys, collections.Keys, notes)
      modifies this`notes, this`result
      ensures match StepById(p, NotesOk(targets.Keys, snapshots.Keys, collections.Keys),
          old(ByIdState(notes, result.notesImported, result.notesSkipped)),
          NoteItem(collectionIdMap, targetIdMap, x))
              case Err(_) => !ok
              case Ok(s) => ok && s == ByIdState(notes, result.notesImported, result.notesSkipped)
                            && NoteRefs(targets.Keys, snapshots.Keys, collections.Keys, notes)
                            && result == old(result).(notesImported := s.imported, notesSkipped := s.skipped)
    {
      ok := true;
      if x.id in notes && p == Skip {
        result := result.(notesSkipped := result.notesSkipped + 1);
        return;
      }
      var row := NoteRow(x.body, x.status, Remap(x.targetId, targetIdMap), x.snapshotId,
          Remap(x.collectionId, collectionIdMap),
          x.graphNodeId, OrElse(x.refs, []));
      NoteUpsertOk(targets.Keys, snapshots.Keys, collections.Keys, notes, x.id, row);
      if !NoteOk(targets.Keys, snapshots.Keys, collections.Keys, row) {
        return false;
      }
      notes := notes[x.id := row];
      result := result.(notesImported := result.notesImported + 1);
    }

    method ImportNotes(p: Policy, xs: seq<ExportNote>) returns (ok: bool)
      requires NoteRefs(targets.Keys, snapshots.Keys, collections.Keys, notes)
          && result.notesImported == result.notesSkipped == 0
      modifies this`notes, this`result
      ensures match MergeById(p, NotesOk(targets.Keys, snapshots.Keys, collections.Keys), old(notes),
          NoteItems(collectionIdMap, targetIdMap, xs))
              case Err(_) => !ok
              case Ok(s) => ok && s == ByIdState(notes, result.notesImported, result.notesSkipped)
                            && result == old(result).(notesImported := s.imported, notesSkipped := s.skipped)
    {
      ghost var start := ByIdState(notes, 0, 0);
      ghost var items := NoteItems(collectionIdMap, targetIdMap, xs);
      ghost var step := ByIdStep(p, NotesOk(targets.Keys, snapshots.Keys, collections.Keys));
      ghost var was := result;
      for i := 0 to |xs|
        invariant NoteRefs(targets.Keys, snapshots.Keys, collections.Keys, notes)
        invariant Fold(step, start, items[..i]) == Ok(ByIdState(notes, result.notesImported, result.notesSkipped))
        invariant result == was.(notesImported := result.notesImported, notesSkipped := result.notesSkipped)
      {
        FoldNext(step, start, items, i, ByIdState(notes, result.notesImported, result.notesSkipped));
        ok := ImportNote(p, xs[i]);
        if !ok { return; }
      }
      assert items[..|xs|] == items;
      ok := true;
    }

    method ImportView(p: Policy, x: ExportView) returns (ok: bool)
      requires ViewRefs(targets.Keys, snapshots.Keys, views)
      modifies this`views, this`result
      ensures match StepById(p, ViewsOk(targets.Keys, snapshots.Keys),
          old(ByIdState(views, result.viewsImported, result.viewsSkipped)), ViewItem(targetIdMap, x))
              case Err(_) => !ok
              case Ok(s) => ok && s == ByIdState(views, result.viewsImported, result.viewsSkipped)
                            && ViewRefs(targets.Keys, snapshots.Keys, views)
                            && result == old(result).(viewsImported := s.imported, viewsSkipped := s.skipped)
    {
      ok := true;
      if x.id in views && p == Skip {
        result := result.(viewsSkipped := result.viewsSkipped + 1);
        return;
      }
      var row := ViewRow(x.name, x.body, Remap(x.targetId, targetIdMap), x.snapshotId, x.compareSnapshotId,
          OrElse(x.pinned, map[]));
      var refs := RefOk(row.targetId, targets.Keys) && RefOk(row.snapshotId, snapshots.Keys)
          && RefOk(row.compareSnapshotId, snapshots.Keys);
      var taken := exists j :: j in views && j != x.id && views[j].name == row.name;
      ViewUpsertOk(targets.Keys, snapshots.Keys, views, x.id, row);
      if !refs || taken {
        return false;
      }
      views := views[x.id := row];
      result := result.(viewsImported := result.viewsImported + 1);
    }

    method ImportViews(p: Policy, xs: seq<ExportView>) returns (ok: bool)
      requires ViewRefs(targets.Keys, snapshots.Keys, views) && result.viewsImported == result.viewsSkipped == 0
      modifies this`views, this`result
      ensures match MergeById(p, ViewsOk(targets.Keys, snapshots.Keys), old(views), ViewItems(targetIdMap, xs))
              case Err(_) => !ok
              case Ok(s) => ok && s == ByIdState(views, result.viewsImported, result.viewsSkipped)
                            && result == old(result).(viewsImported := s.imported, viewsSkipped := s.skipped)
    {
      ghost var start := ByIdState(views, 0, 0);
      ghost var items := ViewItems(targetIdMap, xs);
      ghost var step := ByIdStep(p, ViewsOk(targets.Keys, snapshots.Keys));
      for i := 0 to |xs|
        invariant ViewRefs(targets.Keys, snapshots.Keys, views)
        invariant Fold(step, start, items[..i]) == Ok(ByIdState(views, result.viewsImported, result.viewsSkipped))
        invariant result == old(result).(viewsImported := result.viewsImported, viewsSkipped := result.viewsSkipped)
      {
        FoldNext(step, start, items, i, ByIdState(views, result.viewsImported, result.viewsSkipped));
        ok := ImportView(p, xs[i]);
        if !ok { return; }
      }
      assert items[..|xs|] == items;
      ok := true;
    }

    method ImportWebhooks(xs: seq<ExportWebhook>)
      modifies this`webhooks, this`result
      ensures PutAll(WebhooksOk(), old(webhooks), WebhookItems(xs)) == Ok(webhooks)
      ensures result == old(result).(webhooksImported := old(result).webhooksImported + |xs|)
    {
      ghost var rows := webhooks;
      ghost var items := WebhookItems(xs);
      for i := 0 to |xs|
        invariant PutAll(WebhooksOk(), rows, items[..i]) == Ok(webhooks)
        invariant result == old(result).(webhooksImported := old(result).webhooksImported + i)
      {
        var x := xs[i];
        FoldSnoc(PutStep(WebhooksOk()), rows, items, i);
        var body := WebhookBody(x.name, x.kind, x.url, OrElse(x.config, map[]), x.enabled, x.updatedAt);
        if x.id in webhooks {
          webhooks := webhooks[x.id := webhooks[x.id].(soft := body)];
        } else {
          webhooks := webhooks[x.id := Slot(x.createdAt, body)];
        }
        result := result.(webhooksImported := result.webhooksImported + 1);
      }
      assert items[..|xs|] == items;
    }
  }

  lemma RenameClashes<A(!new)>(rows: map<Id, Named<A>>, id: Id, other: Id, row: Named<A>)
    requires id in rows && other in rows && other != id && rows[other].key == row.key
    ensures !UniqueKeys(rows[id := row])
  {
    assert rows[id := row][other].key == rows[id := row][id].key;
  }

  lemma BlobUpsertOk(snapshots: set<Id>, rows: BlobRows, key: (Id, string),
                     soft: BlobSoft)
    requires BlobRefs(snapshots, rows) && key in rows
    ensures BlobRefs(snapshots, rows[key := rows[key].(soft := soft)])
  {
  }

  lemma BlobInsertOk(snapshots: set<Id>, rows: BlobRows, key: (Id, string),
                     row: Slot<BlobFixed, BlobSoft>)
    requires BlobRefs(snapshots, rows) && key !in rows
    ensures BlobRefs(snapshots, rows[key := row]) <==>
            key.0 in snapshots && !exists k :: k in rows && rows[k].fixed.id == row.fixed.id
  {
    var next := rows[key := row];
    assert key in next;
    if k :| k in rows && rows[k].fixed.id == row.fixed.id {
      assert next[k].fixed.id == next[key].fixed.id;
    }
  }

  lemma NoteUpsertOk(targets: set<Id>, snapshots: set<Id>, collections: set<Id>, rows: map<Id, NoteRow>, id: Id,
                     row: NoteRow)
    requires NoteRefs(targets, snapshots, collections, rows)
    ensures NoteRefs(targets, snapshots, collections, rows[id := row]) <==> NoteOk(targets, snapshots, collections, row)
  {
    assert rows[id := row][id] == row;
  }

  lemma ViewUpsertOk(targets: set<Id>, snapshots: set<Id>, rows: map<Id, ViewRow>, id: Id, row: ViewRow)
    requires ViewRefs(targets, snapshots, rows)
    ensures ViewRefs(targets, snapshots, rows[id := row]) <==>
            && RefOk(row.targetId, targets) && RefOk(row.snapshotId, snapshots)
                && RefOk(row.compareSnapshotId, snapshots)
            && !exists j :: j in rows && j != id && rows[j].name == row.name
  {
    var next := rows[id := row];
    assert next[id] == row;
    if j :| j in rows && j != id && rows[j].name == row.name {
      assert next[j].name == next[id].name;
    }
  }

  lemma {:induction false} MemberPrefix(collections: map<Id, Id>, targets: map<Id, Id>, xs: seq<ExportMember>, n: nat)
    requires n <= |xs|
    ensures var all, some := MemberItems(collections, targets, xs), MemberItems(collections, targets, xs[..n]);
            |some| <= |all| && all[..|some|] == some
    decreases |xs|
  {
    if n < |xs| {
      var ys := xs[..|xs| - 1];
      assert ys[..n] == xs[..n];
      MemberPrefix(collections, targets, ys, n);
    } else {
      assert xs[..n] == xs;
    }
  }

  /** What the loop over the memberships meets next. */
  lemma MemberNext(collections: map<Id, Id>, targets: map<Id, Id>, xs: seq<ExportMember>, i: nat)
    requires i < |xs|
    ensures var all := MemberItems(collections, targets, xs);
            var n := |MemberItems(collections, targets, xs[..i])|;
            var x := xs[i];
            if x.collectionId in collections && x.targetId in targets
            then n < |all| && all[n] == PutItem((collections[x.collectionId], targets[x.targetId]), Slot((), x.addedAt))
                 && |MemberItems(collections, targets, xs[..i + 1])| == n + 1
            else |MemberItems(collections, targets, xs[..i + 1])| == n
    ensures |MemberItems(collections, targets, xs[..i + 1])| <= |MemberItems(collections, targets, xs)|
  {
    assert xs[..i + 1][..i] == xs[..i];
    MemberPrefix(collections, targets, xs, i + 1);
    var some := MemberItems(collections, targets, xs[..i + 1]);
    var n := |MemberItems(collections, targets, xs[..i])|;
    assert n < |some| ==> MemberItems(collections, targets, xs)[..|some|][n] == some[n];
  }
}
