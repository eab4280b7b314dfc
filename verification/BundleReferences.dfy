/** Where the references of memberships, notes and graph views lead after an import. */
module BundleReferences {
  import opened Common
  import opened BundleMerge
  import opened Bundle
  import opened BundleTheorems
  import NamedProofs
  import ResolveProofs
  import ByIdProofs
  import PutProofs

  // ---- Collections ----

  /** An id means the same name in the store and throughout the bundle. */
  ghost predicate NamesAgree(t: Tables, xs: seq<ExportCollection>) {
    && (forall i :: 0 <= i < |xs| && xs[i].id in t.collections ==> t.collections[xs[i].id].key == xs[i].name)
    && (forall i, j :: 0 <= i < |xs| && 0 <= j < |xs| && xs[i].id == xs[j].id ==> xs[i].name == xs[j].name)
  }

  /** Every bundle collection was resolved to a live row with its name. */
  ghost predicate NamesResolved(co: NamedState<CollectionDetails>, xs: seq<ExportCollection>) {
    forall i :: 0 <= i < |xs| ==>
      xs[i].id in co.idMap && co.idMap[xs[i].id] in co.rows && co.rows[co.idMap[xs[i].id]].key == xs[i].name
  }

  lemma NamesAgreeIff(t: Tables, xs: seq<ExportCollection>)
    ensures NamesAgree(t, xs) <==> NamedProofs.IdsAgree(t.collections, CollectionItems(xs))
  {
    var items := CollectionItems(xs);
    assert forall i :: 0 <= i < |xs| ==> items[i].id == xs[i].id && items[i].row.key == xs[i].name;
    if NamedProofs.IdsAgree(t.collections, items) {
      forall i, j | 0 <= i < |xs| && 0 <= j < |xs| && xs[i].id == xs[j].id ensures xs[i].name == xs[j].name {
        assert items[i].id == items[j].id;
      }
      forall i | 0 <= i < |xs| && xs[i].id in t.collections ensures t.collections[xs[i].id].key == xs[i].name {
        assert items[i].id in t.collections;
      }
    }
    if NamesAgree(t, xs) {
      forall i, j | 0 <= i < |items| && 0 <= j < |items| && items[i].id == items[j].id
          ensures items[i].row.key == items[j].row.key {
        assert xs[i].id == xs[j].id;
      }
    }
  }

  lemma NamesResolvedIff(co: NamedState<CollectionDetails>, xs: seq<ExportCollection>)
    ensures NamesResolved(co, xs) <==> NamedProofs.ResolvedByKey(co, CollectionItems(xs))
  {
    var items := CollectionItems(xs);
    assert forall i :: 0 <= i < |xs| ==> items[i].id == xs[i].id && items[i].row.key == xs[i].name;
    if NamedProofs.ResolvedByKey(co, items) {
      forall i | 0 <= i < |xs|
        ensures xs[i].id in co.idMap && co.idMap[xs[i].id] in co.rows && co.rows[co.idMap[xs[i].id]].key == xs[i].name
      {
        assert items[i].id in co.idMap;
      }
    }
  }

  /** The name of collection `i`, whose id is new, is that of a row whose id only later collections have, with another
      name. */
  ghost predicate NameRenamedLater(t: Tables, xs: seq<ExportCollection>, i: nat, j: nat)
    requires i < |xs| && j < |xs|
  {
    && xs[i].id !in t.collections && xs[j].id in t.collections
    && t.collections[xs[j].id].key == xs[i].name && xs[j].name != xs[i].name
    && forall k, l :: 0 <= k < |xs| && 0 <= l < |xs| && xs[k].id == xs[i].id && xs[l].id == xs[j].id ==> k < l
  }

  ghost predicate NamesLast(t: Tables, xs: seq<ExportCollection>) {
    && (forall i, j :: 0 <= i < |xs| && 0 <= j < |xs| && xs[i].id == xs[j].id ==> xs[i].name == xs[j].name)
    && (forall i, j {:trigger NameRenamedLater(t, xs, i, j)} :: 0 <= i < |xs| && 0 <= j < |xs| ==>
          !NameRenamedLater(t, xs, i, j))
  }

  lemma NamesLastIff(t: Tables, xs: seq<ExportCollection>)
    ensures NamesLast(t, xs) <==>
        var items := CollectionItems(xs);
        ResolveProofs.KeysAgree(items) && ResolveProofs.NoneRenamedLater(t.collections, items)
  {
    var items := CollectionItems(xs);
    assert forall i :: 0 <= i < |xs| ==> items[i].id == xs[i].id && items[i].row.key == xs[i].name;
    forall i, j | 0 <= i < |xs| && 0 <= j < |xs|
      ensures NameRenamedLater(t, xs, i, j) <==> ResolveProofs.RenamedLater(t.collections, items, i, j)
    {
      CollectionRenamedIff(t, xs, i, j);
    }
    if ResolveProofs.KeysAgree(items) {
      forall i, j | 0 <= i < |xs| && 0 <= j < |xs| && xs[i].id == xs[j].id ensures xs[i].name == xs[j].name {
        assert items[i].id == items[j].id;
      }
    }
  }

  lemma CollectionRenamedIff(t: Tables, xs: seq<ExportCollection>, i: nat, j: nat)
    requires i < |xs| && j < |xs|
    ensures NameRenamedLater(t, xs, i, j) <==> ResolveProofs.RenamedLater(t.collections, CollectionItems(xs), i, j)
  {
    var items := CollectionItems(xs);
    assert forall k :: 0 <= k < |xs| ==> items[k].id == xs[k].id && items[k].row.key == xs[k].name;
    if ResolveProofs.RenamedLater(t.collections, items, i, j) {
      forall k, l | 0 <= k < |xs| && 0 <= l < |xs| && xs[k].id == xs[i].id && xs[l].id == xs[j].id ensures k < l {
        assert items[k].id == items[i].id && items[l].id == items[j].id;
      }
    }
  }

  /** Every bundle collection ends at the row of its own name under the conditions that send a target to the row of
      its host. */
  lemma CollectionsResolveToTheirName(t: Tables, b: ExportBundle, p: Policy)
    requires Valid(t) && CollectionPhase(t, b, p).Ok?
    ensures NamesAgree(t, b.collections) ==> NamesResolved(CollectionPhase(t, b, p).value, b.collections)
    ensures p.Skip? ==>
              (NamesResolved(CollectionPhase(t, b, p).value, b.collections) <==> NamesAgree(t, b.collections))
    ensures p.Overwrite? ==>
              (NamesResolved(CollectionPhase(t, b, p).value, b.collections) <==> NamesLast(t, b.collections))
  {
    var items := CollectionItems(b.collections);
    NamesAgreeIff(t, b.collections);
    NamesResolvedIff(CollectionPhase(t, b, p).value, b.collections);
    if NamesAgree(t, b.collections) {
      NamedProofs.AgreementResolves(p, t.collections, items);
    }
    if p.Skip? {
      NamedProofs.SkipResolvesIffAgree(t.collections, items);
    } else {
      NamesLastIff(t, b.collections);
      ResolveProofs.OverwriteResolvesIff(t.collections, items);
    }
  }

  /** The live row `row` has the name of the bundle collection with id `id`. */
  ghost predicate HasNameOf(b: ExportBundle, rows: map<Id, Named<CollectionDetails>>, row: Id, id: Id) {
    row in rows
    && exists k :: 0 <= k < |b.collections| && b.collections[k].id == id && rows[row].key == b.collections[k].name
  }

  lemma MappedHasName(t: Tables, b: ExportBundle, p: Policy, co: NamedState<CollectionDetails>, id: Id)
    requires Valid(t) && CollectionPhase(t, b, p) == Ok(co) && NamesResolved(co, b.collections) && id in co.idMap
    ensures HasNameOf(b, co.rows, co.idMap[id], id)
  {
    var items := CollectionItems(b.collections);
    NamedProofs.MergeNamedKeeps(p, t.collections, items);
    assert NamedProofs.Seen(items, |items|, id);
    var k :| 0 <= k < |items| && items[k].id == id;
    assert b.collections[k].id == id;
  }

  /** Targets and collections were resolved to the rows of their hosts and names. */
  ghost predicate AllResolved(b: ExportBundle, ph: Phases) {
    HostsResolved(ph.targets, b.targets) && NamesResolved(ph.collections, b.collections)
  }

  // ---- Memberships ----

  /** A membership item stands for one of the bundle's memberships whose two ends are known. */
  lemma {:induction false} MemberItemOrigin(collections: map<Id, Id>, targets: map<Id, Id>, xs: seq<ExportMember>,
                                            n: nat)
    requires n < |MemberItems(collections, targets, xs)|
    ensures exists j :: 0 <= j < |xs| && xs[j].collectionId in collections && xs[j].targetId in targets
              && MemberItems(collections, targets, xs)[n].key
                  == (collections[xs[j].collectionId], targets[xs[j].targetId])
  {
    var before := xs[..|xs| - 1];
    if n < |MemberItems(collections, targets, before)| {
      MemberItemOrigin(collections, targets, before, n);
      var j :| 0 <= j < |before| && before[j].collectionId in collections && before[j].targetId in targets
               && MemberItems(collections, targets, before)[n].key
                   == (collections[before[j].collectionId], targets[before[j].targetId]);
      assert xs[j] == before[j];
    } else {
      assert xs[|xs| - 1].collectionId in collections;
    }
  }

  /** When targets and collections resolve, every membership the import added puts into the collection of the name
      it had at the source the target of the host it had there. */
  lemma MembershipsKeepTheirEnds(env: Env, t: Tables, b: ExportBundle, p: Policy, ph: Phases, key: (Id, Id))
    requires Valid(t) && Ran(env, t, b, p, ph) && AllResolved(b, ph) && key in ph.members && key !in t.members
    ensures exists j :: 0 <= j < |b.members|
              && HasNameOf(b, ph.collections.rows, key.0, b.members[j].collectionId)
              && HasHostOf(b, ph.targets.rows, key.1, b.members[j].targetId)
  {
    OtherTablesKept(env, t, b, p, ph);
    var items := MemberItems(ph.collections.idMap, ph.targets.idMap, b.members);
    var n := SoftOrigin(items, |items|, key);
    MemberItemOrigin(ph.collections.idMap, ph.targets.idMap, b.members, n);
    var j :| 0 <= j < |b.members| && b.members[j].collectionId in ph.collections.idMap
        && b.members[j].targetId in ph.targets.idMap
             && key == (ph.collections.idMap[b.members[j].collectionId], ph.targets.idMap[b.members[j].targetId]);
    MappedHasHost(env, t, b, p, ph.targets, b.members[j].targetId);
    MappedHasName(t, b, p, ph.collections, b.members[j].collectionId);
  }

  lemma {:induction false} SoftOrigin(items: seq<PutItem<(Id, Id), (), Time>>, n: nat, key: (Id, Id)) returns (i: nat)
    requires n <= |items| && PutProofs.LastSoft(items, n, key).Some?
    ensures i < n && items[i].key == key
  {
    if items[n - 1].key == key { i := n - 1; } else { i := SoftOrigin(items, n - 1, key); }
  }

  // ---- Notes and graph views ----

  /** A reference to one of the bundle's targets leads to the row of its host; any other stays as it was. */
  ghost predicate TargetRefLands(b: ExportBundle, rows: map<Id, Named<TargetDetails>>, at: Option<Id>, was: Option<Id>)
  {
    if was.Some? && exists k :: 0 <= k < |b.targets| && b.targets[k].id == was.value
    then at.Some? && HasHostOf(b, rows, at.value, was.value)
    else at == was
  }

  ghost predicate CollectionRefLands(b: ExportBundle, rows: map<Id, Named<CollectionDetails>>, at: Option<Id>,
                                     was: Option<Id>)
  {
    if was.Some? && exists k :: 0 <= k < |b.collections| && b.collections[k].id == was.value
    then at.Some? && HasNameOf(b, rows, at.value, was.value)
    else at == was
  }

  lemma TargetRemapped(env: Env, t: Tables, b: ExportBundle, p: Policy, ts: NamedState<TargetDetails>, was: Option<Id>)
    requires Valid(t) && TargetPhase(env, t, b, p) == Ok(ts) && HostsResolved(ts, b.targets)
    ensures TargetRefLands(b, ts.rows, Remap(was, ts.idMap), was)
  {
    if was.Some? && was.value in ts.idMap {
      MappedHasHost(env, t, b, p, ts, was.value);
    }
  }

  lemma CollectionRemapped(t: Tables, b: ExportBundle, p: Policy, co: NamedState<CollectionDetails>, was: Option<Id>)
    requires Valid(t) && CollectionPhase(t, b, p) == Ok(co) && NamesResolved(co, b.collections)
    ensures CollectionRefLands(b, co.rows, Remap(was, co.idMap), was)
  {
    if was.Some? && was.value in co.idMap {
      MappedHasName(t, b, p, co, was.value);
    }
  }

  /** The note row is the bundle's note `x`, its references leading to the same host and name as at the source. */
  ghost predicate NoteLands(b: ExportBundle, ph: Phases, row: NoteRow, x: ExportNote) {
    && row.body == x.body && row.status == x.status && row.snapshotId == x.snapshotId
    && row.graphNodeId == x.graphNodeId
    && TargetRefLands(b, ph.targets.rows, row.targetId, x.targetId)
    && CollectionRefLands(b, ph.collections.rows, row.collectionId, x.collectionId)
  }

  lemma NoteWritten(env: Env, t: Tables, b: ExportBundle, p: Policy, ph: Phases, id: Id)
    requires Valid(t) && Ran(env, t, b, p, ph) && id in ph.notes.rows
    requires !(id in t.notes && ph.notes.rows[id] == t.notes[id])
    ensures ByIdProofs.HasRow(NoteItems(ph.collections.idMap, ph.targets.idMap, b.notes), |b.notes|, id,
                ph.notes.rows[id])
  {
    NotesAndViewsKept(env, t, b, p, ph);
  }

  lemma NotesKeepTheirReferences(env: Env, t: Tables, b: ExportBundle, p: Policy, ph: Phases, id: Id)
    requires Valid(t) && Ran(env, t, b, p, ph) && AllResolved(b, ph) && id in ph.notes.rows
    requires !(id in t.notes && ph.notes.rows[id] == t.notes[id])
    ensures exists j :: 0 <= j < |b.notes| && b.notes[j].id == id && NoteLands(b, ph, ph.notes.rows[id], b.notes[j])
  {
    NoteWritten(env, t, b, p, ph, id);
    var items := NoteItems(ph.collections.idMap, ph.targets.idMap, b.notes);
    var j :| 0 <= j < |items| && items[j].id == id && items[j].row == Some(ph.notes.rows[id]);
    assert items[j] == NoteItem(ph.collections.idMap, ph.targets.idMap, b.notes[j]);
    TargetRemapped(env, t, b, p, ph.targets, b.notes[j].targetId);
    CollectionRemapped(t, b, p, ph.collections, b.notes[j].collectionId);
  }

  ghost predicate ViewLands(b: ExportBundle, ph: Phases, row: ViewRow, x: ExportView) {
    && row.name == x.name && row.body == x.body && row.snapshotId == x.snapshotId
    && row.compareSnapshotId == x.compareSnapshotId
    && TargetRefLands(b, ph.targets.rows, row.targetId, x.targetId)
  }

  lemma ViewWritten(env: Env, t: Tables, b: ExportBundle, p: Policy, ph: Phases, id: Id)
    requires Valid(t) && Ran(env, t, b, p, ph) && id in ph.views.rows
    requires !(id in t.views && ph.views.rows[id] == t.views[id])
    ensures ByIdProofs.HasRow(ViewItems(ph.targets.idMap, b.views), |b.views|, id, ph.views.rows[id])
  {
    NotesAndViewsKept(env, t, b, p, ph);
  }

  lemma ViewsKeepTheirTarget(env: Env, t: Tables, b: ExportBundle, p: Policy, ph: Phases, id: Id)
    requires Valid(t) && Ran(env, t, b, p, ph) && HostsResolved(ph.targets, b.targets) && id in ph.views.rows
    requires !(id in t.views && ph.views.rows[id] == t.views[id])
    ensures exists j :: 0 <= j < |b.views| && b.views[j].id == id && ViewLands(b, ph, ph.views.rows[id], b.views[j])
  {
    ViewWritten(env, t, b, p, ph, id);
    var items := ViewItems(ph.targets.idMap, b.views);
    var j :| 0 <= j < |items| && items[j].id == id && items[j].row == Some(ph.views.rows[id]);
    assert items[j] == ViewItem(ph.targets.idMap, b.views[j]);
    TargetRemapped(env, t, b, p, ph.targets, b.views[j].targetId);
  }
}
