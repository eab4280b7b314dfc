/** In which order the items of a second export come back. */
module BundleOrder {
  import opened Common
  import opened Counting
  import Sorting
  import opened BundleMerge
  import opened Bundle

  // ---- Two sorted lists of the same values ----

  /** At each position neither list has a value before the other's. */
  ghost predicate SameRanks<U(!new)>(lt: (U, U) -> bool, a: seq<U>, b: seq<U>) {
    |a| == |b| && forall i :: 0 <= i < |a| ==> !lt(a[i], b[i]) && !lt(b[i], a[i])
  }

  lemma NotBefore<U(!new)>(lt: (U, U) -> bool, a: seq<U>, b: seq<U>, i: nat)
    requires Sorting.StrictWeak(lt) && Sorting.Ordered(lt, a) && Sorting.Ordered(lt, b)
    requires multiset(a) == multiset(b) && i < |a| && i < |b|
    ensures !lt(a[i], b[i])
  {
    if lt(a[i], b[i]) {
      var p := (u: U) => lt(u, b[i]);
      var front, back := a[..i + 1], b[i..];
      forall k | 0 <= k < |front| ensures p(front[k]) {
        assert lt(a[i], a[k]) || lt(a[k], b[i]);
      }
      CountAll(front, p);
      CountNone(back, p);
      CountAtMost(b[..i], p);
      CountConcat(front, a[i + 1..], p);
      CountConcat(b[..i], back, p);
      assert a == front + a[i + 1..] && b == b[..i] + back;
      CountPermuted(a, b, p);
    }
  }

  lemma SortedAlike<U(!new)>(lt: (U, U) -> bool, a: seq<U>, b: seq<U>)
    requires Sorting.StrictWeak(lt) && Sorting.Ordered(lt, a) && Sorting.Ordered(lt, b) && multiset(a) == multiset(b)
    ensures SameRanks(lt, a, b)
  {
    assert |multiset(a)| == |a| && |multiset(b)| == |b|;
    forall i | 0 <= i < |a| ensures !lt(a[i], b[i]) && !lt(b[i], a[i]) {
      NotBefore(lt, a, b, i);
      NotBefore(lt, b, a, i);
    }
  }

  // ---- Two listings of one table ----

  lemma ListedKeys<K(!new), R(!new), X(!new)>(rows: map<K, R>, items: seq<X>, key: X -> K, out: (K, R) -> X)
    requires Lists(rows, items, key, out)
    ensures Distinct(Map(key, items)) && forall k :: k in Map(key, items) <==> k in rows
  {
    forall k ensures k in Map(key, items) <==> k in rows {
      if k in rows {
        var j :| 0 <= j < |items| && key(items[j]) == k;
        assert Map(key, items)[j] == k;
      }
    }
  }

  lemma {:induction false} ShownCount<K, U>(keys: seq<K>, shown: seq<U>, u: U, p: K -> bool)
    requires |keys| == |shown| && forall i :: 0 <= i < |keys| ==> (p(keys[i]) <==> shown[i] == u)
    ensures multiset(shown)[u] == Count(keys, p)
  {
    if keys != [] {
      var n := |keys| - 1;
      ShownCount(keys[..n], shown[..n], u, p);
      assert shown == shown[..n] + [shown[n]];
    }
  }

  /** What a row is sorted by: `rank` gives it for each key. */
  ghost predicate Ranks<K(!new), X(!new), U(!new)>(rank: map<K, U>, items: seq<X>, key: X -> K, part: X -> U) {
    forall i :: 0 <= i < |items| ==> key(items[i]) in rank && part(items[i]) == rank[key(items[i])]
  }

  lemma SameShown<K(!new), X(!new), U(!new)>(rank: map<K, U>, a: seq<X>, b: seq<X>, key: X -> K, part: X -> U)
    requires Ranks(rank, a, key, part) && Ranks(rank, b, key, part)
    requires multiset(Map(key, a)) == multiset(Map(key, b))
    ensures multiset(Map(part, a)) == multiset(Map(part, b))
  {
    forall u ensures multiset(Map(part, a))[u] == multiset(Map(part, b))[u] {
      var p := (k: K) => k in rank && rank[k] == u;
      ShownCount(Map(key, a), Map(part, a), u, p);
      ShownCount(Map(key, b), Map(part, b), u, p);
      CountPermuted(Map(key, a), Map(key, b), p);
    }
  }

  /** Of a table and of another state of it with the same ranks, two sorted listings have the same ranks throughout. */
  lemma ListedAlike<K(!new), R(!new), X(!new), U(!new)>(rows: map<K, R>, others: map<K, R>, a: seq<X>, b: seq<X>,
      key: X -> K, out: (K, R) -> X, part: X -> U, lt: (U, U) -> bool, rank: map<K, U>)
    requires Sorting.StrictWeak(lt) && Lists(rows, a, key, out) && Lists(others, b, key, out)
    requires rows.Keys == others.Keys
    requires Ranks(rank, a, key, part) && Ranks(rank, b, key, part)
    requires Sorting.Ordered(lt, Map(part, a)) && Sorting.Ordered(lt, Map(part, b))
    ensures SameRanks(lt, Map(part, a), Map(part, b))
  {
    ListedKeys(rows, a, key, out);
    ListedKeys(others, b, key, out);
    DistinctSameElements(Map(key, a), Map(key, b));
    SameShown(rank, a, b, key, part);
    SortedAlike(lt, Map(part, a), Map(part, b));
  }

  // ---- What the bundle shows of it ----

  predicate Earlier(a: Time, b: Time) {
    a < b
  }

  /** Position for position the same timestamps, and names that the collation does not tell apart. */
  ghost predicate InSameOrder(opts: ExportOptions, a: ExportBundle, b: ExportBundle) {
    && Map(TargetTime, a.targets) == Map(TargetTime, b.targets)
    && Map(SnapshotTime, a.snapshots) == Map(SnapshotTime, b.snapshots)
    && Map(MemberTime, a.members) == Map(MemberTime, b.members)
    && Map(NoteTime, a.notes) == Map(NoteTime, b.notes)
    && Map(ViewTime, a.views) == Map(ViewTime, b.views)
    && SameRanks(opts.nameBefore, Map(ExportedName, a.collections), Map(ExportedName, b.collections))
    && SameRanks(opts.nameBefore, Map(ExportedHook, a.webhooks), Map(ExportedHook, b.webhooks))
  }

  function TargetTime(x: ExportTarget): Time { x.createdAt }
  function SnapshotTime(x: ExportSnapshot): Time { x.body.scannedAt }
  function MemberTime(x: ExportMember): Time { x.addedAt }
  function NoteTime(x: ExportNote): Time { x.body.updatedAt }
  function ViewTime(x: ExportView): Time { x.body.updatedAt }
  function ExportedName(x: ExportCollection): string { x.name }
  function ExportedHook(x: ExportWebhook): string { x.name }

  lemma SameTimes(a: seq<Time>, b: seq<Time>)
    requires SameRanks(Earlier, a, b)
    ensures a == b
  {
    forall i | 0 <= i < |a| ensures a[i] == b[i] {
      assert !Earlier(a[i], b[i]) && !Earlier(b[i], a[i]);
    }
  }

  lemma TargetsShown(t: map<Id, Named<TargetDetails>>, xs: seq<ExportTarget>, rank: map<Id, Time>)
    requires ListsInOrder(t, xs, TargetId, TargetOut, TargetBefore) && rank == map k | k in t :: t[k].createdAt
    ensures Ranks(rank, xs, TargetId, TargetTime) && Sorting.Ordered(Earlier, Map(TargetTime, xs))
  {
  }

  lemma TargetsAlike(t: map<Id, Named<TargetDetails>>, u: map<Id, Named<TargetDetails>>, a: seq<ExportTarget>,
                     b: seq<ExportTarget>)
    requires ListsInOrder(t, a, TargetId, TargetOut, TargetBefore)
    requires ListsInOrder(u, b, TargetId, TargetOut, TargetBefore)
    requires t.Keys == u.Keys && forall k :: k in t ==> t[k].createdAt == u[k].createdAt
    ensures Map(TargetTime, a) == Map(TargetTime, b)
  {
    var rank := map k | k in t :: t[k].createdAt;
    assert rank == map k | k in u :: u[k].createdAt;
    TargetsShown(t, a, rank);
    TargetsShown(u, b, rank);
    ListedAlike(t, u, a, b, TargetId, TargetOut, TargetTime, Earlier, rank);
    SameTimes(Map(TargetTime, a), Map(TargetTime, b));
  }

  lemma SnapshotsShown(t: map<Id, SnapshotRow>, xs: seq<ExportSnapshot>, rank: map<Id, Time>)
    requires ListsInOrder(t, xs, SnapshotId, SnapshotOut, SnapshotBefore)
    requires rank == map k | k in t :: t[k].body.scannedAt
    ensures Ranks(rank, xs, SnapshotId, SnapshotTime) && Sorting.Ordered(Earlier, Map(SnapshotTime, xs))
  {
  }

  lemma SnapshotsAlike(t: map<Id, SnapshotRow>, u: map<Id, SnapshotRow>, a: seq<ExportSnapshot>, b: seq<ExportSnapshot>)
    requires ListsInOrder(t, a, SnapshotId, SnapshotOut, SnapshotBefore)
    requires ListsInOrder(u, b, SnapshotId, SnapshotOut, SnapshotBefore)
    requires t.Keys == u.Keys && forall k :: k in t ==> t[k].body.scannedAt == u[k].body.scannedAt
    ensures Map(SnapshotTime, a) == Map(SnapshotTime, b)
  {
    var rank := map k | k in t :: t[k].body.scannedAt;
    assert rank == map k | k in u :: u[k].body.scannedAt;
    SnapshotsShown(t, a, rank);
    SnapshotsShown(u, b, rank);
    ListedAlike(t, u, a, b, SnapshotId, SnapshotOut, SnapshotTime, Earlier, rank);
    SameTimes(Map(SnapshotTime, a), Map(SnapshotTime, b));
  }

  lemma MembersShown(t: MemberRows, xs: seq<ExportMember>, rank: map<(Id, Id), Time>)
    requires ListsInOrder(t, xs, MemberKey, MemberOut, MemberBefore) && rank == map k | k in t :: t[k].soft
    ensures Ranks(rank, xs, MemberKey, MemberTime) && Sorting.Ordered(Earlier, Map(MemberTime, xs))
  {
  }

  lemma MembersAlike(t: MemberRows, a: seq<ExportMember>, b: seq<ExportMember>)
    requires ListsInOrder(t, a, MemberKey, MemberOut, MemberBefore)
    requires ListsInOrder(t, b, MemberKey, MemberOut, MemberBefore)
    ensures Map(MemberTime, a) == Map(MemberTime, b)
  {
    var rank := map k | k in t :: t[k].soft;
    MembersShown(t, a, rank);
    MembersShown(t, b, rank);
    ListedAlike(t, t, a, b, MemberKey, MemberOut, MemberTime, Earlier, rank);
    SameTimes(Map(MemberTime, a), Map(MemberTime, b));
  }

  lemma NotesShown(t: map<Id, NoteRow>, xs: seq<ExportNote>, rank: map<Id, Time>)
    requires ListsInOrder(t, xs, NoteId, NoteOut, NoteBefore) && rank == map k | k in t :: t[k].body.updatedAt
    ensures Ranks(rank, xs, NoteId, NoteTime) && Sorting.Ordered(Earlier, Map(NoteTime, xs))
  {
  }

  lemma NotesAlike(t: map<Id, NoteRow>, a: seq<ExportNote>, b: seq<ExportNote>)
    requires ListsInOrder(t, a, NoteId, NoteOut, NoteBefore) && ListsInOrder(t, b, NoteId, NoteOut, NoteBefore)
    ensures Map(NoteTime, a) == Map(NoteTime, b)
  {
    var rank := map k | k in t :: t[k].body.updatedAt;
    NotesShown(t, a, rank);
    NotesShown(t, b, rank);
    ListedAlike(t, t, a, b, NoteId, NoteOut, NoteTime, Earlier, rank);
    SameTimes(Map(NoteTime, a), Map(NoteTime, b));
  }

  lemma ViewsShown(t: map<Id, ViewRow>, xs: seq<ExportView>, rank: map<Id, Time>)
    requires ListsInOrder(t, xs, ViewId, ViewOut, ViewBefore) && rank == map k | k in t :: t[k].body.updatedAt
    ensures Ranks(rank, xs, ViewId, ViewTime) && Sorting.Ordered(Earlier, Map(ViewTime, xs))
  {
  }

  lemma ViewsAlike(t: map<Id, ViewRow>, a: seq<ExportView>, b: seq<ExportView>)
    requires ListsInOrder(t, a, ViewId, ViewOut, ViewBefore) && ListsInOrder(t, b, ViewId, ViewOut, ViewBefore)
    ensures Map(ViewTime, a) == Map(ViewTime, b)
  {
    var rank := map k | k in t :: t[k].body.updatedAt;
    ViewsShown(t, a, rank);
    ViewsShown(t, b, rank);
    ListedAlike(t, t, a, b, ViewId, ViewOut, ViewTime, Earlier, rank);
    SameTimes(Map(ViewTime, a), Map(ViewTime, b));
  }

  lemma CollectionsShown(t: map<Id, Named<CollectionDetails>>, xs: seq<ExportCollection>, lt: (string,
                         string) -> bool, rank: map<Id, string>)
    requires ListsInOrder(t, xs, CollectionId, CollectionOut, CollectionBefore(lt))
    requires rank == map k | k in t :: t[k].key
    ensures Ranks(rank, xs, CollectionId, ExportedName) && Sorting.Ordered(lt, Map(ExportedName, xs))
  {
    forall i, j | 0 <= i < j < |xs| ensures !lt(ExportedName(xs[j]), ExportedName(xs[i])) {
      var x, y := t[CollectionId(xs[i])], t[CollectionId(xs[j])];
      assert ExportedName(xs[i]) == x.key && ExportedName(xs[j]) == y.key;
      assert !CollectionBefore(lt)(y, x);
      assert !lt(CollectionName(y), CollectionName(x));
    }
  }

  lemma CollectionsAlike(t: map<Id, Named<CollectionDetails>>, a: seq<ExportCollection>, b: seq<ExportCollection>,
                         lt: (string, string) -> bool)
    requires Sorting.StrictWeak(lt) && ListsInOrder(t, a, CollectionId, CollectionOut, CollectionBefore(lt))
    requires ListsInOrder(t, b, CollectionId, CollectionOut, CollectionBefore(lt))
    ensures SameRanks(lt, Map(ExportedName, a), Map(ExportedName, b))
  {
    var rank := map k | k in t :: t[k].key;
    CollectionsShown(t, a, lt, rank);
    CollectionsShown(t, b, lt, rank);
    ListedAlike(t, t, a, b, CollectionId, CollectionOut, ExportedName, lt, rank);
  }

  lemma WebhooksShown(t: map<Id, Slot<Time, WebhookBody>>, xs: seq<ExportWebhook>, lt: (string, string) -> bool,
                      rank: map<Id, string>)
    requires ListsInOrder(t, xs, WebhookId, WebhookOut, WebhookBefore(lt)) && rank == map k | k in t :: t[k].soft.name
    ensures Ranks(rank, xs, WebhookId, ExportedHook) && Sorting.Ordered(lt, Map(ExportedHook, xs))
  {
    forall i, j | 0 <= i < j < |xs| ensures !lt(ExportedHook(xs[j]), ExportedHook(xs[i])) {
      var x, y := t[WebhookId(xs[i])], t[WebhookId(xs[j])];
      assert ExportedHook(xs[i]) == x.soft.name && ExportedHook(xs[j]) == y.soft.name;
      assert !WebhookBefore(lt)(y, x);
      assert !lt(WebhookName(y), WebhookName(x));
    }
  }

  lemma WebhooksAlike(t: map<Id, Slot<Time, WebhookBody>>, a: seq<ExportWebhook>, b: seq<ExportWebhook>, lt: (string,
                      string) -> bool)
    requires Sorting.StrictWeak(lt) && ListsInOrder(t, a, WebhookId, WebhookOut, WebhookBefore(lt))
    requires ListsInOrder(t, b, WebhookId, WebhookOut, WebhookBefore(lt))
    ensures SameRanks(lt, Map(ExportedHook, a), Map(ExportedHook, b))
  {
    var rank := map k | k in t :: t[k].soft.name;
    WebhooksShown(t, a, lt, rank);
    WebhooksShown(t, b, lt, rank);
    ListedAlike(t, t, a, b, WebhookId, WebhookOut, ExportedHook, lt, rank);
  }

  // ---- Blobs ----

  /** The blobs stand in the order of the source's creation times. */
  ghost predicate InSourceOrder(rows: BlobRows, xs: seq<ExportBlob>) {
    forall i, j :: 0 <= i < j < |xs| && BlobKey(xs[i]) in rows && BlobKey(xs[j]) in rows ==>
      rows[BlobKey(xs[i])].fixed.createdAt <= rows[BlobKey(xs[j])].fixed.createdAt
  }

  ghost predicate OneTime(rows: BlobRows) {
    forall k, l :: k in rows && l in rows ==> rows[k].fixed.createdAt == rows[l].fixed.createdAt
  }

  /** Blobs of one creation time may be listed in any order. */
  lemma AnyOrder(rows: BlobRows, xs: seq<ExportBlob>, ys: seq<ExportBlob>)
    requires OneTime(rows) && ListsInOrder(rows, xs, BlobKey, BlobOut, BlobBefore) && multiset(xs) == multiset(ys)
    ensures ListsInOrder(rows, ys, BlobKey, BlobOut, BlobBefore)
  {
    Rearranged(rows, xs, ys, BlobKey, BlobOut);
  }

  lemma Rearranged<K(!new), R(!new), X(!new)>(rows: map<K, R>, xs: seq<X>, ys: seq<X>, key: X -> K, out: (K, R) -> X)
    requires Lists(rows, xs, key, out) && multiset(xs) == multiset(ys)
    ensures Lists(rows, ys, key, out)
  {
    forall x ensures x in xs <==> x in ys {
      assert x in xs <==> x in multiset(xs);
      assert x in ys <==> x in multiset(ys);
    }
    forall i, j | 0 <= i < j < |xs| ensures xs[i] != xs[j] {
      assert key(xs[i]) != key(xs[j]);
    }
    forall j | 0 <= j < |ys| ensures key(ys[j]) in rows && ys[j] == out(key(ys[j]), rows[key(ys[j])]) {
      assert ys[j] in xs;
    }
    forall i, j | 0 <= i < j < |ys| ensures key(ys[i]) != key(ys[j]) {
      DistinctCount(xs, ys[i]);
      Sorting.CountTwice(ys, i, j);
    }
    forall k | k in rows ensures exists j :: 0 <= j < |ys| && key(ys[j]) == k {
      var j :| 0 <= j < |xs| && key(xs[j]) == k;
      assert xs[j] in ys;
    }
  }

  function Swapped<T>(s: seq<T>, i: nat, j: nat): seq<T>
    requires i < j < |s|
  {
    s[i := s[j]][j := s[i]]
  }

  lemma SwappedSame<T>(s: seq<T>, i: nat, j: nat)
    requires i < j < |s|
    ensures multiset(Swapped(s, i, j)) == multiset(s)
  {
    var t := s[i := s[j]];
    assert multiset(t) == multiset(s) - multiset{s[i]} + multiset{s[j]};
    assert multiset(t[j := s[i]]) == multiset(t) - multiset{t[j]} + multiset{s[i]};
  }

  /** Some rearrangement breaks the source's order unless all creation times are one. */
  lemma SomeOrderBreaks(rows: BlobRows, xs: seq<ExportBlob>) returns (ys: seq<ExportBlob>)
    requires !OneTime(rows) && forall k :: k in rows ==> exists j :: 0 <= j < |xs| && BlobKey(xs[j]) == k
    ensures multiset(xs) == multiset(ys) && !InSourceOrder(rows, ys)
  {
    var k, l :| k in rows && l in rows && rows[k].fixed.createdAt < rows[l].fixed.createdAt;
    var i :| 0 <= i < |xs| && BlobKey(xs[i]) == k;
    var j :| 0 <= j < |xs| && BlobKey(xs[j]) == l;
    if i < j {
      SwappedSame(xs, i, j);
      ys := Swapped(xs, i, j);
      assert BlobKey(ys[i]) == l && BlobKey(ys[j]) == k;
    } else {
      ys := xs;
    }
  }
}
