/** The three ways an import writes a table, each as one step over (part of) the table.
    A statement that would break a constraint fails, and with it the whole import. */
module BundleMerge {
  import opened Common

  type Id = nat
  type Time = int

  datatype Policy = Skip | Overwrite

  /** `Aborted`: a statement broke a constraint or a blob did not decode, and the transaction was rolled back. */
  datatype ImportError = MissingBundle | BadVersion | BadPolicy | Aborted

  // ---- Tables with a natural key: targets by host, collections by name ----

  /** A row identified by its id or by its unique key; `details` is what a merge by key rewrites. */
  datatype Named<A> = Named(key: string, createdAt: Time, details: A)

  datatype NamedItem<A> = NamedItem(id: Id, row: Named<A>)

  /** The table, where each bundle id ended up, and the two counters. */
  datatype NamedState<A> = NamedState(rows: map<Id, Named<A>>, idMap: map<Id, Id>, imported: nat, skipped: nat)

  predicate UniqueKeys<A(!new)>(rows: map<Id, Named<A>>) {
    forall i, j :: i in rows && j in rows && rows[i].key == rows[j].key ==> i == j
  }

  /** The row with the key, as the lookup by natural key finds it. */
  ghost function Owner<A(!new)>(rows: map<Id, Named<A>>, key: string): (o: Option<Id>)
    ensures o.Some? ==> o.value in rows && rows[o.value].key == key
    ensures o.None? ==> forall i :: i in rows ==> rows[i].key != key
  {
    if i :| i in rows && rows[i].key == key then Some(i) else None
  }

  lemma OwnerIs<A(!new)>(rows: map<Id, Named<A>>, i: Id)
    requires UniqueKeys(rows) && i in rows
    ensures Owner(rows, rows[i].key) == Some(i)
  {
  }

  ghost function StepNamed<A(!new)>(p: Policy, s: NamedState<A>, x: NamedItem<A>): Result<NamedState<A>, ImportError> {
    if x.id in s.rows then
      if p.Skip? then Ok(s.(idMap := s.idMap[x.id := x.id], skipped := s.skipped + 1))
      else if !UniqueKeys(s.rows[x.id := x.row]) then Err(Aborted)
      else Ok(s.(rows := s.rows[x.id := x.row], idMap := s.idMap[x.id := x.id], imported := s.imported + 1))
    else
      match Owner(s.rows, x.row.key)
      case Some(o) =>
        if p.Skip? then Ok(s.(idMap := s.idMap[x.id := o], skipped := s.skipped + 1))
        else Ok(s.(rows := s.rows[o := s.rows[o].(details := x.row.details)], idMap := s.idMap[x.id := o],
            imported := s.imported + 1))
      case None =>
        Ok(s.(rows := s.rows[x.id := x.row], idMap := s.idMap[x.id := x.id], imported := s.imported + 1))
  }

  ghost function NamedStep<A(!new)>(p: Policy): (NamedState<A>, NamedItem<A>) -> Result<NamedState<A>, ImportError> {
    (s: NamedState<A>, x: NamedItem<A>) => StepNamed(p, s, x)
  }

  ghost function MergeNamed<A(!new)>(p: Policy, rows: map<Id, Named<A>>,
      items: seq<NamedItem<A>>): Result<NamedState<A>, ImportError> {
    Fold(NamedStep(p), NamedState(rows, map[], 0, 0), items)
  }

  /** Every id resolved to itself. */
  function Identity(ids: set<Id>): map<Id, Id> {
    map k | k in ids :: k
  }

  // ---- Tables merged by id alone: snapshots, notes, graph views ----

  /** `row` is None when the item's target is unknown and the item is passed over. */
  datatype ByIdItem<R> = ByIdItem(id: Id, row: Option<R>)

  datatype ByIdState<R> = ByIdState(rows: map<Id, R>, imported: nat, skipped: nat)

  function StepById<R>(p: Policy, ok: map<Id, R> -> bool, s: ByIdState<R>, x: ByIdItem<R>)
    : Result<ByIdState<R>, ImportError>
  {
    if x.row.None? || (x.id in s.rows && p.Skip?) then Ok(s.(skipped := s.skipped + 1))
    else if !ok(s.rows[x.id := x.row.value]) then Err(Aborted)
    else Ok(s.(rows := s.rows[x.id := x.row.value], imported := s.imported + 1))
  }

  function ByIdStep<R(!new)>(p: Policy, ok: map<Id, R> -> bool)
    : (ByIdState<R>, ByIdItem<R>) -> Result<ByIdState<R>, ImportError>
  {
    (s: ByIdState<R>, x: ByIdItem<R>) => StepById(p, ok, s, x)
  }

  function MergeById<R(!new)>(p: Policy, ok: map<Id, R> -> bool, rows: map<Id, R>, items: seq<ByIdItem<R>>)
    : Result<ByIdState<R>, ImportError>
  {
    Fold(ByIdStep(p, ok), ByIdState(rows, 0, 0), items)
  }

  // ---- Tables always upserted: blobs, memberships, webhooks ----

  /** On conflict `soft` is replaced and `fixed` kept. */
  datatype Slot<F, S> = Slot(fixed: F, soft: S)

  datatype PutItem<K, F, S> = PutItem(key: K, slot: Slot<F, S>)

  function Put<K, F, S>(rows: map<K, Slot<F, S>>, x: PutItem<K, F, S>): map<K, Slot<F, S>> {
    rows[x.key := if x.key in rows then rows[x.key].(soft := x.slot.soft) else x.slot]
  }

  function StepPut<K, F, S>(ok: map<K, Slot<F, S>> -> bool, rows: map<K, Slot<F, S>>, x: PutItem<K, F, S>)
    : Result<map<K, Slot<F, S>>, ImportError>
  {
    if ok(Put(rows, x)) then Ok(Put(rows, x)) else Err(Aborted)
  }

  function PutStep<K(!new), F(!new), S(!new)>(ok: map<K, Slot<F, S>> -> bool)
    : (map<K, Slot<F, S>>, PutItem<K, F, S>) -> Result<map<K, Slot<F, S>>, ImportError>
  {
    (rows: map<K, Slot<F, S>>, x: PutItem<K, F, S>) => StepPut(ok, rows, x)
  }

  function PutAll<K(!new), F(!new), S(!new)>(ok: map<K, Slot<F, S>> -> bool, rows: map<K, Slot<F, S>>,
      items: seq<PutItem<K, F, S>>): Result<map<K, Slot<F, S>>, ImportError> {
    Fold(PutStep(ok), rows, items)
  }
}

/** Merging by id or natural key: where ids end up, what stays, and that doing it twice changes nothing. */
module NamedProofs {
  import opened Common
  import opened BundleMerge

  /** One of the first `n` items has the id. */
  ghost predicate Seen<A(!new)>(items: seq<NamedItem<A>>, n: nat, k: Id)
    requires n <= |items|
  {
    exists j :: 0 <= j < n && items[j].id == k
  }

  lemma SeenNext<A(!new)>(items: seq<NamedItem<A>>, n: nat, k: Id)
    requires n < |items|
    ensures Seen(items, n + 1, k) <==> Seen(items, n, k) || items[n].id == k
  {
    if Seen(items, n, k) {
      var j :| 0 <= j < n && items[j].id == k;
    }
  }

  /** Rows are never deleted, and skipping leaves the old ones as they were. */
  ghost predicate Grown<A(!new)>(p: Policy, before: map<Id, Named<A>>, after: map<Id, Named<A>>) {
    && before.Keys <= after.Keys
    && (p.Skip? ==> forall i :: i in before ==> after[i] == before[i])
  }

  /** After `n` of the items. */
  ghost predicate NamedInv<A(!new)>(p: Policy, before: map<Id, Named<A>>, items: seq<NamedItem<A>>, n: nat,
      s: NamedState<A>) {
    && n <= |items|
    && UniqueKeys(s.rows) && Grown(p, before, s.rows)
    && s.imported + s.skipped == n
    && (forall k :: k in s.idMap <==> Seen(items, n, k))
    && (forall k :: k in s.idMap ==> s.idMap[k] in s.rows)
  }

  lemma StepNamedInv<A(!new)>(p: Policy, before: map<Id, Named<A>>, items: seq<NamedItem<A>>, n: nat, s: NamedState<A>)
    requires n < |items| && NamedInv(p, before, items, n, s) && StepNamed(p, s, items[n]).Ok?
    ensures NamedInv(p, before, items, n + 1, StepNamed(p, s, items[n]).value)
  {
    var t := StepNamed(p, s, items[n]).value;
    StepKeepsUnique(p, s, items[n]);
    forall k ensures k in t.idMap <==> Seen(items, n + 1, k) {
      SeenNext(items, n, k);
    }
  }

  lemma StepKeepsUnique<A(!new)>(p: Policy, s: NamedState<A>, x: NamedItem<A>)
    requires UniqueKeys(s.rows) && StepNamed(p, s, x).Ok?
    ensures UniqueKeys(StepNamed(p, s, x).value.rows)
    ensures x.id in StepNamed(p, s, x).value.idMap
        && StepNamed(p, s, x).value.idMap[x.id] in StepNamed(p, s, x).value.rows
  {
  }

  /** Merging keeps keys unique, deletes nothing, resolves every bundle id to a live row, counts every
      item once, and in skip mode changes no row that was there. */
  lemma MergeNamedKeeps<A(!new)>(p: Policy, rows: map<Id, Named<A>>, items: seq<NamedItem<A>>)
    requires UniqueKeys(rows) && MergeNamed(p, rows, items).Ok?
    ensures NamedInv(p, rows, items, |items|, MergeNamed(p, rows, items).value)
  {
    var step := NamedStep<A>(p);
    var inv := (n: nat, s: NamedState<A>) => NamedInv(p, rows, items, n, s);
    forall n: nat, s | n < |items| && inv(n, s) && step(s, items[n]).Ok? ensures inv(n + 1, step(s, items[n]).value) {
      StepNamedInv(p, rows, items, n, s);
    }
    FoldInvariant(step, inv, NamedState(rows, map[], 0, 0), items);
  }

  /** Skipping imports exactly the rows that were not there; overwriting skips nothing. */
  lemma MergeNamedCounts<A(!new)>(p: Policy, rows: map<Id, Named<A>>, items: seq<NamedItem<A>>)
    requires MergeNamed(p, rows, items).Ok?
    ensures var s := MergeNamed(p, rows, items).value;
            if p.Skip? then s.imported == |s.rows| - |rows| else s.skipped == 0
  {
    var step := NamedStep<A>(p);
    var inv := (n: nat, s: NamedState<A>) => if p.Skip? then s.imported == |s.rows| - |rows| else s.skipped == 0;
    forall n: nat, s | n < |items| && inv(n, s) && step(s, items[n]).Ok? ensures inv(n + 1, step(s, items[n]).value) {
      var x := items[n];
      assert x.id !in s.rows ==> |s.rows[x.id := x.row]| == |s.rows| + 1;
    }
    FoldInvariant(step, inv, NamedState(rows, map[], 0, 0), items);
  }

  // ---- Where bundle ids end up ----

  /** An id means the same key in the table and throughout the bundle. */
  ghost predicate IdsAgree<A(!new)>(rows: map<Id, Named<A>>, items: seq<NamedItem<A>>) {
    && (forall i :: 0 <= i < |items| && items[i].id in rows ==> rows[items[i].id].key == items[i].row.key)
    && (forall i, j :: 0 <= i < |items| && 0 <= j < |items| && items[i].id == items[j].id ==>
        items[i].row.key == items[j].row.key)
  }

  /** Every bundle item's id is resolved to a row with the item's key. */
  ghost predicate ResolvedByKey<A(!new)>(s: NamedState<A>, items: seq<NamedItem<A>>) {
    forall i :: 0 <= i < |items| ==>
      && items[i].id in s.idMap && s.idMap[items[i].id] in s.rows
      && s.rows[s.idMap[items[i].id]].key == items[i].row.key
  }

  /** The key of the last of the first `n` items with id `k`. */
  function LastKey<A(!new)>(items: seq<NamedItem<A>>, n: nat, k: Id): Option<string>
    requires n <= |items|
  {
    if n == 0 then None
    else if items[n - 1].id == k then Some(items[n - 1].row.key)
    else LastKey(items, n - 1, k)
  }

  /** Resolution as a function of the final table: the id itself if it is there, else the owner of its last key. */
  ghost predicate Resolved<A(!new)>(rows: map<Id, Named<A>>, idMap: map<Id, Id>, items: seq<NamedItem<A>>, n: nat)
    requires n <= |items|
  {
    forall k {:trigger k in idMap} {:trigger LastKey(items, n, k)} ::
                (k in idMap <==> LastKey(items, n, k).Some?) &&
                (k in idMap ==>
                    Some(idMap[k]) == if k in rows then Some(k) else Owner(rows, LastKey(items, n, k).value))
  }

  /** The keys of existing rows never change: always when skipping, and when ids agree when overwriting. */
  ghost predicate KeysKept<A(!new)>(before: map<Id, Named<A>>, after: map<Id, Named<A>>) {
    forall i :: i in before ==> i in after && after[i].key == before[i].key
  }

  ghost predicate AgreesWith<A(!new)>(rows: map<Id, Named<A>>, x: NamedItem<A>) {
    x.id in rows ==> rows[x.id].key == x.row.key
  }

  lemma StepKeepsKeys<A(!new)>(p: Policy, s: NamedState<A>, x: NamedItem<A>)
    requires UniqueKeys(s.rows) && StepNamed(p, s, x).Ok?
    requires p.Skip? || AgreesWith(s.rows, x)
    ensures KeysKept(s.rows, StepNamed(p, s, x).value.rows)
    ensures UniqueKeys(StepNamed(p, s, x).value.rows)
    ensures forall i :: i in StepNamed(p, s, x).value.rows && i !in s.rows ==>
              i == x.id && StepNamed(p, s, x).value.rows[i] == x.row
  {
  }

  lemma OwnerKept<A(!new)>(before: map<Id, Named<A>>, after: map<Id, Named<A>>, key: string)
    requires UniqueKeys(before) && UniqueKeys(after) && KeysKept(before, after) && Owner(before, key).Some?
    ensures Owner(after, key) == Owner(before, key)
  {
    OwnerIs(after, Owner(before, key).value);
  }

  lemma StepResolves<A(!new)>(p: Policy, s: NamedState<A>, items: seq<NamedItem<A>>, n: nat)
    requires n < |items| && UniqueKeys(s.rows) && Resolved(s.rows, s.idMap, items, n)
    requires StepNamed(p, s, items[n]).Ok? && (p.Skip? || AgreesWith(s.rows, items[n]))
    ensures Resolved(StepNamed(p, s, items[n]).value.rows, StepNamed(p, s, items[n]).value.idMap, items, n + 1)
  {
    var x := items[n];
    var t := StepNamed(p, s, x).value;
    StepKeepsKeys(p, s, x);
    forall k
      ensures (k in t.idMap <==> LastKey(items, n + 1, k).Some?)
      ensures k in t.idMap ==>
          Some(t.idMap[k]) == if k in t.rows then Some(k) else Owner(t.rows, LastKey(items, n + 1, k).value)
    {
      if k == x.id {
        if k !in t.rows { OwnerKept(s.rows, t.rows, x.row.key); }
      } else if k in s.idMap && k !in s.rows {
        OwnerKept(s.rows, t.rows, LastKey(items, n, k).value);
      }
    }
  }

  /** One of the first `n` items has this id and key. */
  ghost predicate BroughtIn<A(!new)>(items: seq<NamedItem<A>>, n: nat, id: Id, key: string)
    requires n <= |items|
  {
    exists j :: 0 <= j < n && items[j].id == id && items[j].row.key == key
  }

  lemma BroughtInNext<A(!new)>(items: seq<NamedItem<A>>, n: nat, id: Id, key: string)
    requires n < |items|
    ensures BroughtIn(items, n, id, key) || (items[n].id == id && items[n].row.key == key) ==>
        BroughtIn(items, n + 1, id, key)
  {
    if BroughtIn(items, n, id, key) {
      var j :| 0 <= j < n && items[j].id == id && items[j].row.key == key;
    }
  }

  ghost predicate ResolveInv<A(!new)>(p: Policy, before: map<Id, Named<A>>, items: seq<NamedItem<A>>, n: nat,
      s: NamedState<A>) {
    && n <= |items| && UniqueKeys(s.rows) && Resolved(s.rows, s.idMap, items, n) && KeysKept(before, s.rows)
    && (forall i :: i in s.rows && i !in before ==> BroughtIn(items, n, i, s.rows[i].key))
  }

  lemma StepResolveInv<A(!new)>(p: Policy, before: map<Id, Named<A>>, items: seq<NamedItem<A>>, n: nat,
      s: NamedState<A>)
    requires n < |items| && ResolveInv(p, before, items, n, s) && StepNamed(p, s, items[n]).Ok?
    requires p.Skip? || IdsAgree(before, items)
    ensures p.Skip? || AgreesWith(s.rows, items[n])
    ensures ResolveInv(p, before, items, n + 1, StepNamed(p, s, items[n]).value)
  {
    var x := items[n];
    if p.Overwrite? && x.id in s.rows && x.id !in before {
      assert BroughtIn(items, n, x.id, s.rows[x.id].key);
      var j :| 0 <= j < n && items[j].id == x.id && items[j].row.key == s.rows[x.id].key;
    }
    StepKeepsKeys(p, s, x);
    StepResolves(p, s, items, n);
    var t := StepNamed(p, s, x).value;
    forall i | i in t.rows && i !in before ensures BroughtIn(items, n + 1, i, t.rows[i].key) {
      BroughtInNext(items, n, i, t.rows[i].key);
      assert i in s.rows ==> t.rows[i].key == s.rows[i].key;
    }
  }

  lemma MergeResolves<A(!new)>(p: Policy, rows: map<Id, Named<A>>, items: seq<NamedItem<A>>)
    requires UniqueKeys(rows) && MergeNamed(p, rows, items).Ok? && (p.Skip? || IdsAgree(rows, items))
    ensures ResolveInv(p, rows, items, |items|, MergeNamed(p, rows, items).value)
  {
    var step := NamedStep<A>(p);
    var inv := (n: nat, s: NamedState<A>) => ResolveInv(p, rows, items, n, s);
    assert inv(0, NamedState(rows, map[], 0, 0)) by {
      ResolveStart(p, rows, items);
    }
    forall n: nat, s | n < |items| && inv(n, s) && step(s, items[n]).Ok? ensures inv(n + 1, step(s, items[n]).value) {
      StepResolveInv(p, rows, items, n, s);
    }
    FoldInvariant(step, inv, NamedState(rows, map[], 0, 0), items);
  }

  lemma ResolveStart<A(!new)>(p: Policy, rows: map<Id, Named<A>>, items: seq<NamedItem<A>>)
    requires UniqueKeys(rows)
    ensures ResolveInv(p, rows, items, 0, NamedState(rows, map[], 0, 0))
  {
  }

  lemma {:induction false} LastKeyAgrees<A(!new)>(rows: map<Id, Named<A>>, items: seq<NamedItem<A>>, n: nat, i: nat)
    requires n <= |items| && i < n && IdsAgree(rows, items)
    ensures LastKey(items, n, items[i].id) == Some(items[i].row.key)
  {
    if items[n - 1].id != items[i].id {
      LastKeyAgrees(rows, items, n - 1, i);
    }
  }

  /** When ids agree, every bundle id is resolved to a row with its own key, under either policy. */
  lemma AgreementResolves<A(!new)>(p: Policy, rows: map<Id, Named<A>>, items: seq<NamedItem<A>>)
    requires UniqueKeys(rows) && IdsAgree(rows, items) && MergeNamed(p, rows, items).Ok?
    ensures ResolvedByKey(MergeNamed(p, rows, items).value, items)
  {
    MergeResolves(p, rows, items);
    var s := MergeNamed(p, rows, items).value;
    forall i | 0 <= i < |items|
      ensures items[i].id in s.idMap && s.idMap[items[i].id] in s.rows
      ensures s.rows[s.idMap[items[i].id]].key == items[i].row.key
    {
      var k := items[i].id;
      LastKeyAgrees(rows, items, |items|, i);
      assert k in s.idMap;
      if k in s.rows && k !in rows {
        assert BroughtIn(items, |items|, k, s.rows[k].key);
        var j :| 0 <= j < |items| && items[j].id == k && items[j].row.key == s.rows[k].key;
      }
    }
  }

  /** When skipping, agreement is also necessary. */
  lemma SkipResolvesIffAgree<A(!new)>(rows: map<Id, Named<A>>, items: seq<NamedItem<A>>)
    requires UniqueKeys(rows) && MergeNamed(Skip, rows, items).Ok?
    ensures ResolvedByKey(MergeNamed(Skip, rows, items).value, items) <==> IdsAgree(rows, items)
  {
    var s := MergeNamed(Skip, rows, items).value;
    MergeResolves(Skip, rows, items);
    if IdsAgree(rows, items) {
      AgreementResolves(Skip, rows, items);
    }
    if ResolvedByKey(s, items) {
      forall i | 0 <= i < |items| && items[i].id in rows ensures rows[items[i].id].key == items[i].row.key {
        assert s.idMap[items[i].id] == items[i].id;
      }
    }
  }

  // ---- Importing twice ----

  /** The key of every item seen is in the table, or its id is. */
  ghost predicate Present<A(!new)>(rows: map<Id, Named<A>>, items: seq<NamedItem<A>>, n: nat)
    requires n <= |items|
  {
    forall j :: 0 <= j < n ==> items[j].id in rows || Owner(rows, items[j].row.key).Some?
  }

  lemma StepPresent<A(!new)>(s: NamedState<A>, items: seq<NamedItem<A>>, n: nat)
    requires n < |items| && UniqueKeys(s.rows) && Present(s.rows, items, n)
    ensures Present(StepNamed(Skip, s, items[n]).value.rows, items, n + 1)
  {
    var x := items[n];
    var t := StepNamed(Skip, s, x).value;
    StepKeepsKeys(Skip, s, x);
    forall j | 0 <= j < n + 1 ensures items[j].id in t.rows || Owner(t.rows, items[j].row.key).Some? {
      if j < n && items[j].id !in s.rows {
        OwnerKept(s.rows, t.rows, items[j].row.key);
      } else if j == n && x.id !in s.rows && Owner(s.rows, x.row.key).Some? {
        OwnerKept(s.rows, t.rows, x.row.key);
      }
    }
  }

  lemma SkipPresents<A(!new)>(rows: map<Id, Named<A>>, items: seq<NamedItem<A>>)
    requires UniqueKeys(rows)
    ensures MergeNamed(Skip, rows, items).Ok?
    ensures var s := MergeNamed(Skip, rows, items).value; UniqueKeys(s.rows) && Present(s.rows, items, |items|)
  {
    var step := NamedStep<A>(Skip);
    var inv := (n: nat, s: NamedState<A>) => n <= |items| && UniqueKeys(s.rows) && Present(s.rows, items, n);
    forall n: nat, s | n < |items| && inv(n, s) ensures step(s, items[n]).Ok? && inv(n + 1, step(s, items[n]).value) {
      StepKeepsKeys(Skip, s, items[n]);
      StepPresent(s, items, n);
    }
    FoldSucceeds(step, inv, NamedState(rows, map[], 0, 0), items);
  }

  /** A merge that finds every item present and already as it should be. */
  ghost predicate Settled<A(!new)>(p: Policy, rows: map<Id, Named<A>>, x: NamedItem<A>) {
    var o := if x.id in rows then Some(x.id) else Owner(rows, x.row.key);
    && o.Some?
    && (p.Overwrite? ==> rows[o.value] == if x.id in rows then x.row else rows[o.value].(details := x.row.details))
  }

  lemma SettledStep<A(!new)>(p: Policy, s: NamedState<A>, x: NamedItem<A>)
    requires UniqueKeys(s.rows) && Settled(p, s.rows, x)
    ensures StepNamed(p, s, x).Ok?
    ensures var t := StepNamed(p, s, x).value;
            && t.rows == s.rows
            && t.imported == s.imported + (if p.Overwrite? then 1 else 0)
            && t.skipped == s.skipped + (if p.Skip? then 1 else 0)
  {
    if x.id in s.rows && p.Overwrite? {
      assert s.rows[x.id := x.row] == s.rows;
    }
  }

  lemma SettledMerge<A(!new)>(p: Policy, rows: map<Id, Named<A>>, items: seq<NamedItem<A>>)
    requires UniqueKeys(rows) && forall j :: 0 <= j < |items| ==> Settled(p, rows, items[j])
    requires p.Skip? || IdsAgree(rows, items)
    ensures MergeNamed(p, rows, items).Ok?
    ensures var s := MergeNamed(p, rows, items).value;
            && s.rows == rows && Resolved(rows, s.idMap, items, |items|)
            && s.imported == (if p.Overwrite? then |items| else 0)
            && s.skipped == (if p.Skip? then |items| else 0)
  {
    var step := NamedStep<A>(p);
    var inv := (n: nat, s: NamedState<A>) =>
      && n <= |items| && s.rows == rows && Resolved(rows, s.idMap, items, n)
      && s.imported == (if p.Overwrite? then n else 0) && s.skipped == (if p.Skip? then n else 0);
    forall n: nat, s | n < |items| && inv(n, s) ensures step(s, items[n]).Ok? && inv(n + 1, step(s, items[n]).value) {
      SettledStep(p, s, items[n]);
      StepResolves(p, s, items, n);
    }
    FoldSucceeds(step, inv, NamedState(rows, map[], 0, 0), items);
  }

  lemma ResolvedUnique<A(!new)>(rows: map<Id, Named<A>>, a: map<Id, Id>, b: map<Id, Id>, items: seq<NamedItem<A>>)
    requires Resolved(rows, a, items, |items|) && Resolved(rows, b, items, |items|)
    ensures a == b
  {
    forall k ensures (k in a <==> k in b) && (k in a ==> a[k] == b[k]) {
      assert k in a <==> LastKey(items, |items|, k).Some?;
    }
  }

  /** Skipping again finds everything present: same rows, same resolution, nothing imported. */
  lemma SkipTwice<A(!new)>(rows: map<Id, Named<A>>, items: seq<NamedItem<A>>)
    requires UniqueKeys(rows)
    ensures MergeNamed(Skip, rows, items).Ok?
    ensures var s := MergeNamed(Skip, rows, items).value;
            MergeNamed(Skip, s.rows, items) == Ok(NamedState(s.rows, s.idMap, 0, |items|))
  {
    SkipPresents(rows, items);
    MergeResolves(Skip, rows, items);
    var s := MergeNamed(Skip, rows, items).value;
    SettledMerge(Skip, s.rows, items);
    var t := MergeNamed(Skip, s.rows, items).value;
    ResolvedUnique(s.rows, s.idMap, t.idMap, items);
  }

  /** No two items share an id or a key. */
  predicate AllDistinct<A(!new)>(items: seq<NamedItem<A>>) {
    forall i, j :: 0 <= i < j < |items| ==> items[i].id != items[j].id && items[i].row.key != items[j].row.key
  }

  // ---- Importing into an empty table ----

  /** `items` lists the table once. */
  ghost predicate Enumerates<A(!new)>(rows: map<Id, Named<A>>, items: seq<NamedItem<A>>) {
    && (forall i, j :: 0 <= i < j < |items| ==> items[i].id != items[j].id)
    && (forall k :: k in rows <==> Seen(items, |items|, k))
    && (forall j :: 0 <= j < |items| ==> items[j].id in rows && items[j].row == rows[items[j].id])
  }

  /** The first `n` rows of the listing, each mapped to itself. */
  ghost predicate Copied<A(!new)>(rows: map<Id, Named<A>>, items: seq<NamedItem<A>>, n: nat, s: NamedState<A>) {
    && n <= |items| && s.imported == n && s.skipped == 0
    && s.rows.Keys == s.idMap.Keys
    && (forall k :: k in s.rows <==> Seen(items, n, k))
    && (forall k :: k in s.rows ==> k in rows && s.rows[k] == rows[k] && s.idMap[k] == k)
  }

  lemma StepCopied<A(!new)>(p: Policy, rows: map<Id, Named<A>>, items: seq<NamedItem<A>>, n: nat, s: NamedState<A>)
    requires n < |items| && UniqueKeys(rows) && Enumerates(rows, items) && Copied(rows, items, n, s)
    ensures StepNamed(p, s, items[n]).Ok? && Copied(rows, items, n + 1, StepNamed(p, s, items[n]).value)
  {
    NextIsNew(rows, items, n, s);
    OneMoreCopied(rows, items, n, s);
  }

  lemma OneMoreCopied<A(!new)>(rows: map<Id, Named<A>>, items: seq<NamedItem<A>>, n: nat, s: NamedState<A>)
    requires n < |items| && Enumerates(rows, items) && Copied(rows, items, n, s)
    ensures var x := items[n]; Copied(rows, items, n + 1,
        NamedState(s.rows[x.id := x.row], s.idMap[x.id := x.id], n + 1, 0))
  {
    var x := items[n];
    forall k ensures Seen(items, n + 1, k) <==> Seen(items, n, k) || k == x.id {
      SeenNext(items, n, k);
    }
  }

  lemma NextIsNew<A(!new)>(rows: map<Id, Named<A>>, items: seq<NamedItem<A>>, n: nat, s: NamedState<A>)
    requires n < |items| && UniqueKeys(rows) && Enumerates(rows, items) && Copied(rows, items, n, s)
    ensures items[n].id !in s.rows && items[n].id in rows && rows[items[n].id] == items[n].row
    ensures Owner(s.rows, items[n].row.key).None?
  {
    var x := items[n];
    assert x.id in s.rows ==> Seen(items, n, x.id);
    assert rows[x.id] == x.row;
  }

  lemma AllCopied<A(!new)>(rows: map<Id, Named<A>>, items: seq<NamedItem<A>>, s: NamedState<A>)
    requires Enumerates(rows, items) && Copied(rows, items, |items|, s)
    ensures s == NamedState(rows, Identity(rows.Keys), |items|, 0)
  {
    assert s.rows.Keys == rows.Keys;
    assert s.rows == rows;
    assert s.idMap == Identity(rows.Keys);
  }

  /** A listed table arrives in an empty one row for row, nothing skipped, every id mapped to itself. */
  lemma CopyNamed<A(!new)>(p: Policy, rows: map<Id, Named<A>>, items: seq<NamedItem<A>>)
    requires UniqueKeys(rows) && Enumerates(rows, items)
    ensures MergeNamed(p, map[], items) == Ok(NamedState(rows, Identity(rows.Keys), |items|, 0))
  {
    var step := NamedStep<A>(p);
    var inv := (n: nat, s: NamedState<A>) => Copied(rows, items, n, s);
    forall n: nat, s | n < |items| && inv(n, s) ensures step(s, items[n]).Ok? && inv(n + 1, step(s, items[n]).value) {
      StepCopied(p, rows, items, n, s);
    }
    FoldSucceeds(step, inv, NamedState(map[], map[], 0, 0), items);
    AllCopied(rows, items, MergeNamed(p, map[], items).value);
  }
}

/** Merging by id alone. `ok` is the table's constraints. */
module ByIdProofs {
  import opened Common
  import opened BundleMerge

  ghost predicate HasRow<R(!new)>(items: seq<ByIdItem<R>>, n: nat, id: Id, row: R)
    requires n <= |items|
  {
    exists j :: 0 <= j < n && items[j].id == id && items[j].row == Some(row)
  }

  ghost predicate ByIdInv<R(!new)>(p: Policy, ok: map<Id, R> -> bool, before: map<Id, R>, items: seq<ByIdItem<R>>,
      n: nat, s: ByIdState<R>) {
    && n <= |items| && s.imported + s.skipped == n && ok(s.rows)
    && before.Keys <= s.rows.Keys
    && (p.Skip? ==> forall i :: i in before ==> s.rows[i] == before[i])
    && (forall i :: i in s.rows ==> (i in before && s.rows[i] == before[i]) || HasRow(items, n, i, s.rows[i]))
    && (forall j :: 0 <= j < n && items[j].row.Some? ==> items[j].id in s.rows)
  }

  lemma HasRowMore<R(!new)>(items: seq<ByIdItem<R>>, n: nat, id: Id, row: R)
    requires n < |items| && HasRow(items, n, id, row)
    ensures HasRow(items, n + 1, id, row)
  {
    var j :| 0 <= j < n && items[j].id == id && items[j].row == Some(row);
  }

  lemma StepByIdInv<R(!new)>(p: Policy, ok: map<Id, R> -> bool, before: map<Id, R>, items: seq<ByIdItem<R>>, n: nat,
      s: ByIdState<R>)
    requires n < |items| && ByIdInv(p, ok, before, items, n, s) && StepById(p, ok, s, items[n]).Ok?
    ensures ByIdInv(p, ok, before, items, n + 1, StepById(p, ok, s, items[n]).value)
  {
    var t := StepById(p, ok, s, items[n]).value;
    forall i | i in t.rows ensures (i in before && t.rows[i] == before[i]) || HasRow(items, n + 1, i, t.rows[i]) {
      if i in s.rows && t.rows[i] == s.rows[i] {
        if !(i in before && s.rows[i] == before[i]) { HasRowMore(items, n, i, s.rows[i]); }
      } else {
        assert items[n].id == i && items[n].row == Some(t.rows[i]);
      }
    }
  }

  /** Merging keeps the constraints, deletes nothing, counts every item once, changes nothing that was there
      when skipping, and puts in only the bundle's rows. */
  lemma MergeByIdKeeps<R(!new)>(p: Policy, ok: map<Id, R> -> bool, rows: map<Id, R>, items: seq<ByIdItem<R>>)
    requires ok(rows) && MergeById(p, ok, rows, items).Ok?
    ensures ByIdInv(p, ok, rows, items, |items|, MergeById(p, ok, rows, items).value)
  {
    var step := ByIdStep<R>(p, ok);
    var inv := (n: nat, s: ByIdState<R>) => ByIdInv(p, ok, rows, items, n, s);
    forall n: nat, s | n < |items| && inv(n, s) && step(s, items[n]).Ok? ensures inv(n + 1, step(s, items[n]).value) {
      StepByIdInv(p, ok, rows, items, n, s);
    }
    FoldInvariant(step, inv, ByIdState(rows, 0, 0), items);
  }

  /** Items that are not passed over. */
  function Live<R>(items: seq<ByIdItem<R>>): nat {
    if items == [] then 0 else Live(items[..|items| - 1]) + if items[|items| - 1].row.Some? then 1 else 0
  }

  /** Skipping imports exactly the rows that were not there; overwriting imports every item that is not passed over. */
  lemma MergeByIdCounts<R(!new)>(p: Policy, ok: map<Id, R> -> bool, rows: map<Id, R>, items: seq<ByIdItem<R>>)
    requires MergeById(p, ok, rows, items).Ok?
    ensures var s := MergeById(p, ok, rows, items).value;
            if p.Skip? then s.imported == |s.rows| - |rows| else s.imported == Live(items)
  {
    var step := ByIdStep<R>(p, ok);
    var inv := (n: nat, s: ByIdState<R>) => CountedById(p, rows, items, n, s);
    var start := ByIdState(rows, 0, 0);
    assert items[..0] == [] && items[..|items|] == items;
    assert CountedById(p, rows, items, 0, start);
    forall n: nat, s | n < |items| && inv(n, s) && step(s, items[n]).Ok? ensures inv(n + 1, step(s, items[n]).value) {
      var x := items[n];
      assert x.row.Some? && x.id !in s.rows ==> |s.rows[x.id := x.row.value]| == |s.rows| + 1;
      assert items[..n + 1][..n] == items[..n];
      assert CountedById(p, rows, items, n + 1, step(s, items[n]).value);
    }
    FoldInvariant(step, inv, start, items);
  }

  ghost predicate CountedById<R(!new)>(p: Policy, rows: map<Id, R>, items: seq<ByIdItem<R>>, n: nat, s: ByIdState<R>) {
    n <= |items| && if p.Skip? then s.imported == |s.rows| - |rows| else s.imported == Live(items[..n])
  }

  predicate DistinctIds<R(!new)>(items: seq<ByIdItem<R>>) {
    forall i, j :: 0 <= i < j < |items| ==> items[i].id != items[j].id
  }

  ghost predicate Written<R(!new)>(before: map<Id, R>, items: seq<ByIdItem<R>>, n: nat, s: ByIdState<R>) {
    && n <= |items|
    && (forall j :: 0 <= j < n && items[j].row.Some? ==>
        items[j].id in s.rows && s.rows[items[j].id] == items[j].row.value)
  }

  /** Overwriting with distinct ids leaves exactly each item's row under its id. */
  lemma OverwriteWrites<R(!new)>(ok: map<Id, R> -> bool, rows: map<Id, R>, items: seq<ByIdItem<R>>)
    requires DistinctIds(items) && MergeById(Overwrite, ok, rows, items).Ok?
    ensures Written(rows, items, |items|, MergeById(Overwrite, ok, rows, items).value)
  {
    var step := ByIdStep<R>(Overwrite, ok);
    var inv := (n: nat, s: ByIdState<R>) => Written(rows, items, n, s);
    FoldInvariant(step, inv, ByIdState(rows, 0, 0), items);
  }

  /** What a second run finds: nothing left to do. */
  ghost predicate Done<R>(p: Policy, rows: map<Id, R>, x: ByIdItem<R>) {
    x.row.Some? ==> x.id in rows && (p.Overwrite? ==> rows[x.id] == x.row.value)
  }

  lemma DoneMerge<R(!new)>(p: Policy, ok: map<Id, R> -> bool, rows: map<Id, R>, items: seq<ByIdItem<R>>)
    requires ok(rows) && forall j :: 0 <= j < |items| ==> Done(p, rows, items[j])
    ensures MergeById(p, ok, rows, items).Ok? && MergeById(p, ok, rows, items).value.rows == rows
    ensures p.Skip? ==> MergeById(p, ok, rows, items).value == ByIdState(rows, 0, |items|)
  {
    var step := ByIdStep<R>(p, ok);
    var inv := (n: nat, s: ByIdState<R>) => n <= |items| && s.rows == rows && (p.Skip? ==> s == ByIdState(rows, 0, n));
    forall n: nat, s | n < |items| && inv(n, s) ensures step(s, items[n]).Ok? && inv(n + 1, step(s, items[n]).value) {
      assert Done(p, rows, items[n]);
      if p.Overwrite? && items[n].row.Some? {
        assert rows[items[n].id := items[n].row.value] == rows;
      }
    }
    FoldSucceeds(step, inv, ByIdState(rows, 0, 0), items);
  }

  lemma ByIdSkipTwice<R(!new)>(ok: map<Id, R> -> bool, rows: map<Id, R>, items: seq<ByIdItem<R>>)
    requires ok(rows) && MergeById(Skip, ok, rows, items).Ok?
    ensures var s := MergeById(Skip, ok, rows, items).value;
            MergeById(Skip, ok, s.rows, items) == Ok(ByIdState(s.rows, 0, |items|))
  {
    MergeByIdKeeps(Skip, ok, rows, items);
    DoneMerge(Skip, ok, MergeById(Skip, ok, rows, items).value.rows, items);
  }

  lemma ByIdOverwriteTwice<R(!new)>(ok: map<Id, R> -> bool, rows: map<Id, R>, items: seq<ByIdItem<R>>)
    requires ok(rows) && DistinctIds(items) && MergeById(Overwrite, ok, rows, items).Ok?
    ensures var s := MergeById(Overwrite, ok, rows, items).value;
            var again := MergeById(Overwrite, ok, s.rows, items);
            again.Ok? && again.value.rows == s.rows
  {
    MergeByIdKeeps(Overwrite, ok, rows, items);
    OverwriteWrites(ok, rows, items);
    DoneMerge(Overwrite, ok, MergeById(Overwrite, ok, rows, items).value.rows, items);
  }

  ghost predicate Enumerates<R(!new)>(rows: map<Id, R>, items: seq<ByIdItem<R>>) {
    && DistinctIds(items)
    && (forall k :: k in rows <==> Seen(items, |items|, k))
    && (forall j :: 0 <= j < |items| ==> items[j].id in rows && items[j].row == Some(rows[items[j].id]))
  }

  /** The constraints hold of any part of a table of which they hold. */
  ghost predicate Hereditary<R(!new)>(ok: map<Id, R> -> bool) {
    forall a, b :: ok(b) && (forall i :: i in a ==> i in b && a[i] == b[i]) ==> ok(a)
  }

  ghost predicate Copied<R(!new)>(rows: map<Id, R>, items: seq<ByIdItem<R>>, n: nat, s: ByIdState<R>) {
    && n <= |items| && s.imported == n && s.skipped == 0
    && (forall k :: k in s.rows <==> Seen(items, n, k))
    && (forall k :: k in s.rows ==> k in rows && s.rows[k] == rows[k])
  }

  ghost predicate Seen<R(!new)>(items: seq<ByIdItem<R>>, n: nat, k: Id)
    requires n <= |items|
  {
    exists j :: 0 <= j < n && items[j].id == k
  }

  lemma SeenNext<R(!new)>(items: seq<ByIdItem<R>>, n: nat, k: Id)
    requires n < |items|
    ensures Seen(items, n + 1, k) <==> Seen(items, n, k) || items[n].id == k
  {
    if Seen(items, n, k) {
      var j :| 0 <= j < n && items[j].id == k;
    }
  }

  lemma StepCopied<R(!new)>(p: Policy, ok: map<Id, R> -> bool, rows: map<Id, R>, items: seq<ByIdItem<R>>, n: nat,
      s: ByIdState<R>)
    requires n < |items| && ok(rows) && Hereditary(ok) && Enumerates(rows, items) && Copied(rows, items, n, s)
    ensures StepById(p, ok, s, items[n]).Ok? && Copied(rows, items, n + 1, StepById(p, ok, s, items[n]).value)
  {
    var x := items[n];
    assert x.id !in s.rows;
    var next := s.rows[x.id := x.row.value];
    assert forall i :: i in next ==> i in rows && next[i] == rows[i];
    forall k ensures k in next <==> Seen(items, n + 1, k) {
      SeenNext(items, n, k);
    }
  }

  lemma AllCopied<R(!new)>(rows: map<Id, R>, items: seq<ByIdItem<R>>, s: ByIdState<R>)
    requires Enumerates(rows, items) && Copied(rows, items, |items|, s)
    ensures s == ByIdState(rows, |items|, 0)
  {
    forall k ensures k in s.rows <==> k in rows {
      assert k in rows <==> Seen(items, |items|, k);
    }
  }

  /** A listed table arrives in an empty one row for row. */
  lemma CopyById<R(!new)>(p: Policy, ok: map<Id, R> -> bool, rows: map<Id, R>, items: seq<ByIdItem<R>>)
    requires ok(rows) && Hereditary(ok) && Enumerates(rows, items)
    ensures MergeById(p, ok, map[], items) == Ok(ByIdState(rows, |items|, 0))
  {
    var step := ByIdStep<R>(p, ok);
    var inv := (n: nat, s: ByIdState<R>) => Copied(rows, items, n, s);
    forall n: nat, s | n < |items| && inv(n, s) ensures step(s, items[n]).Ok? && inv(n + 1, step(s, items[n]).value) {
      StepCopied(p, ok, rows, items, n, s);
    }
    FoldSucceeds(step, inv, ByIdState(map[], 0, 0), items);
    AllCopied(rows, items, MergeById(p, ok, map[], items).value);
  }
}

/** Tables always upserted: the last item of a key decides. */
module PutProofs {
  import opened Common
  import opened BundleMerge

  ghost function LastSoft<K(!new), F(!new), S(!new)>(items: seq<PutItem<K, F, S>>, n: nat, k: K): Option<S>
    requires n <= |items|
  {
    if n == 0 then None
    else if items[n - 1].key == k then Some(items[n - 1].slot.soft)
    else LastSoft(items, n - 1, k)
  }

  ghost predicate PutInv<K(!new), F(!new), S(!new)>(ok: map<K, Slot<F, S>> -> bool, before: map<K, Slot<F, S>>,
      items: seq<PutItem<K, F, S>>, n: nat, rows: map<K, Slot<F, S>>) {
    && n <= |items| && ok(rows)
    && (forall k :: k in rows <==> k in before || LastSoft(items, n, k).Some?)
    && (forall k :: k in before ==> rows[k].fixed == before[k].fixed)
    && (forall k :: k in rows ==>
        rows[k].soft == (match LastSoft(items, n, k) case Some(v) => v case None => before[k].soft))
  }

  /** Every key holds its last item's content, and what it held before if it has none. */
  lemma PutAllKeeps<K(!new), F(!new), S(!new)>(ok: map<K, Slot<F, S>> -> bool, rows: map<K, Slot<F, S>>,
      items: seq<PutItem<K, F, S>>)
    requires ok(rows) && PutAll(ok, rows, items).Ok?
    ensures PutInv(ok, rows, items, |items|, PutAll(ok, rows, items).value)
  {
    var step := PutStep<K, F, S>(ok);
    var inv := (n: nat, r: map<K, Slot<F, S>>) => PutInv(ok, rows, items, n, r);
    forall n: nat, r | n < |items| && inv(n, r) && step(r, items[n]).Ok? ensures inv(n + 1, step(r, items[n]).value) {
      assert step(r, items[n]).value == Put(r, items[n]);
    }
    FoldInvariant(step, inv, rows, items);
  }

  ghost predicate SameFixed<K(!new), F(!new), S(!new)>(a: map<K, Slot<F, S>>, b: map<K, Slot<F, S>>) {
    a.Keys == b.Keys && forall k :: k in a ==> a[k].fixed == b[k].fixed
  }

  /** The constraints look at keys and fixed columns only. */
  ghost predicate IgnoresSoft<K(!new), F(!new), S(!new)>(ok: map<K, Slot<F, S>> -> bool) {
    forall a, b :: SameFixed(a, b) ==> ok(a) == ok(b)
  }

  /** Upserting the same items again changes nothing. */
  lemma PutTwice<K(!new), F(!new), S(!new)>(ok: map<K, Slot<F, S>> -> bool, rows: map<K, Slot<F, S>>,
      items: seq<PutItem<K, F, S>>)
    requires ok(rows) && IgnoresSoft(ok) && PutAll(ok, rows, items).Ok?
    ensures var after := PutAll(ok, rows, items).value; PutAll(ok, after, items) == Ok(after)
  {
    PutAllKeeps(ok, rows, items);
    var after := PutAll(ok, rows, items).value;
    var step := PutStep<K, F, S>(ok);
    var inv := (n: nat, r: map<K, Slot<F, S>>) => PutInv(ok, after, items, n, r) && SameFixed(after, r);
    forall n: nat, r | n < |items| && inv(n, r) ensures step(r, items[n]).Ok? && inv(n + 1, step(r, items[n]).value) {
      LastSoftOf(items, |items|, n);
      assert items[n].key in after;
      assert SameFixed(after, Put(r, items[n]));
      assert ok(after) == ok(Put(r, items[n]));
      assert step(r, items[n]) == Ok(Put(r, items[n]));
    }
    FoldSucceeds(step, inv, after, items);
    var again := PutAll(ok, after, items).value;
    assert again == after;
  }

  lemma {:induction false} LastSoftOf<K(!new), F(!new), S(!new)>(items: seq<PutItem<K, F, S>>, n: nat, i: nat)
    requires i < n <= |items|
    ensures LastSoft(items, n, items[i].key).Some?
  {
    if items[n - 1].key != items[i].key {
      LastSoftOf(items, n - 1, i);
    }
  }

  ghost predicate Enumerates<K(!new), F(!new), S(!new)>(rows: map<K, Slot<F, S>>, items: seq<PutItem<K, F, S>>) {
    && (forall i, j :: 0 <= i < j < |items| ==> items[i].key != items[j].key)
    && (forall k :: k in rows <==> exists j :: 0 <= j < |items| && items[j].key == k)
    && (forall j :: 0 <= j < |items| ==> items[j].key in rows && items[j].slot == rows[items[j].key])
  }

  ghost predicate Hereditary<K(!new), F(!new), S(!new)>(ok: map<K, Slot<F, S>> -> bool) {
    forall a, b :: ok(b) && (forall i :: i in a ==> i in b && a[i] == b[i]) ==> ok(a)
  }

  ghost predicate Copied<K(!new), F(!new), S(!new)>(rows: map<K, Slot<F, S>>, items: seq<PutItem<K, F, S>>, n: nat,
      r: map<K, Slot<F, S>>) {
    && n <= |items|
    && (forall k :: k in r <==> exists j :: 0 <= j < n && items[j].key == k)
    && (forall k :: k in r ==> k in rows && r[k] == rows[k])
  }

  lemma StepCopied<K(!new), F(!new), S(!new)>(ok: map<K, Slot<F, S>> -> bool, rows: map<K, Slot<F, S>>,
      items: seq<PutItem<K, F, S>>, n: nat, r: map<K, Slot<F, S>>)
    requires n < |items| && ok(rows) && Hereditary(ok) && Enumerates(rows, items) && Copied(rows, items, n, r)
    ensures StepPut(ok, r, items[n]) == Ok(Put(r, items[n])) && Copied(rows, items, n + 1, Put(r, items[n]))
  {
    var x := items[n];
    assert x.key !in r;
    var next := Put(r, x);
    assert forall i :: i in next ==> i in rows && next[i] == rows[i];
    forall k ensures k in next <==> exists j :: 0 <= j < n + 1 && items[j].key == k {
      if k in r {
        var j :| 0 <= j < n && items[j].key == k;
      }
      if j :| 0 <= j < n + 1 && items[j].key == k {
        assert j < n ==> k in r;
      }
    }
  }

  lemma CopyPut<K(!new), F(!new), S(!new)>(ok: map<K, Slot<F, S>> -> bool, rows: map<K, Slot<F, S>>,
      items: seq<PutItem<K, F, S>>)
    requires ok(rows) && Hereditary(ok) && Enumerates(rows, items)
    ensures PutAll(ok, map[], items) == Ok(rows)
  {
    var step := PutStep<K, F, S>(ok);
    var inv := (n: nat, r: map<K, Slot<F, S>>) => Copied(rows, items, n, r);
    forall n: nat, r | n < |items| && inv(n, r) ensures step(r, items[n]).Ok? && inv(n + 1, step(r, items[n]).value) {
      StepCopied(ok, rows, items, n, r);
    }
    FoldSucceeds(step, inv, map[], items);
    assert PutAll(ok, map[], items).value == rows;
  }
}
