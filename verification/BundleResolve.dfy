/** Overwriting with repeated ids and keys: exactly when every item keeps its key. */
module ResolveProofs {
  import opened Common
  import opened BundleMerge
  import opened NamedProofs
  import OverwriteProofs

  /** Items with one id have one key. */
  ghost predicate KeysAgree<A(!new)>(items: seq<NamedItem<A>>) {
    forall i, j :: 0 <= i < |items| && 0 <= j < |items| && items[i].id == items[j].id ==>
      items[i].row.key == items[j].row.key
  }

  /** The id of item `i` is new and its key is that of the old row with the id of item `j`, which stands in the list
      only after all items with the former id, and gives that row another key. */
  ghost predicate RenamedLater<A(!new)>(before: map<Id, Named<A>>, items: seq<NamedItem<A>>, i: nat, j: nat)
    requires i < |items| && j < |items|
  {
    && items[i].id !in before && items[j].id in before
    && before[items[j].id].key == items[i].row.key && items[j].row.key != items[i].row.key
    && forall k, l ::
         0 <= k < |items| && 0 <= l < |items| && items[k].id == items[i].id && items[l].id == items[j].id ==> k < l
  }

  ghost predicate NoneRenamedLater<A(!new)>(before: map<Id, Named<A>>, items: seq<NamedItem<A>>) {
    forall i, j {:trigger RenamedLater(before, items, i, j)} :: 0 <= i < |items| && 0 <= j < |items| ==>
      !RenamedLater(before, items, i, j)
  }

  // ---- What becomes of each id, `key` giving the items' keys ----

  predicate KeyedBy<A(!new)>(items: seq<NamedItem<A>>, key: Id -> string) {
    forall j :: 0 <= j < |items| ==> items[j].row.key == key(items[j].id)
  }

  /** A row has the key of the items with its id, or else the one it had. */
  ghost predicate KeyAt<A(!new)>(before: map<Id, Named<A>>, items: seq<NamedItem<A>>, key: Id -> string, n: nat,
      rows: map<Id, Named<A>>, r: Id)
    requires n <= |items|
  {
    r in rows ==> if Seen(items, n, r) then rows[r].key == key(r) else r in before && rows[r].key == before[r].key
  }

  /** No old row that no item had reached by id had the key. */
  ghost predicate KeyFree<A(!new)>(before: map<Id, Named<A>>, items: seq<NamedItem<A>>, n: nat, key: string)
    requires n <= |items|
  {
    forall o :: o in before && before[o].key == key ==> Seen(items, n, o)
  }

  /** A new row was inserted at some item, its key being free. */
  ghost predicate Inserted<A(!new)>(before: map<Id, Named<A>>, items: seq<NamedItem<A>>, key: Id -> string, n: nat,
      x: Id)
    requires n <= |items|
  {
    exists i :: 0 <= i < n && items[i].id == x && KeyFree(before, items, i, key(x))
  }

  ghost predicate IsLast<A(!new)>(items: seq<NamedItem<A>>, n: nat, i: nat, x: Id)
    requires n <= |items|
  {
    i < n && items[i].id == x && forall k :: i < k < n ==> items[k].id != x
  }

  /** At item `i`, `o` was the row with the key of `x`. */
  ghost predicate OwnedAt<A(!new)>(before: map<Id, Named<A>>, items: seq<NamedItem<A>>, key: Id -> string, i: nat,
      o: Id, x: Id)
    requires i <= |items|
  {
    && (if Seen(items, i, o) then key(o) == key(x) else o in before && before[o].key == key(x))
    && forall r :: r in before && before[r].key == key(x) && !Seen(items, i, r) ==> r == o
  }

  /** The id has its own row, or was last mapped to the row that then had its key. */
  ghost predicate MappedAt<A(!new)>(before: map<Id, Named<A>>, items: seq<NamedItem<A>>, key: Id -> string, n: nat,
      s: NamedState<A>, x: Id)
    requires n <= |items|
  {
    && x in s.idMap && s.idMap[x] in s.rows
    && if x in s.rows then s.idMap[x] == x && (x !in before ==> Inserted(before, items, key, n, x))
       else exists i :: 0 <= i < n && IsLast(items, n, i, x) && OwnedAt(before, items, key, i, s.idMap[x], x)
  }

  ghost predicate ResolvingInv<A(!new)>(before: map<Id, Named<A>>, items: seq<NamedItem<A>>, key: Id -> string, n: nat,
      s: NamedState<A>) {
    && n <= |items| && UniqueKeys(s.rows) && before.Keys <= s.rows.Keys
    && (forall r {:trigger KeyAt(before, items, key, n, s.rows, r)} :: KeyAt(before, items, key, n, s.rows, r))
    && (forall x {:trigger MappedAt(before, items, key, n, s, x)} ::
          Seen(items, n, x) ==> MappedAt(before, items, key, n, s, x))
  }

  lemma StepKeys<A(!new)>(before: map<Id, Named<A>>, items: seq<NamedItem<A>>, key: Id -> string, n: nat,
      s: NamedState<A>, r: Id)
    requires n < |items| && KeyedBy(items, key) && ResolvingInv(before, items, key, n, s)
    requires StepNamed(Overwrite, s, items[n]).Ok?
    ensures KeyAt(before, items, key, n + 1, StepNamed(Overwrite, s, items[n]).value.rows, r)
  {
    SeenNext(items, n, r);
    assert KeyAt(before, items, key, n, s.rows, r);
  }

  /** Another id than the item's. */
  lemma StepOther<A(!new)>(before: map<Id, Named<A>>, items: seq<NamedItem<A>>, key: Id -> string, n: nat,
      s: NamedState<A>, x: Id)
    requires n < |items| && items[n].id != x && MappedAt(before, items, key, n, s, x)
    requires StepNamed(Overwrite, s, items[n]).Ok?
    ensures MappedAt(before, items, key, n + 1, StepNamed(Overwrite, s, items[n]).value, x)
  {
    if x in s.rows {
      if x !in before {
        var i :| 0 <= i < n && items[i].id == x && KeyFree(before, items, i, key(x));
      }
    } else {
      var i :| 0 <= i < n && IsLast(items, n, i, x) && OwnedAt(before, items, key, i, s.idMap[x], x);
      assert IsLast(items, n + 1, i, x);
    }
  }

  /** The item's own id. */
  lemma StepOwn<A(!new)>(before: map<Id, Named<A>>, items: seq<NamedItem<A>>, key: Id -> string, n: nat,
      s: NamedState<A>)
    requires n < |items| && KeyedBy(items, key) && ResolvingInv(before, items, key, n, s)
    requires StepNamed(Overwrite, s, items[n]).Ok?
    ensures MappedAt(before, items, key, n + 1, StepNamed(Overwrite, s, items[n]).value, items[n].id)
  {
    var x := items[n];
    assert IsLast(items, n + 1, n, x.id);
    forall r | r in before ensures KeyAt(before, items, key, n, s.rows, r) {}
    if x.id in s.rows {
      if x.id !in before {
        assert KeyAt(before, items, key, n, s.rows, x.id);
        assert MappedAt(before, items, key, n, s, x.id);
        var i :| 0 <= i < n && items[i].id == x.id && KeyFree(before, items, i, key(x.id));
      }
    } else {
      match Owner(s.rows, x.row.key)
      case Some(o) =>
        assert KeyAt(before, items, key, n, s.rows, o);
        assert OwnedAt(before, items, key, n, o, x.id);
      case None =>
        assert KeyFree(before, items, n, key(x.id));
    }
  }

  lemma StepResolving<A(!new)>(before: map<Id, Named<A>>, items: seq<NamedItem<A>>, key: Id -> string, n: nat,
      s: NamedState<A>)
    requires n < |items| && KeyedBy(items, key) && ResolvingInv(before, items, key, n, s)
    requires StepNamed(Overwrite, s, items[n]).Ok?
    ensures ResolvingInv(before, items, key, n + 1, StepNamed(Overwrite, s, items[n]).value)
  {
    var t, m := StepNamed(Overwrite, s, items[n]).value, n + 1;
    StepKeepsUnique(Overwrite, s, items[n]);
    forall r ensures KeyAt(before, items, key, m, t.rows, r) {
      StepKeys(before, items, key, n, s, r);
    }
    forall x | Seen(items, m, x) ensures MappedAt(before, items, key, m, t, x) {
      SeenNext(items, n, x);
      if x == items[n].id {
        StepOwn(before, items, key, n, s);
      } else {
        StepOther(before, items, key, n, s, x);
      }
    }
  }

  lemma EndsResolving<A(!new)>(before: map<Id, Named<A>>, items: seq<NamedItem<A>>, key: Id -> string)
    requires UniqueKeys(before) && KeyedBy(items, key) && MergeNamed(Overwrite, before, items).Ok?
    ensures ResolvingInv(before, items, key, |items|, MergeNamed(Overwrite, before, items).value)
  {
    var step := NamedStep<A>(Overwrite);
    var inv := (n: nat, s: NamedState<A>) => ResolvingInv(before, items, key, n, s);
    forall n: nat, s | n < |items| && inv(n, s) && step(s, items[n]).Ok? ensures inv(n + 1, step(s, items[n]).value) {
      StepResolving(before, items, key, n, s);
    }
    FoldInvariant(step, inv, NamedState(before, map[], 0, 0), items);
  }

  // ---- The condition ----

  lemma IdResolves<A(!new)>(before: map<Id, Named<A>>, items: seq<NamedItem<A>>, key: Id -> string, s: NamedState<A>,
      x: Id)
    requires KeyedBy(items, key) && ResolvingInv(before, items, key, |items|, s) && NoneRenamedLater(before, items)
    requires Seen(items, |items|, x)
    ensures x in s.idMap && s.idMap[x] in s.rows && s.rows[s.idMap[x]].key == key(x)
  {
    assert MappedAt(before, items, key, |items|, s, x);
    var o := s.idMap[x];
    assert KeyAt(before, items, key, |items|, s.rows, o);
    if x !in s.rows {
      var i :| 0 <= i < |items| && IsLast(items, |items|, i, x) && OwnedAt(before, items, key, i, o, x);
      if !Seen(items, i, o) && Seen(items, |items|, o) {
        var j :| 0 <= j < |items| && items[j].id == o;
        assert !RenamedLater(before, items, i, j);
      }
    }
  }

  lemma RenamedLoses<A(!new)>(before: map<Id, Named<A>>, items: seq<NamedItem<A>>, key: Id -> string, s: NamedState<A>,
      i: nat, j: nat)
    requires KeyedBy(items, key) && ResolvingInv(before, items, key, |items|, s)
    requires i < |items| && j < |items| && RenamedLater(before, items, i, j)
    ensures !ResolvedByKey(s, items)
  {
    var x, o := items[i].id, items[j].id;
    assert Seen(items, |items|, x) && Seen(items, |items|, o);
    assert MappedAt(before, items, key, |items|, s, x) && KeyAt(before, items, key, |items|, s.rows, o);
    var k :| 0 <= k < |items| && IsLast(items, |items|, k, x) && OwnedAt(before, items, key, k, s.idMap[x], x);
    assert !Seen(items, k, o);
  }

  /** After overwriting, every bundle id is mapped to a row with its items' key exactly when items with one id have
      one key, and no new id has the key of an old row that only later items rename. */
  lemma OverwriteResolvesIff<A(!new)>(before: map<Id, Named<A>>, items: seq<NamedItem<A>>)
    requires UniqueKeys(before) && MergeNamed(Overwrite, before, items).Ok?
    ensures ResolvedByKey(MergeNamed(Overwrite, before, items).value, items) <==>
        KeysAgree(items) && NoneRenamedLater(before, items)
  {
    var s := MergeNamed(Overwrite, before, items).value;
    if KeysAgree(items) {
      var key := (k: Id) => match LastKey(items, |items|, k) case Some(t) => t case None => "";
      forall j | 0 <= j < |items| ensures items[j].row.key == key(items[j].id) {
        LastKeyAgrees(map[], items, |items|, j);
      }
      EndsResolving(before, items, key);
      if NoneRenamedLater(before, items) {
        forall i | 0 <= i < |items|
          ensures items[i].id in s.idMap && s.idMap[items[i].id] in s.rows
          ensures s.rows[s.idMap[items[i].id]].key == items[i].row.key
        {
          IdResolves(before, items, key, s, items[i].id);
        }
      } else {
        var i, j :| 0 <= i < |items| && 0 <= j < |items| && RenamedLater(before, items, i, j);
        RenamedLoses(before, items, key, s, i, j);
      }
    }
  }

  /** For items with distinct ids and keys this is that no item is merged by key into a row that a later one renames. */
  lemma DistinctUntangledIff<A(!new)>(before: map<Id, Named<A>>, items: seq<NamedItem<A>>)
    requires AllDistinct(items)
    ensures KeysAgree(items) && NoneRenamedLater(before, items) <==> OverwriteProofs.Untangled(before, items)
  {
    forall i, j | 0 <= i < |items| && 0 <= j < |items|
      ensures RenamedLater(before, items, i, j) <==> OverwriteProofs.Tangled(before, items, i, j)
    {
    }
  }
}
