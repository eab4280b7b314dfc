/** Overwriting by id or natural key: exactly when every item keeps its key, and when doing it twice changes nothing. */
module OverwriteProofs {
  import opened Common
  import opened BundleMerge
  import opened NamedProofs

  /** Item `i` is merged by key into the row that a later item `j` takes for its own by id and renames. */
  ghost predicate Tangled<A(!new)>(before: map<Id, Named<A>>, items: seq<NamedItem<A>>, i: nat, j: nat)
    requires i < |items| && j < |items|
  {
    i < j && items[i].id !in before && items[j].id in before && before[items[j].id].key == items[i].row.key
  }

  /** No item is merged by key into a row that a later item renames. */
  ghost predicate Untangled<A(!new)>(before: map<Id, Named<A>>, items: seq<NamedItem<A>>) {
    forall i, j {:trigger Tangled(before, items, i, j)} :: 0 <= i < |items| && 0 <= j < |items| ==>
        !Tangled(before, items, i, j)
  }

  // ---- What becomes of each item ----

  /** The rows after `n` items: old ids and item ids; old rows not reached by id keep their key. */
  ghost predicate RowsInv<A(!new)>(before: map<Id, Named<A>>, items: seq<NamedItem<A>>, n: nat, s: NamedState<A>) {
    && n <= |items| && UniqueKeys(s.rows)
    && (forall k :: k in s.rows ==> k in before || Seen(items, n, k))
    && (forall k :: k in before ==> k in s.rows)
    && (forall k :: k in before && !Seen(items, n, k) ==> s.rows[k].key == before[k].key)
  }

  /** Item `j` has its own row; it was merged by key only if no row was there for it. */
  ghost predicate OwnRow<A(!new)>(before: map<Id, Named<A>>, items: seq<NamedItem<A>>, s: NamedState<A>, j: nat)
    requires j < |items|
  {
    var x := items[j];
    && x.id in s.rows && s.rows[x.id] == x.row && x.id in s.idMap && s.idMap[x.id] == x.id
    && (x.id in before || forall k :: k in before && before[k].key == x.row.key ==> Seen(items, j, k))
  }

  /** Item `j` was merged into an old row that no earlier item reached by id; it shows there until a later one does. */
  ghost predicate MergedRow<A(!new)>(before: map<Id, Named<A>>, items: seq<NamedItem<A>>, n: nat, s: NamedState<A>,
      j: nat)
    requires j < |items| && n <= |items|
  {
    var x := items[j];
    && x.id !in s.rows && x.id in s.idMap
    && var o := s.idMap[x.id];
       && o in before && o in s.rows && before[o].key == x.row.key && !Seen(items, j, o)
       && (!Seen(items, n, o) ==> s.rows[o].details == x.row.details)
  }

  ghost predicate ItemsInv<A(!new)>(before: map<Id, Named<A>>, items: seq<NamedItem<A>>, n: nat, s: NamedState<A>)
    requires n <= |items|
  {
    forall j {:trigger OwnRow(before, items, s, j)} {:trigger MergedRow(before, items, n, s, j)} :: 0 <= j < n ==>
      OwnRow(before, items, s, j) || MergedRow(before, items, n, s, j)
  }

  lemma NotSeenYet<A(!new)>(items: seq<NamedItem<A>>, n: nat)
    requires n < |items| && AllDistinct(items)
    ensures !Seen(items, n, items[n].id)
  {
  }

  lemma StepRows<A(!new)>(before: map<Id, Named<A>>, items: seq<NamedItem<A>>, n: nat, s: NamedState<A>)
    requires n < |items| && AllDistinct(items) && RowsInv(before, items, n, s) && StepNamed(Overwrite, s, items[n]).Ok?
    ensures RowsInv(before, items, n + 1, StepNamed(Overwrite, s, items[n]).value)
  {
    var t := StepNamed(Overwrite, s, items[n]).value;
    StepKeepsUnique(Overwrite, s, items[n]);
    forall k ensures Seen(items, n + 1, k) <==> Seen(items, n, k) || k == items[n].id {
      SeenNext(items, n, k);
    }
  }

  /** The item just merged. */
  lemma StepNewItem<A(!new)>(before: map<Id, Named<A>>, items: seq<NamedItem<A>>, n: nat, s: NamedState<A>)
    requires n < |items| && AllDistinct(items) && RowsInv(before, items, n, s) && ItemsInv(before, items, n, s)
    requires StepNamed(Overwrite, s, items[n]).Ok?
    ensures var t := StepNamed(Overwrite, s, items[n]).value;
            OwnRow(before, items, t, n) || MergedRow(before, items, n + 1, t, n)
  {
    var x := items[n];
    NotSeenYet(items, n);
    if x.id !in s.rows {
      match Owner(s.rows, x.row.key)
      case Some(o) =>
        forall k | 0 <= k < n ensures items[k].id != o {
          assert OwnRow(before, items, s, k) || MergedRow(before, items, n, s, k);
        }
      case None =>
        forall k | k in before && before[k].key == x.row.key ensures Seen(items, n, k) {
        }
    }
  }

  /** An earlier item. */
  lemma StepOldItem<A(!new)>(before: map<Id, Named<A>>, items: seq<NamedItem<A>>, n: nat, s: NamedState<A>, j: nat)
    requires j < n < |items| && AllDistinct(items) && RowsInv(before, items, n, s)
        && StepNamed(Overwrite, s, items[n]).Ok?
    requires OwnRow(before, items, s, j) || MergedRow(before, items, n, s, j)
    ensures var t := StepNamed(Overwrite, s, items[n]).value;
            OwnRow(before, items, t, j) || MergedRow(before, items, n + 1, t, j)
  {
    var x := items[n];
    var t := StepNamed(Overwrite, s, x).value;
    assert items[j].id != x.id && items[j].row.key != x.row.key;
    if !OwnRow(before, items, s, j) {
      var o := s.idMap[items[j].id];
      SeenNext(items, n, o);
      assert !Seen(items, n, o) ==> s.rows[o].key == before[o].key;
    }
  }

  ghost predicate OverwriteInv<A(!new)>(before: map<Id, Named<A>>, items: seq<NamedItem<A>>, n: nat, s: NamedState<A>) {
    RowsInv(before, items, n, s) && ItemsInv(before, items, n, s)
  }

  lemma StepOverwrites<A(!new)>(before: map<Id, Named<A>>, items: seq<NamedItem<A>>, n: nat, s: NamedState<A>)
    requires n < |items| && AllDistinct(items) && OverwriteInv(before, items, n, s)
        && StepNamed(Overwrite, s, items[n]).Ok?
    ensures OverwriteInv(before, items, n + 1, StepNamed(Overwrite, s, items[n]).value)
  {
    var t := StepNamed(Overwrite, s, items[n]).value;
    StepRows(before, items, n, s);
    StepNewItem(before, items, n, s);
    forall j | 0 <= j < n + 1 ensures OwnRow(before, items, t, j) || MergedRow(before, items, n + 1, t, j) {
      if j < n {
        assert OwnRow(before, items, s, j) || MergedRow(before, items, n, s, j);
        StepOldItem(before, items, n, s, j);
      }
    }
  }

  /** Every item ends in its own row or in the old row it was merged into. */
  lemma OverwriteEnds<A(!new)>(before: map<Id, Named<A>>, items: seq<NamedItem<A>>)
    requires UniqueKeys(before) && AllDistinct(items) && MergeNamed(Overwrite, before, items).Ok?
    ensures OverwriteInv(before, items, |items|, MergeNamed(Overwrite, before, items).value)
  {
    var step := NamedStep<A>(Overwrite);
    var inv := (n: nat, s: NamedState<A>) => OverwriteInv(before, items, n, s);
    forall n: nat, s | n < |items| && inv(n, s) && step(s, items[n]).Ok? ensures inv(n + 1, step(s, items[n]).value) {
      StepOverwrites(before, items, n, s);
    }
    FoldInvariant(step, inv, NamedState(before, map[], 0, 0), items);
  }

  /** Only an item with its id gives a row another age. */
  ghost predicate AgesKept<A(!new)>(before: map<Id, Named<A>>, items: seq<NamedItem<A>>, n: nat,
      rows: map<Id, Named<A>>) {
    && n <= |items|
    && forall k :: k in before && !Seen(items, n, k) ==> k in rows && rows[k].createdAt == before[k].createdAt
  }

  lemma OverwriteKeepsAges<A(!new)>(before: map<Id, Named<A>>, items: seq<NamedItem<A>>)
    requires MergeNamed(Overwrite, before, items).Ok?
    ensures AgesKept(before, items, |items|, MergeNamed(Overwrite, before, items).value.rows)
  {
    var step := NamedStep<A>(Overwrite);
    var inv := (n: nat, s: NamedState<A>) => AgesKept(before, items, n, s.rows);
    forall n: nat, s | n < |items| && inv(n, s) && step(s, items[n]).Ok? ensures inv(n + 1, step(s, items[n]).value) {
      forall k ensures Seen(items, n + 1, k) <==> Seen(items, n, k) || k == items[n].id {
        SeenNext(items, n, k);
      }
    }
    FoldInvariant(step, inv, NamedState(before, map[], 0, 0), items);
  }

  // ---- The condition ----

  /** Item `i` of a tangled pair has lost its key: its row has the key of item `j`, and no row has its own. */
  lemma TangledLosesKey<A(!new)>(before: map<Id, Named<A>>, items: seq<NamedItem<A>>, s: NamedState<A>, i: nat, j: nat)
    requires UniqueKeys(before) && AllDistinct(items) && OverwriteInv(before, items, |items|, s)
    requires i < |items| && j < |items| && Tangled(before, items, i, j)
    ensures items[i].id !in s.rows && items[i].id in s.idMap && s.idMap[items[i].id] == items[j].id
    ensures items[j].id in s.rows && s.rows[items[j].id] == items[j].row
    ensures forall k :: k in s.rows ==> s.rows[k].key != items[i].row.key
  {
    var o := items[j].id;
    assert OwnRow(before, items, s, i) || MergedRow(before, items, |items|, s, i);
    assert OwnRow(before, items, s, j) || MergedRow(before, items, |items|, s, j);
    assert !Seen(items, i, o);
    assert Seen(items, |items|, o);
    forall k | k in s.rows ensures s.rows[k].key != items[i].row.key {
      if Seen(items, |items|, k) {
        var l :| 0 <= l < |items| && items[l].id == k;
        assert OwnRow(before, items, s, l) || MergedRow(before, items, |items|, s, l);
      } else {
        assert before[k].key == s.rows[k].key;
      }
    }
  }

  /** Without tangles every item shows where it was mapped. */
  lemma UntangledSettles<A(!new)>(before: map<Id, Named<A>>, items: seq<NamedItem<A>>, s: NamedState<A>, i: nat)
    requires AllDistinct(items) && OverwriteInv(before, items, |items|, s) && Untangled(before, items) && i < |items|
    ensures items[i].id in s.idMap && s.idMap[items[i].id] in s.rows
        && s.rows[s.idMap[items[i].id]].key == items[i].row.key
    ensures Settled(Overwrite, s.rows, items[i]) && AgreesWith(s.rows, items[i])
    ensures s.idMap[items[i].id] == if items[i].id in s.rows then items[i].id else Owner(s.rows, items[i].row.key).value
  {
    assert OwnRow(before, items, s, i) || MergedRow(before, items, |items|, s, i);
    if items[i].id !in s.rows {
      var o := s.idMap[items[i].id];
      forall k | 0 <= k < |items| ensures items[k].id != o {
        assert !Tangled(before, items, i, k);
        assert k < i ==> Seen(items, i, items[k].id);
      }
      assert s.rows[o].key == before[o].key;
      OwnerIs(s.rows, o);
    }
  }

  lemma AgainSettled<A(!new)>(before: map<Id, Named<A>>, items: seq<NamedItem<A>>)
    requires UniqueKeys(before) && AllDistinct(items) && MergeNamed(Overwrite, before, items).Ok?
        && Untangled(before, items)
    ensures var s := MergeNamed(Overwrite, before, items).value;
            MergeNamed(Overwrite, s.rows, items) == Ok(NamedState(s.rows, s.idMap, |items|, 0))
  {
    var s := MergeNamed(Overwrite, before, items).value;
    OverwriteEnds(before, items);
    MergeNamedKeeps(Overwrite, before, items);
    forall i | 0 <= i < |items| ensures Settled(Overwrite, s.rows, items[i]) && AgreesWith(s.rows, items[i]) {
      UntangledSettles(before, items, s, i);
    }
    assert IdsAgree(s.rows, items);
    SettledMerge(Overwrite, s.rows, items);
    MapResolved(before, items, s);
    ResolvedUnique(s.rows, s.idMap, MergeNamed(Overwrite, s.rows, items).value.idMap, items);
  }

  lemma MapResolved<A(!new)>(before: map<Id, Named<A>>, items: seq<NamedItem<A>>, s: NamedState<A>)
    requires AllDistinct(items) && OverwriteInv(before, items, |items|, s) && Untangled(before, items)
        && IdsAgree(s.rows, items)
    requires NamedInv(Overwrite, before, items, |items|, s)
    ensures Resolved(s.rows, s.idMap, items, |items|)
  {
    forall k
      ensures k in s.idMap <==> LastKey(items, |items|, k).Some?
      ensures k in s.idMap ==>
          Some(s.idMap[k]) == if k in s.rows then Some(k) else Owner(s.rows, LastKey(items, |items|, k).value)
    {
      LastKeySeen(items, |items|, k);
      if k in s.idMap {
        var i :| 0 <= i < |items| && items[i].id == k;
        LastKeyAgrees(s.rows, items, |items|, i);
        UntangledSettles(before, items, s, i);
      }
    }
  }

  lemma {:induction false} LastKeySeen<A(!new)>(items: seq<NamedItem<A>>, n: nat, k: Id)
    requires n <= |items|
    ensures LastKey(items, n, k).Some? <==> Seen(items, n, k)
  {
    if n > 0 {
      LastKeySeen(items, n - 1, k);
      SeenNext(items, n - 1, k);
    }
  }

  lemma AgainInserts<A(!new)>(before: map<Id, Named<A>>, items: seq<NamedItem<A>>)
    requires UniqueKeys(before) && AllDistinct(items) && MergeNamed(Overwrite, before, items).Ok?
        && !Untangled(before, items)
    ensures var s := MergeNamed(Overwrite, before, items).value;
            var again := MergeNamed(Overwrite, s.rows, items);
            again.Ok? ==> again.value.rows != s.rows
  {
    var s := MergeNamed(Overwrite, before, items).value;
    var again := MergeNamed(Overwrite, s.rows, items);
    var i, j :| 0 <= i < |items| && 0 <= j < |items| && Tangled(before, items, i, j);
    OverwriteEnds(before, items);
    TangledLosesKey(before, items, s, i, j);
    if again.Ok? {
      OverwriteEnds(s.rows, items);
      assert !MergedRow(s.rows, items, |items|, again.value, i);
    }
  }

  /** Overwriting again changes no row exactly under the same condition; then nothing else changes either. */
  lemma OverwriteTwiceIffUntangled<A(!new)>(before: map<Id, Named<A>>, items: seq<NamedItem<A>>)
    requires UniqueKeys(before) && AllDistinct(items) && MergeNamed(Overwrite, before, items).Ok?
    ensures var s := MergeNamed(Overwrite, before, items).value;
            var again := MergeNamed(Overwrite, s.rows, items);
            && (again.Ok? && again.value.rows == s.rows <==> Untangled(before, items))
            && (Untangled(before, items) ==> again == Ok(NamedState(s.rows, s.idMap, |items|, 0)))
  {
    if Untangled(before, items) {
      AgainSettled(before, items);
    } else {
      AgainInserts(before, items);
    }
  }
}
