/** What the readers of decoded JSON return, said without the readers. */
module Readings {
  import opened Common
  import opened Json
  import opened Values
  import opened DiffEntries
  import opened TextFacts
  import opened Text

  // ---- Fields ----

  /** How a value prints. */
  predicate Prints(lib: Lib, v: Json, s: string) {
    && (v.Str? ==> s == v.s) && (v.Bool? ==> s == if v.b then "true" else "false") && (v.Null? ==> s == "<nil>")
    && (v.Num? || v.Arr? || v.Obj? ==> s == lib.format(v))
  }

  /** The field of an object as the comparison of scans reads it: a missing one is empty, strings are trimmed, other
      values printed. */
  ghost predicate FieldReads(lib: Lib, m: Option<Document>, key: string, s: string) {
    if m.Some? && key in m.value then
      if m.value[key].Str? then IsTrimmed(m.value[key].s, s) else Prints(lib, m.value[key], s)
    else s == ""
  }

  lemma StringValIs(lib: Lib, m: Option<Document>, key: string, s: string)
    ensures StringVal(lib, m, key) == s <==> FieldReads(lib, m, key, s)
  {
    if m.Some? && key in m.value && m.value[key].Str? {
      TrimSpaceIs(m.value[key].s, s);
    }
  }

  /** And as the graph reads it: null is empty too, and every printed value is trimmed. */
  ghost predicate PropReads(lib: Lib, m: Document, key: string, s: string) {
    if key in m && !m[key].Null? then exists t :: Prints(lib, m[key], t) && IsTrimmed(t, s) else s == ""
  }

  lemma StringPropIs(lib: Lib, m: Document, key: string, s: string)
    ensures StringProp(lib, m, key) == s <==> PropReads(lib, m, key, s)
  {
    if key in m && !m[key].Null? {
      var t := Sprint(lib, m[key]);
      assert Prints(lib, m[key], t);
      TrimSpaceIs(t, s);
    }
  }

  /** Whole numbers: -1, or 0 in the graph, for anything but a number. */
  ghost predicate NumberReads(m: Option<Document>, key: string, missing: int, n: int) {
    if m.Some? && key in m.value && m.value[key].Num? then IsWhole(m.value[key].n, n) else n == missing
  }

  lemma IntValIs(m: Option<Document>, key: string, n: int)
    ensures IntVal(m, key) == n <==> NumberReads(m, key, -1, n)
  {
    if m.Some? && key in m.value && m.value[key].Num? { TruncateIs(m.value[key].n, n); }
  }

  lemma IntPropIs(m: Document, key: string, n: int)
    ensures IntProp(m, key) == n <==> NumberReads(Some(m), key, 0, n)
  {
    if key in m && m[key].Num? { TruncateIs(m[key].n, n); }
  }

  lemma BoolIs(m: Option<Document>, key: string)
    ensures BoolVal(m, key) <==> m.Some? && key in m.value && m.value[key] == Bool(true)
    ensures m.Some? ==> (BoolProp(m.value, key) <==> key in m.value && m.value[key] == Bool(true))
  {
  }

  lemma FloatIs(m: Document, key: string)
    ensures FloatProp(m, key) == if key in m && m[key].Num? then m[key].n else 0.0
  {
  }

  /** The object, or the list, under a key of an object; anything else reads as missing. */
  lemma SectionIs(m: Option<Document>, key: string, d: Document)
    ensures Sub(m, key) == Some(d) <==> m.Some? && key in m.value && m.value[key] == Obj(d)
    ensures m.Some? ==> (Section(m.value, key) == Some(d) <==> key in m.value && m.value[key] == Obj(d))
    ensures Items(m, key) == if m.Some? && key in m.value && m.value[key].Arr? then m.value[key].items else []
    ensures m.Some? ==> Items(m, key) == List(m.value, key)
  {
  }

  // ---- Lists ----

  /** Positions in a list, ascending. */
  predicate Rising(at: seq<nat>, n: nat) {
    (forall i, j :: 0 <= i < j < |at| ==> at[i] < at[j]) && forall i :: 0 <= i < |at| ==> at[i] < n
  }

  /** Ascending lists of the same positions are one list. */
  lemma {:induction false} SamePositions(at: seq<nat>, bt: seq<nat>, n: nat)
    requires Rising(at, n) && Rising(bt, n) && forall k :: k in at <==> k in bt
    ensures at == bt
    decreases |at|
  {
    if bt != [] {
      var b := bt[0];
      assert b in at;
    }
    if at != [] {
      assert at[|at| - 1] in at && bt[|bt| - 1] in bt;
      var a, b := at[|at| - 1], bt[|bt| - 1];
      assert b in bt && b in at;
      assert a == b;
      var at', bt' := at[..|at| - 1], bt[..|bt| - 1];
      forall k ensures k in at' <==> k in bt' {
        assert k in at <==> k in at' || k == a;
        assert k in bt <==> k in bt' || k == b;
      }
      SamePositions(at', bt', n);
    }
  }

  /** `ys` are the objects of `xs`, in order: those at the positions `at`, and all of them. */
  predicate AreObjects(xs: seq<Json>, ys: seq<Document>, at: seq<nat>) {
    && Rising(at, |xs|) && |at| == |ys| && (forall i :: 0 <= i < |at| ==> xs[at[i]] == Obj(ys[i]))
    && forall k :: 0 <= k < |xs| && xs[k].Obj? ==> k in at
  }

  lemma OneMoreObject(xs: seq<Json>, ys: seq<Document>, at: seq<nat>, x: Json)
    requires AreObjects(xs, ys, at)
    ensures x.Obj? ==> AreObjects(xs + [x], ys + [x.fields], at + [|xs|])
    ensures !x.Obj? ==> AreObjects(xs + [x], ys, at)
  {
    if x.Obj? {
      var more, n := at + [|xs|], |xs|;
      forall k | 0 <= k < |xs + [x]| && (xs + [x])[k].Obj? ensures k in more {
        assert k < n ==> k in at;
        assert more[|at|] == n;
      }
    }
  }

  lemma {:induction false} ObjectsAre(xs: seq<Json>) returns (at: seq<nat>)
    ensures AreObjects(xs, Objects(xs), at)
  {
    at := [];
    if xs != [] {
      var n := |xs| - 1;
      at := ObjectsAre(xs[..n]);
      OneMoreObject(xs[..n], Objects(xs[..n]), at, xs[n]);
      assert xs == xs[..n] + [xs[n]];
      at := if xs[n].Obj? then at + [n] else at;
    }
  }

  /** `ys` are the non-empty readings of the items of `xs`, in order. */
  ghost predicate AreReadings(f: Json -> string, xs: seq<Json>, ys: seq<string>, at: seq<nat>) {
    && Rising(at, |xs|) && |at| == |ys| && (forall i :: 0 <= i < |at| ==> ys[i] == f(xs[at[i]]) != "")
    && forall k :: 0 <= k < |xs| && f(xs[k]) != "" ==> k in at
  }

  lemma OneMoreReading(f: Json -> string, xs: seq<Json>, ys: seq<string>, at: seq<nat>, x: Json)
    requires AreReadings(f, xs, ys, at)
    ensures f(x) != "" ==> AreReadings(f, xs + [x], ys + [f(x)], at + [|xs|])
    ensures f(x) == "" ==> AreReadings(f, xs + [x], ys, at)
  {
    if f(x) != "" {
      var more, n := at + [|xs|], |xs|;
      forall k | 0 <= k < |xs + [x]| && f((xs + [x])[k]) != "" ensures k in more {
        assert k < n ==> k in at;
        assert more[|at|] == n;
      }
    }
  }

  lemma {:induction false} CollectedAre(f: Json -> string, xs: seq<Json>) returns (at: seq<nat>)
    ensures AreReadings(f, xs, Collected(f, xs), at)
  {
    at := [];
    if xs != [] {
      var n := |xs| - 1;
      at := CollectedAre(f, xs[..n]);
      OneMoreReading(f, xs[..n], Collected(f, xs[..n]), at, xs[n]);
      assert xs == xs[..n] + [xs[n]];
      at := if f(xs[n]) != "" then at + [n] else at;
    }
  }

  /** A list of strings reads as the trimmed strings among its items, without the empty ones. */
  lemma StringsHave(m: Option<Document>, key: string, s: string)
    ensures s in Strings(m, key) <==>
            && s != "" && m.Some? && key in m.value && m.value[key].Arr?
            && exists i :: 0 <= i < |m.value[key].items| && m.value[key].items[i].Str?
                 && IsTrimmed(m.value[key].items[i].s, s)
  {
    var xs := Items(m, key);
    var at := CollectedAre(StringItem, xs);
    if s in Strings(m, key) {
      var k :| 0 <= k < |at| && Strings(m, key)[k] == s;
      TrimSpaceIs(xs[at[k]].s, s);
    }
    if s != "" && m.Some? && key in m.value && m.value[key].Arr? {
      if i :| 0 <= i < |xs| && xs[i].Str? && IsTrimmed(xs[i].s, s) {
        TrimSpaceIs(xs[i].s, s);
        assert StringItem(xs[i]) == s;
        var k :| 0 <= k < |at| && at[k] == i;
      }
    }
  }
}
