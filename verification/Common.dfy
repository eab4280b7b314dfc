/** Option, Result and a left fold that stops at the first error. */
module Common {
  datatype Option<+T> = None | Some(value: T)

  datatype Result<+T, +E> = Ok(value: T) | Err(error: E) {
    predicate IsFailure() {
      Err?
    }

    function PropagateFailure<U>(): Result<U, E>
      requires Err?
    {
      Err(error)
    }

    function Extract(): T
      requires Ok?
    {
      value
    }
  }

  /** Runs `step` over `xs` from left to right; the first error ends the run and is its result. */
  function Fold<S, X, E>(step: (S, X) -> Result<S, E>, s: S, xs: seq<X>): Result<S, E>
  {
    if xs == [] then Ok(s)
    else
      match Fold(step, s, xs[..|xs| - 1])
      case Err(e) => Err(e)
      case Ok(t) => step(t, xs[|xs| - 1])
  }

  /** One more item: the equation a loop over `xs` needs. */
  lemma FoldSnoc<S, X, E>(step: (S, X) -> Result<S, E>, s: S, xs: seq<X>, i: nat)
    requires i < |xs|
    ensures Fold(step, s, xs[..i + 1]) ==
            match Fold(step, s, xs[..i])
            case Err(e) => Err(e)
            case Ok(t) => step(t, xs[i])
  {
    assert xs[..i + 1][..i] == xs[..i];
  }

  lemma {:induction false} FoldErrSticks<S, X, E>(step: (S, X) -> Result<S, E>, s: S, xs: seq<X>, i: nat)
    requires i <= |xs|
    requires Fold(step, s, xs[..i]).Err?
    ensures Fold(step, s, xs) == Fold(step, s, xs[..i])
    decreases |xs|
  {
    if i < |xs| {
      var ys := xs[..|xs| - 1];
      assert ys[..i] == xs[..i];
      FoldErrSticks(step, s, ys, i);
    } else {
      assert xs[..i] == xs;
    }
  }

  /** One turn of a loop over `xs`: either it goes on, or its error is the result of the whole run. */
  lemma FoldNext<S, X, E>(step: (S, X) -> Result<S, E>, s: S, xs: seq<X>, i: nat, t: S)
    requires i < |xs| && Fold(step, s, xs[..i]) == Ok(t)
    ensures step(t, xs[i]).Ok? ==> Fold(step, s, xs[..i + 1]) == step(t, xs[i])
    ensures step(t, xs[i]).Err? ==> Fold(step, s, xs) == step(t, xs[i])
  {
    FoldSnoc(step, s, xs, i);
    if step(t, xs[i]).Err? {
      FoldErrSticks(step, s, xs, i + 1);
    }
  }

  /** A step that fails on some items and otherwise takes another step: it succeeds exactly if no item is such and the
      other run succeeds, and then ends alike. */
  lemma {:induction false} FoldGuarded<S(!new), X, Y, E>(guarded: (S, X) -> Result<S, E>, fine: X -> bool,
      step: (S, Y) -> Result<S, E>, e: E, s: S, xs: seq<X>, ys: seq<Y>)
    requires |ys| == |xs|
    requires forall t: S, i: nat {:trigger guarded(t, xs[i])} :: i < |xs| ==>
               guarded(t, xs[i]) == if fine(xs[i]) then step(t, ys[i]) else Err(e)
    ensures Fold(guarded, s, xs).Ok? <==> (forall i :: 0 <= i < |xs| ==> fine(xs[i])) && Fold(step, s, ys).Ok?
    ensures Fold(guarded, s, xs).Ok? ==> Fold(guarded, s, xs) == Fold(step, s, ys)
  {
    if xs != [] {
      var n := |xs| - 1;
      forall t: S, i: nat {:trigger guarded(t, xs[..n][i])} | i < n
        ensures guarded(t, xs[..n][i]) == if fine(xs[..n][i]) then step(t, ys[..n][i]) else Err(e)
      {
        assert guarded(t, xs[i]) == if fine(xs[i]) then step(t, ys[i]) else Err(e);
      }
      FoldGuarded(guarded, fine, step, e, s, xs[..n], ys[..n]);
      assert forall i :: 0 <= i < n ==> xs[..n][i] == xs[i];
    }
  }

  /** A run fails with the error its steps fail with. */
  lemma {:induction false} FoldError<S(!new), X(!new), E>(step: (S, X) -> Result<S, E>, s: S, xs: seq<X>, e: E)
    requires forall t: S, x: X {:trigger step(t, x)} :: step(t, x).Err? ==> step(t, x) == Err(e)
    ensures Fold(step, s, xs).Err? ==> Fold(step, s, xs) == Err(e)
  {
    if xs != [] {
      FoldError(step, s, xs[..|xs| - 1], e);
    }
  }

  /** Induction over a successful run: what every step keeps holds at the end. */
  lemma {:induction false} FoldInvariant<S(!new), X, E>(step: (S, X) -> Result<S, E>, inv: (nat, S) -> bool, s: S,
      xs: seq<X>)
    requires inv(0, s)
    requires forall i: nat, t: S :: i < |xs| && inv(i, t) && step(t, xs[i]).Ok? ==> inv(i + 1, step(t, xs[i]).value)
    ensures Fold(step, s, xs).Ok? ==> inv(|xs|, Fold(step, s, xs).value)
    decreases |xs|
  {
    if xs != [] {
      var ys := xs[..|xs| - 1];
      forall i: nat, t: S | i < |ys| && inv(i, t) && step(t, ys[i]).Ok? ensures inv(i + 1, step(t, ys[i]).value) {
        assert ys[i] == xs[i];
      }
      FoldInvariant(step, inv, s, ys);
    }
  }

  /** Induction that also shows that no step fails. */
  lemma {:induction false} FoldSucceeds<S(!new), X, E>(step: (S, X) -> Result<S, E>, inv: (nat, S) -> bool, s: S,
      xs: seq<X>)
    requires inv(0, s)
    requires forall i: nat, t: S :: i < |xs| && inv(i, t) ==> step(t, xs[i]).Ok? && inv(i + 1, step(t, xs[i]).value)
    ensures Fold(step, s, xs).Ok? && inv(|xs|, Fold(step, s, xs).value)
    decreases |xs|
  {
    if xs != [] {
      var ys := xs[..|xs| - 1];
      forall i: nat, t: S | i < |ys| && inv(i, t) ensures step(t, ys[i]).Ok? && inv(i + 1, step(t, ys[i]).value) {
        assert ys[i] == xs[i];
      }
      FoldSucceeds(step, inv, s, ys);
    }
  }

  /** Two lists without repetition that hold the same elements are permutations of each other. */
  predicate Distinct<T(==)>(s: seq<T>) {
    forall i, j :: 0 <= i < j < |s| ==> s[i] != s[j]
  }

  /** Ranging over a map or set: every element once, in an order the runtime picks. */
  method Range<T(!new, ==)>(s: set<T>) returns (r: seq<T>)
    ensures Distinct(r) && forall x :: x in r <==> x in s
  {
    var rest := s;
    r := [];
    while rest != {}
      invariant Distinct(r) && rest <= s
      invariant forall x :: x in r <==> x in s && x !in rest
      decreases |rest|
    {
      var x :| x in rest;
      r, rest := r + [x], rest - {x};
    }
  }

  lemma {:induction false} DistinctCount<T>(s: seq<T>, x: T)
    requires Distinct(s)
    ensures multiset(s)[x] == if x in s then 1 else 0
  {
    if s != [] {
      var t := s[..|s| - 1];
      assert s == t + [s[|s| - 1]];
      DistinctCount(t, x);
    }
  }

  lemma DistinctSameElements<T>(s: seq<T>, t: seq<T>)
    requires Distinct(s) && Distinct(t)
    requires forall x :: x in s <==> x in t
    ensures multiset(s) == multiset(t)
  {
    forall x ensures multiset(s)[x] == multiset(t)[x] {
      DistinctCount(s, x);
      DistinctCount(t, x);
    }
  }
}

/** Go's strings.TrimSpace and the order of sort.Strings. */
module Text {
  /** unicode.IsSpace. */
  predicate IsSpace(c: char) {
    || '\t' <= c <= '\r' || c == ' ' || c == 0x85 as char || c == 0xA0 as char || c == 0x1680 as char
    || 0x2000 as char <= c <= 0x200A as char || c == 0x2028 as char || c == 0x2029 as char
    || c == 0x202F as char || c == 0x205F as char || c == 0x3000 as char
  }

  function TrimLeft(s: string): string {
    if s != [] && IsSpace(s[0]) then TrimLeft(s[1..]) else s
  }

  function TrimRight(s: string): string {
    if s != [] && IsSpace(s[|s| - 1]) then TrimRight(s[..|s| - 1]) else s
  }

  function TrimSpace(s: string): string {
    TrimRight(TrimLeft(s))
  }

  /** No space at either end: what TrimSpace returns and leaves alone. */
  predicate Trimmed(s: string) {
    s == [] || (!IsSpace(s[0]) && !IsSpace(s[|s| - 1]))
  }

  lemma {:induction false} TrimRightKeepsHead(s: string)
    requires s != [] && !IsSpace(s[0])
    ensures TrimRight(s) != [] && TrimRight(s)[0] == s[0] && Trimmed(TrimRight(s))
  {
    if IsSpace(s[|s| - 1]) {
      TrimRightKeepsHead(s[..|s| - 1]);
    }
  }

  lemma {:induction false} TrimLeftHead(s: string)
    ensures TrimLeft(s) == [] || !IsSpace(TrimLeft(s)[0])
  {
    if s != [] && IsSpace(s[0]) {
      TrimLeftHead(s[1..]);
    }
  }

  lemma TrimSpaceTrimmed(s: string)
    ensures Trimmed(TrimSpace(s))
    ensures Trimmed(s) ==> TrimSpace(s) == s
    ensures TrimSpace(TrimSpace(s)) == TrimSpace(s)
  {
    TrimLeftHead(s);
    if TrimLeft(s) != [] {
      TrimRightKeepsHead(TrimLeft(s));
    }
  }

  predicate ColonFree(s: string) {
    ':' !in s
  }

  lemma ColonInside(s: string, v: string, t: string, w: string)
    requires s + ":" + v == t + ":" + w
    ensures |s| < |t| ==> ':' in t
  {
    if |s| < |t| {
      assert (s + ":" + v)[|s|] == ':';
      assert (t + ":" + w)[|s|] == t[|s|];
    }
  }

  /** Lexicographic order on code points, which is the byte order of UTF-8. */
  predicate Less(a: string, b: string) {
    if b == [] then false
    else if a == [] then true
    else if a[0] != b[0] then a[0] < b[0]
    else Less(a[1..], b[1..])
  }

  lemma {:induction false} LessIrreflexive(a: string)
    ensures !Less(a, a)
  {
    if a != [] { LessIrreflexive(a[1..]); }
  }

  lemma {:induction false} LessTransitive(a: string, b: string, c: string)
    requires Less(a, b) && Less(b, c)
    ensures Less(a, c)
  {
    if a != [] && a[0] == b[0] == c[0] {
      LessTransitive(a[1..], b[1..], c[1..]);
    }
  }

  lemma {:induction false} LessTotal(a: string, b: string)
    ensures Less(a, b) || a == b || Less(b, a)
  {
    if a != [] && b != [] && a[0] == b[0] {
      LessTotal(a[1..], b[1..]);
      assert a == [a[0]] + a[1..] && b == [b[0]] + b[1..];
    }
  }
}

/** The library sorts: sort.Strings and sort.Slice. */
module Sorting {
  import opened Text
  import opened Common

  ghost predicate StrictWeak<T(!new)>(lt: (T, T) -> bool) {
    && (forall x :: !lt(x, x))
    && (forall x, y, z :: lt(x, y) && lt(y, z) ==> lt(x, z))
    && (forall x, y, z :: lt(x, z) ==> lt(x, y) || lt(y, z))
  }

  ghost predicate StrictTotal<T(!new)>(lt: (T, T) -> bool) {
    StrictWeak(lt) && forall x, y :: lt(x, y) || x == y || lt(y, x)
  }

  /** Elements ordered by one of their parts. */
  function OrderBy<T, U>(lt: (U, U) -> bool, part: T -> U): (T, T) -> bool {
    (a: T, b: T) => lt(part(a), part(b))
  }

  lemma OrderByStrictWeak<T(!new), U(!new)>(lt: (U, U) -> bool, part: T -> U)
    requires StrictWeak(lt)
    ensures StrictWeak(OrderBy(lt, part))
  {
    var byPart := OrderBy(lt, part);
    forall x, y, z {:trigger byPart(x, y), byPart(y, z)} | byPart(x, y) && byPart(y, z) ensures byPart(x, z) {
      assert lt(part(x), part(y)) && lt(part(y), part(z));
    }
    forall x, y, z {:trigger byPart(x, y), byPart(y, z)} | byPart(x, z) ensures byPart(x, y) || byPart(y, z) {
      assert lt(part(x), part(y)) || lt(part(y), part(z));
    }
  }

  /** What sort.Slice promises of its result: no later element is less than an earlier one. */
  ghost predicate Ordered<T>(lt: (T, T) -> bool, s: seq<T>) {
    forall i, j :: 0 <= i < j < |s| ==> !lt(s[j], s[i])
  }

  function Insert<T(!new)>(lt: (T, T) -> bool, x: T, s: seq<T>): (r: seq<T>)
    ensures multiset(r) == multiset(s) + multiset{x}
  {
    if s == [] || !lt(s[0], x) then [x] + s
    else
      assert s == [s[0]] + s[1..];
      [s[0]] + Insert(lt, x, s[1..])
  }

  lemma {:induction false} InsertOrdered<T(!new)>(lt: (T, T) -> bool, x: T, s: seq<T>)
    requires StrictWeak(lt) && Ordered(lt, s)
    ensures Ordered(lt, Insert(lt, x, s))
  {
    var r := Insert(lt, x, s);
    if s == [] || !lt(s[0], x) {
      forall j | 0 < j < |r| ensures !lt(r[j], r[0]) {
        assert r[j] == s[j - 1];
        var head := s[0];
        assert lt(s[j - 1], head) || lt(head, x) || !lt(s[j - 1], x);
      }
    } else {
      var t := Insert(lt, x, s[1..]);
      InsertOrdered(lt, x, s[1..]);
      forall j | 0 <= j < |t| ensures !lt(t[j], s[0]) {
        assert t[j] in multiset(t);
        assert t[j] == x || t[j] in s[1..];
      }
    }
  }

  function SortBy<T(!new)>(lt: (T, T) -> bool, s: seq<T>): (r: seq<T>)
    ensures multiset(r) == multiset(s)
  {
    if s == [] then []
    else
      assert s == [s[0]] + s[1..];
      Insert(lt, s[0], SortBy(lt, s[1..]))
  }

  lemma {:induction false} SortByOrdered<T(!new)>(lt: (T, T) -> bool, s: seq<T>)
    requires StrictWeak(lt)
    ensures Ordered(lt, SortBy(lt, s))
  {
    if s != [] {
      SortByOrdered(lt, s[1..]);
      InsertOrdered(lt, s[0], SortBy(lt, s[1..]));
    }
  }

  /** sort.Slice: an ordered permutation, and nothing about the order of equivalent elements. */
  method SortSlice<T(!new)>(lt: (T, T) -> bool, s: seq<T>) returns (r: seq<T>)
    requires StrictWeak(lt)
    ensures multiset(r) == multiset(s) && Ordered(lt, r)
  {
    SortByOrdered(lt, s);
    r := SortBy(lt, s);
  }

  /** `lt` tells every two elements of `s` apart. */
  ghost predicate Separates<T>(lt: (T, T) -> bool, s: seq<T>) {
    forall i, j :: 0 <= i < j < |s| ==> lt(s[i], s[j]) || s[i] == s[j] || lt(s[j], s[i])
  }

  lemma SameFirst<T(!new)>(lt: (T, T) -> bool, a: seq<T>, b: seq<T>)
    requires Separates(lt, a) && Ordered(lt, a) && Ordered(lt, b)
    requires multiset(a) == multiset(b) && a != []
    ensures b != [] && a[0] == b[0]
  {
    assert |multiset(a)| == |a| && |multiset(b)| == |b|;
    assert a[0] in multiset(b) && b[0] in multiset(a);
    var k :| 0 <= k < |a| && a[k] == b[0];
    var l :| 0 <= l < |b| && b[l] == a[0];
    assert k == 0 || !lt(a[k], a[0]);
    assert l == 0 || !lt(b[l], b[0]);
  }

  /** An order that separates the elements has one sorted permutation, whatever algorithm finds it. */
  lemma {:induction false} SortedUnique<T(!new)>(lt: (T, T) -> bool, a: seq<T>, b: seq<T>)
    requires Separates(lt, a) && Ordered(lt, a) && Ordered(lt, b)
    requires multiset(a) == multiset(b)
    ensures a == b
  {
    if a == [] {
      assert |multiset(b)| == |b|;
    } else {
      SameFirst(lt, a, b);
      assert a == [a[0]] + a[1..] && b == [b[0]] + b[1..];
      assert multiset(a[1..]) == multiset(a) - multiset{a[0]};
      assert multiset(b[1..]) == multiset(b) - multiset{b[0]};
      SortedUnique(lt, a[1..], b[1..]);
    }
  }

  lemma LessIsTotal()
    ensures StrictTotal(Less)
  {
    forall x ensures !Less(x, x) { LessIrreflexive(x); }
    forall x, y, z | Less(x, y) && Less(y, z) ensures Less(x, z) { LessTransitive(x, y, z); }
    forall x, y ensures Less(x, y) || x == y || Less(y, x) { LessTotal(x, y); }
    forall x, y, z | Less(x, z) ensures Less(x, y) || Less(y, z) {
      LessTotal(x, y);
      if Less(y, x) { LessTransitive(y, x, z); }
    }
  }

  /** sort.Strings. */
  function SortStrings(s: seq<string>): (r: seq<string>)
    ensures multiset(r) == multiset(s) && Ordered(Less, r)
  {
    LessIsTotal();
    SortByOrdered(Less, s);
    SortBy(Less, s)
  }

  /** `r` lists the elements of `s` once each, in increasing order. */
  ghost predicate Lists(r: seq<string>, s: set<string>) {
    multiset(r) == multiset(s) && Ordered(Less, r)
  }

  lemma ListsUnique(a: seq<string>, b: seq<string>, s: set<string>)
    requires Lists(a, s) && Lists(b, s)
    ensures a == b
  {
    LessIsTotal();
    SortedUnique(Less, a, b);
  }

  lemma CountTwice<T>(r: seq<T>, i: nat, j: nat)
    requires i < j < |r|
    ensures r[i] == r[j] ==> multiset(r)[r[i]] >= 2
  {
    assert r == r[..i] + [r[i]] + r[i + 1..j] + [r[j]] + r[j + 1..];
  }

  lemma ListsElements(r: seq<string>, s: set<string>)
    requires Lists(r, s)
    ensures forall x :: x in r <==> x in s
    ensures Distinct(r)
    ensures forall i, j :: 0 <= i < j < |r| ==> Less(r[i], r[j])
    ensures |r| == |s|
  {
    forall x ensures x in r <==> x in s {
      assert x in r <==> x in multiset(r);
      assert x in s <==> x in multiset(s);
    }
    forall i, j | 0 <= i < j < |r| ensures Less(r[i], r[j]) && r[i] != r[j] {
      CountTwice(r, i, j);
      assert multiset(s)[r[i]] <= 1;
      LessTotal(r[i], r[j]);
    }
    assert |multiset(r)| == |multiset(s)|;
  }

  lemma {:induction false} ListFrom(r: seq<string>, s: set<string>)
    requires Distinct(r) && forall x :: x in r <==> x in s
    ensures multiset(r) == multiset(s)
  {
    forall x ensures multiset(r)[x] == multiset(s)[x] {
      DistinctCount(r, x);
    }
  }

  /** The sorted listing of a set, as `for x := range set` followed by sort.Strings produces it. */
  ghost function Listing(s: set<string>): (r: seq<string>)
    ensures Lists(r, s)
  {
    SortStrings(Enumerate(s))
  }

  ghost function Enumerate(s: set<string>): (r: seq<string>)
    ensures multiset(r) == multiset(s)
  {
    if s == {} then []
    else
      var x :| x in s;
      assert multiset(s) == multiset(s - {x}) + multiset{x};
      [x] + Enumerate(s - {x})
  }

  /** Ranging over a map's keys in whatever order the runtime picks, then sorting. */
  method SortedKeys(s: set<string>) returns (r: seq<string>)
    ensures r == Listing(s)
  {
    var rest := s;
    r := [];
    while rest != {}
      invariant rest <= s
      invariant multiset(r) == multiset(s - rest)
      decreases |rest|
    {
      var x :| x in rest;
      assert s - (rest - {x}) == (s - rest) + {x};
      assert multiset((s - rest) + {x}) == multiset(s - rest) + multiset{x};
      r := r + [x];
      rest := rest - {x};
    }
    assert s - rest == s;
    r := SortStrings(r);
    ListsUnique(r, Listing(s), s);
  }
}
