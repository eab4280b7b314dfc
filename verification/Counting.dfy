/** How many elements of a sequence satisfy a predicate. */
module Counting {
  function Count<T>(s: seq<T>, p: T -> bool): nat {
    if s == [] then 0 else Count(s[..|s| - 1], p) + if p(s[|s| - 1]) then 1 else 0
  }

  lemma {:induction false} CountConcat<T>(a: seq<T>, b: seq<T>, p: T -> bool)
    ensures Count(a + b, p) == Count(a, p) + Count(b, p)
  {
    if b == [] {
      assert a + b == a;
    } else {
      assert (a + b)[..|a + b| - 1] == a + b[..|b| - 1];
      CountConcat(a, b[..|b| - 1], p);
    }
  }

  lemma WithoutOne<T>(s: seq<T>, j: nat)
    requires j < |s|
    ensures multiset(s) == multiset(s[..j] + s[j + 1..]) + multiset{s[j]}
  {
    assert s == s[..j] + ([s[j]] + s[j + 1..]);
  }

  lemma BothWithoutOne<T>(a: seq<T>, b: seq<T>, j: nat)
    requires multiset(a) == multiset(b) && a != [] && j < |b| && b[j] == a[|a| - 1]
    ensures multiset(a[..|a| - 1]) == multiset(b[..j] + b[j + 1..])
  {
    WithoutOne(a, |a| - 1);
    WithoutOne(b, j);
    assert a[..|a| - 1] + a[|a|..] == a[..|a| - 1];
    assert multiset(a[..|a| - 1]) == multiset(a) - multiset{b[j]};
    assert multiset(b[..j] + b[j + 1..]) == multiset(b) - multiset{b[j]};
  }

  lemma {:induction false} CountWithoutOne<T>(s: seq<T>, j: nat, p: T -> bool)
    requires j < |s|
    ensures Count(s, p) == Count(s[..j] + s[j + 1..], p) + if p(s[j]) then 1 else 0
  {
    CountOne(s[j], p);
    assert s == s[..j] + ([s[j]] + s[j + 1..]);
    CountConcat(s[..j], [s[j]] + s[j + 1..], p);
    CountConcat([s[j]], s[j + 1..], p);
    CountConcat(s[..j], s[j + 1..], p);
  }

  lemma {:induction false} CountOne<T>(x: T, p: T -> bool)
    ensures Count([x], p) == if p(x) then 1 else 0
  {
    assert [x][..0] == [];
  }

  lemma {:induction false} CountPermuted<T>(a: seq<T>, b: seq<T>, p: T -> bool)
    requires multiset(a) == multiset(b)
    ensures Count(a, p) == Count(b, p)
    decreases |a|
  {
    if a == [] {
      assert |multiset(b)| == |b|;
    } else {
      var n := |a| - 1;
      assert a[n] in multiset(b);
      var j :| 0 <= j < |b| && b[j] == a[n];
      BothWithoutOne(a, b, j);
      CountPermuted(a[..n], b[..j] + b[j + 1..], p);
      CountWithoutOne(b, j, p);
    }
  }

  lemma {:induction false} CountNone<T>(s: seq<T>, p: T -> bool)
    requires forall i :: 0 <= i < |s| ==> !p(s[i])
    ensures Count(s, p) == 0
  {
    if s != [] {
      CountNone(s[..|s| - 1], p);
    }
  }

  lemma {:induction false} CountAll<T>(s: seq<T>, p: T -> bool)
    requires forall i :: 0 <= i < |s| ==> p(s[i])
    ensures Count(s, p) == |s|
  {
    if s != [] {
      CountAll(s[..|s| - 1], p);
    }
  }

  lemma {:induction false} CountAtMost<T>(s: seq<T>, p: T -> bool)
    ensures Count(s, p) <= |s|
  {
    if s != [] {
      CountAtMost(s[..|s| - 1], p);
    }
  }

  lemma {:induction false} CountLess<T>(s: seq<T>, p: T -> bool, q: T -> bool)
    requires forall i :: 0 <= i < |s| && p(s[i]) ==> q(s[i])
    ensures Count(s, p) <= Count(s, q)
  {
    if s != [] {
      CountLess(s[..|s| - 1], p, q);
    }
  }

  lemma {:induction false} CountSplit<T>(s: seq<T>, p: T -> bool, q: T -> bool, r: T -> bool)
    requires forall i :: 0 <= i < |s| && p(s[i]) ==> q(s[i]) || r(s[i])
    ensures Count(s, p) <= Count(s, q) + Count(s, r)
  {
    if s != [] {
      CountSplit(s[..|s| - 1], p, q, r);
    }
  }

  lemma {:induction false} CountOneMore<T>(s: seq<T>, x: T, p: T -> bool)
    ensures Count(s + [x], p) == Count(s, p) + if p(x) then 1 else 0
  {
    assert (s + [x])[..|s|] == s;
  }
}
