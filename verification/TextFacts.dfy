/** What trimming, comparing and printing do, said without the functions that do it. */
module TextFacts {
  import opened Text
  import opened Values

  // ---- Texts ----

  /** The code points with the Unicode property White_Space. */
  const WHITE: set<int> := {
    0x09, 0x0A, 0x0B, 0x0C, 0x0D, 0x20, 0x85, 0xA0, 0x1680, 0x2000, 0x2001, 0x2002, 0x2003, 0x2004, 0x2005, 0x2006,
    0x2007, 0x2008, 0x2009, 0x200A, 0x2028, 0x2029, 0x202F, 0x205F, 0x3000}

  predicate White(c: char) {
    c as int in WHITE
  }

  /** `t` is `s` without the white space at its two ends. */
  ghost predicate IsTrimmed(s: string, t: string) {
    exists i, j :: 0 <= i <= j <= |s| && IsMiddle(s, i, j, t)
  }

  predicate IsMiddle(s: string, i: nat, j: nat, t: string)
    requires i <= j <= |s|
  {
    && t == s[i..j] && (t != "" ==> !White(t[0]) && !White(t[|t| - 1]))
    && (forall k :: 0 <= k < i ==> White(s[k])) && (forall k :: j <= k < |s| ==> White(s[k]))
  }

  lemma WhiteIs(c: char)
    ensures IsSpace(c) <==> White(c)
  {
  }

  lemma {:induction false} LeftTrimmed(s: string) returns (i: nat)
    ensures i <= |s| && TrimLeft(s) == s[i..] && forall k :: 0 <= k < i ==> White(s[k])
  {
    i := 0;
    if s != [] && IsSpace(s[0]) {
      WhiteIs(s[0]);
      var m := LeftTrimmed(s[1..]);
      i := m + 1;
      assert forall k :: 1 <= k < i ==> s[k] == s[1..][k - 1];
    }
  }

  lemma {:induction false} RightTrimmed(s: string) returns (j: nat)
    ensures j <= |s| && TrimRight(s) == s[..j] && forall k :: j <= k < |s| ==> White(s[k])
  {
    j := |s|;
    if s != [] && IsSpace(s[|s| - 1]) {
      WhiteIs(s[|s| - 1]);
      j := RightTrimmed(s[..|s| - 1]);
      assert forall k :: j <= k < |s| - 1 ==> s[k] == s[..|s| - 1][k];
    }
  }

  /** TrimSpace returns the one text without white space at either end that is left when some is taken off both. */
  lemma TrimSpaceIs(s: string, t: string)
    ensures TrimSpace(s) == t <==> IsTrimmed(s, t)
  {
    var i := LeftTrimmed(s);
    var left := s[i..];
    var m := RightTrimmed(left);
    TrimSpaceTrimmed(s);
    var r := TrimSpace(s);
    assert r == s[i..i + m];
    if r != "" { WhiteIs(r[0]); WhiteIs(r[|r| - 1]); }
    forall k | i + m <= k < |s| ensures White(s[k]) {
      assert left[k - i] == s[k];
    }
    assert IsMiddle(s, i, i + m, r);
    if IsTrimmed(s, t) {
      var a, b :| 0 <= a <= b <= |s| && IsMiddle(s, a, b, t);
      OneMiddle(s, i, i + m, r, a, b, t);
    }
  }

  lemma OneMiddle(s: string, i: nat, j: nat, t: string, a: nat, b: nat, u: string)
    requires i <= j <= |s| && a <= b <= |s| && IsMiddle(s, i, j, t) && IsMiddle(s, a, b, u)
    ensures t == u
  {
    assert u != "" ==> u[0] == s[a] && u[|u| - 1] == s[b - 1];
    assert t != "" ==> t[0] == s[i] && t[|t| - 1] == s[j - 1];
  }

  /** Nothing but white space. */
  predicate Blank(s: string) {
    forall k :: 0 <= k < |s| ==> White(s[k])
  }

  lemma BlankIff(s: string)
    ensures TrimSpace(s) == "" <==> Blank(s)
  {
    TrimSpaceIs(s, "");
    if Blank(s) {
      assert IsMiddle(s, |s|, |s|, "");
    }
  }

  /** The order of sort.Strings: at the first difference the smaller character, or the end, comes first. */
  lemma {:induction false} LessIff(a: string, b: string)
    ensures Less(a, b) <==> exists i :: 0 <= i <= |a| && FirstDifference(a, b, i)
  {
    if a != [] && b != [] && a[0] == b[0] {
      LessIff(a[1..], b[1..]);
      if Less(a, b) {
        var i :| 0 <= i <= |a[1..]| && FirstDifference(a[1..], b[1..], i);
        assert a[..i + 1] == [a[0]] + a[1..][..i] && b[..i + 1] == [b[0]] + b[1..][..i];
        assert FirstDifference(a, b, i + 1);
      }
      if i :| 0 <= i <= |a| && FirstDifference(a, b, i) {
        assert i > 0;
        assert a[1..][..i - 1] == a[..i][1..] && b[1..][..i - 1] == b[..i][1..];
        assert FirstDifference(a[1..], b[1..], i - 1);
      }
    } else if b != [] {
      if a == [] || a[0] < b[0] {
        assert FirstDifference(a, b, 0);
      } else {
        forall i | 0 < i <= |a| && i < |b| ensures a[..i] != b[..i] {
          assert a[..i][0] != b[..i][0];
        }
      }
    }
  }

  predicate FirstDifference(a: string, b: string, i: nat)
    requires i <= |a|
  {
    i < |b| && a[..i] == b[..i] && (i == |a| || a[i] < b[i])
  }

  /** Letters A to Z become small; other characters up to 127 stay. */
  lemma ToLowerIs(lib: Lib, s: string)
    ensures |ToLower(lib, s)| == |s|
    ensures forall i :: 0 <= i < |s| && s[i] as int < 128 ==>
        ToLower(lib, s)[i] as int == s[i] as int + if 65 <= s[i] as int <= 90 then 32 else 0
    ensures forall i :: 0 <= i < |s| && s[i] as int >= 128 ==> ToLower(lib, s)[i] == lib.lower(s[i])
  {
  }

  lemma ToUpperIs(lib: Lib, s: string)
    ensures |ToUpper(lib, s)| == |s|
    ensures forall i :: 0 <= i < |s| && s[i] as int < 128 ==>
        ToUpper(lib, s)[i] as int == s[i] as int - if 97 <= s[i] as int <= 122 then 32 else 0
    ensures forall i :: 0 <= i < |s| && s[i] as int >= 128 ==> ToUpper(lib, s)[i] == lib.upper(s[i])
  {
  }

  // ---- Numbers ----

  /** The number that a row of decimal digits stands for. */
  function Number(s: string): int {
    if s == "" then 0 else Number(s[..|s| - 1]) * 10 + (s[|s| - 1] as int - 48)
  }

  lemma {:induction false} DigitsAre(n: nat)
    ensures Number(Digits(n)) == n && (n > 0 ==> Digits(n)[0] != '0')
  {
    if n >= 10 {
      DigitsAre(n / 10);
      assert Digits(n)[..|Digits(n)| - 1] == Digits(n / 10);
    } else {
      assert Digits(n)[..0] == "";
    }
  }

  /** Decimal prints the digits that stand for the number, no zero leading, after a minus sign if it is negative. */
  lemma DecimalIs(n: int)
    ensures var d := Decimal(n);
            && d != "" && (n == 0 ==> d == "0")
            && (n > 0 ==> Number(d) == n && d[0] != '0')
            && (n < 0 ==> d[0] == '-' && d[1..] != "" && Number(d[1..]) == -n && d[1] != '0')
            && forall i :: 0 <= i < |d| && !(n < 0 && i == 0) ==> '0' <= d[i] <= '9'
  {
    DigitsAre(if n < 0 then -n else n);
  }

  /** The fraction is dropped towards zero. */
  predicate IsWhole(x: real, n: int) {
    if x >= 0.0 then n as real <= x < n as real + 1.0 else n as real - 1.0 < x <= n as real
  }

  lemma TruncateIs(x: real, n: int)
    ensures Truncate(x) == n <==> IsWhole(x, n)
  {
  }
}
