/** The base64 texts letter by letter and byte by byte. */
module Base64Letters {
  import opened Common
  import opened Readings
  import opened Base64

  /** Tables 1 and 2 of RFC 4648. */
  const LETTERS := CAPITALS + SMALL + "0123456789"
  const CAPITALS := "ABCDEFGHIJKLMNOPQRSTUVWXYZ"
  const SMALL := "abcdefghijklmnopqrstuvwxyz"
  const STANDARD := LETTERS + "+/"
  const URL := LETTERS + "-_"

  lemma TableIs(i: sextet)
    ensures |LETTERS| == 62 && |STANDARD| == |URL| == 64
    ensures CharOf(i) == STANDARD[i]
    ensures URL[i] == if i == 62 then '-' else if i == 63 then '_' else STANDARD[i]
  {
    if i < 26 { Capitals(i); } else if i < 52 { SmallLetters(i - 26); }
    assert i < 62 ==> STANDARD[i] == LETTERS[i] == URL[i];
  }

  lemma Capitals(i: nat)
    requires i < 26
    ensures CAPITALS[i] == 'A' + i as char
  {
  }

  lemma SmallLetters(i: nat)
    requires i < 26
    ensures SMALL[i] == 'a' + i as char
  {
  }

  // ---- Encoding ----

  /** Letter `k` stands for the six bits `6 * k` onwards of the bytes, bits past the end being zero. */
  function SixBits(b: seq<byte>, k: nat): (v: sextet) {
    DigitOf(ByteGroup(b, k / 4), k % 4)
  }

  /** Four six-bit digits are determined by the number they make. */
  lemma SixBitDigits(a: sextet, b: sextet, c: sextet, d: sextet)
    ensures var n := a * 262144 + b * 4096 + c * 64 + d;
            n / 262144 % 64 == a && n / 4096 % 64 == b && n / 64 % 64 == c && n % 64 == d
  {
    var n := a * 262144 + b * 4096 + c * 64 + d;
    assert n / 64 == a * 4096 + b * 64 + c;
    assert n / 4096 == a * 64 + b;
  }

  lemma SextetAt(b: seq<byte>, k: nat)
    requires k < |Sextets(b)|
    ensures Sextets(b)[k] == SixBits(b, k)
  {
    SextetsKeepGroups(b, k / 4);
    DigitOfGroup(Sextets(b), k);
  }

  /** The six-bit digits of a 24-bit number, the highest first. */
  function DigitOf(n: nat, place: nat): sextet {
    if place == 0 then n / 262144 % 64
    else if place == 1 then n / 4096 % 64
    else if place == 2 then n / 64 % 64
    else n % 64
  }

  lemma DigitOfGroup(q: seq<sextet>, k: nat)
    requires k < |q|
    ensures q[k] == DigitOf(SextetGroup(q, k / 4), k % 4)
  {
    var g := k / 4;
    SixBitDigits(At(q, 4 * g), At(q, 4 * g + 1), At(q, 4 * g + 2), At(q, 4 * g + 3));
    assert k == 4 * g + k % 4 && q[k] == At(q, k);
  }

  /** The URL-safe text: ceil(4n/3) letters of its alphabet and nothing else. */
  lemma UrlLetters(b: seq<byte>)
    ensures |UrlEncode(b)| == (4 * |b| + 2) / 3
    ensures forall k :: 0 <= k < |UrlEncode(b)| ==> UrlEncode(b)[k] == URL[SixBits(b, k)]
  {
    UrlEncodeIs(b);
    UrlEncodeShape(b);
    forall k | 0 <= k < |UrlEncode(b)| ensures UrlEncode(b)[k] == URL[SixBits(b, k)] {
      SextetAt(b, k);
      TableIs(Sextets(b)[k]);
    }
  }

  /** The standard text: the same number of letters of the standard alphabet, and '=' up to a multiple of four. */
  lemma StandardLetters(b: seq<byte>)
    ensures |Encode(b)| == (|b| + 2) / 3 * 4
    ensures var n := (4 * |b| + 2) / 3;
            forall k :: 0 <= k < |Encode(b)| ==> Encode(b)[k] == if k < n then STANDARD[SixBits(b, k)] else '='
  {
    UnpaddedShape(b);
    StandardLength(|b| / 3, |b| % 3);
    UnpaddedLetters(b);
  }

  lemma UnpaddedLetters(b: seq<byte>)
    ensures forall k :: 0 <= k < |Unpadded(b)| ==> Unpadded(b)[k] == STANDARD[SixBits(b, k)]
  {
    forall k | 0 <= k < |Unpadded(b)| ensures Unpadded(b)[k] == STANDARD[SixBits(b, k)] {
      SextetAt(b, k);
      TableIs(Sextets(b)[k]);
    }
  }

  lemma StandardLength(k: nat, m: nat)
    requires m < 3
    ensures var n := 3 * k + m; (4 * n + 2) / 3 + (3 - m) % 3 == (n + 2) / 3 * 4
  {
    assert (4 * (3 * k + m) + 2) / 3 == 4 * k + (4 * m + 2) / 3;
    assert (3 * k + m + 2) / 3 == k + (m + 2) / 3;
  }

  // ---- Decoding ----

  lemma {:induction false} BytesLength(q: seq<sextet>)
    requires |q| % 4 != 1
    ensures |Bytes(q)| == |q| * 3 / 4
  {
    if |q| >= 4 {
      BytesLength(q[4..]);
      assert |q| * 3 / 4 == 3 + (|q| - 4) * 3 / 4;
    }
  }

  /** Byte `k` is the eight bits `8 * k` onwards of the sextets. */
  function EightBits(q: seq<nat>, k: nat): nat {
    var g := k / 3 * 4;
    if k % 3 == 0 then At(q, g) * 4 + At(q, g + 1) / 16
    else if k % 3 == 1 then At(q, g + 1) % 16 * 16 + At(q, g + 2) / 4
    else At(q, g + 2) % 4 * 64 + At(q, g + 3)
  }

  lemma {:induction false} ByteAt(q: seq<sextet>, k: nat)
    requires |q| % 4 != 1 && k < |Bytes(q)|
    ensures Bytes(q)[k] == EightBits(q, k)
  {
    if k >= 3 {
      ByteAt(q[4..], k - 3);
      forall i: nat | i >= 4 ensures At(q, i) == At(q[4..], i - 4) {
      }
      assert k / 3 == (k - 3) / 3 + 1;
    }
  }

  /** `at` are the positions of the characters that are not skipped. */
  ghost predicate KeptAt(s: string, skipped: set<char>, at: seq<nat>) {
    Rising(at, |s|) && forall k: nat :: k < |s| ==> (k in at <==> s[k] !in skipped)
  }

  /** What atob and Go's decoder skip. */
  const SPACES: set<char> := {9 as char, 10 as char, 12 as char, 13 as char, 32 as char}
  const BREAKS: set<char> := {10 as char, 13 as char}

  /** The kept characters are `n` letters, the last of them no '=', followed by '=' only. */
  predicate Lettered(s: string, at: seq<nat>, n: nat)
    requires Rising(at, |s|)
  {
    && n <= |at| && (n > 0 ==> s[at[n - 1]] != '=') && forall i :: n <= i < |at| ==> s[at[i]] == '='
  }

  /** The letter stands for the six bits `v` in the standard alphabet, or in the URL-safe one if that is read too. */
  predicate Letter(c: char, v: nat, url: bool) {
    v < 64 && (c == STANDARD[v] || (url && c == URL[v]))
  }

  /** The kept letters stand for the sextets. */
  predicate Spell(s: string, at: seq<nat>, n: nat, q: seq<nat>, url: bool)
    requires Rising(at, |s|) && n <= |at|
  {
    |q| == n && forall i :: 0 <= i < n ==> Letter(s[at[i]], q[i], url)
  }

  /** The bytes are those of the sextets. */
  predicate Spelt(q: seq<nat>, b: seq<byte>) {
    |b| == |q| * 3 / 4 && forall k :: 0 <= k < |b| ==> b[k] == EightBits(q, k)
  }

  /** The characters at the positions. */
  function Pick(s: string, at: seq<nat>): string
    requires Rising(at, |s|)
  {
    seq(|at|, i requires 0 <= i < |at| => s[at[i]])
  }

  function Further(at: seq<nat>): seq<nat> {
    seq(|at|, i requires 0 <= i < |at| => at[i] + 1)
  }

  lemma FurtherKept(s: string, skipped: set<char>, rest: seq<nat>)
    requires s != "" && KeptAt(s[1..], skipped, rest)
    ensures Rising(Further(rest), |s|) && Pick(s, Further(rest)) == Pick(s[1..], rest)
    ensures forall k: nat :: k < |s| ==> (k in Further(rest) <==> k > 0 && s[k] !in skipped)
  {
    forall k: nat | k < |s| ensures k in Further(rest) <==> k > 0 && s[k] !in skipped {
      if k > 0 && k - 1 in rest {
        var i :| 0 <= i < |rest| && rest[i] == k - 1;
        assert Further(rest)[i] == k;
      }
    }
  }

  /** The positions one further, and the first one if its character is kept. */
  lemma Moved(s: string, skipped: set<char>, rest: seq<nat>) returns (at: seq<nat>)
    requires s != "" && KeptAt(s[1..], skipped, rest)
    ensures KeptAt(s, skipped, at)
    ensures Pick(s, at) == (if s[0] in skipped then "" else [s[0]]) + Pick(s[1..], rest)
  {
    FurtherKept(s, skipped, rest);
    at := (if s[0] in skipped then [] else [0]) + Further(rest);
    assert forall k: nat :: k in at <==> k in Further(rest) || (k == 0 && s[0] !in skipped);
  }

  lemma {:induction false} WithoutKeeps(s: string, skip: char -> bool, skipped: set<char>) returns (at: seq<nat>)
    requires forall c :: skip(c) <==> c in skipped
    ensures KeptAt(s, skipped, at) && Without(s, skip) == Pick(s, at)
  {
    if s == "" {
      at := [];
    } else {
      var rest := WithoutKeeps(s[1..], skip, skipped);
      at := Moved(s, skipped, rest);
    }
  }

  lemma KeptIsPick(s: string, skip: char -> bool, skipped: set<char>, at: seq<nat>)
    requires (forall c :: skip(c) <==> c in skipped) && KeptAt(s, skipped, at)
    ensures Without(s, skip) == Pick(s, at)
  {
    var own := WithoutKeeps(s, skip, skipped);
    forall k: nat ensures k in own <==> k in at {
    }
    SamePositions(own, at, |s|);
  }

  lemma {:induction false} StripsTo(s: string, n: nat)
    requires n <= |s| && (n > 0 ==> s[n - 1] != '=') && forall i :: n <= i < |s| ==> s[i] == '='
    ensures StripTrailing(s, '=') == s[..n]
  {
    if n < |s| {
      StripsTo(s[..|s| - 1], n);
    } else {
      assert s[..n] == s;
    }
  }

  /** The letter as the standard alphabet has it. */
  function Plain(c: char, url: bool): char {
    if url && c == '-' then '+' else if url && c == '_' then '/' else c
  }

  lemma LetterIs(c: char, v: nat, url: bool)
    ensures Letter(c, v, url) <==> InAlphabet(Plain(c, url)) && ValueOf(Plain(c, url)) == v
  {
    if v < 64 {
      TableIs(v);
      CharValue(v);
    }
  }

  /** The first `n` kept characters are letters. */
  ghost predicate AllLetters(s: string, at: seq<nat>, n: nat, url: bool)
    requires Rising(at, |s|) && n <= |at|
  {
    forall i :: 0 <= i < n ==> IsLetter(s[at[i]], url)
  }

  ghost predicate IsLetter(c: char, url: bool) {
    exists v: nat :: Letter(c, v, url)
  }

  lemma IsLetterIff(c: char, url: bool)
    ensures IsLetter(c, url) <==> InAlphabet(Plain(c, url))
  {
    if InAlphabet(Plain(c, url)) { LetterIs(c, ValueOf(Plain(c, url)), url); }
    if v: nat :| Letter(c, v, url) { LetterIs(c, v, url); }
  }

  lemma CoreLetters(s: string, at: seq<nat>, n: nat, url: bool, core: string)
    requires Rising(at, |s|) && n <= |at| && |core| == n
    requires forall i :: 0 <= i < n ==> core[i] == Plain(s[at[i]], url)
    ensures AllIn(core) <==> AllLetters(s, at, n, url)
    ensures AllIn(core) ==> forall q :: Spell(s, at, n, q, url) ==> q == Base64.Values(core)
  {
    forall i | 0 <= i < n ensures InAlphabet(core[i]) <==> IsLetter(s[at[i]], url) {
      IsLetterIff(s[at[i]], url);
    }
    if AllIn(core) {
      forall q | Spell(s, at, n, q, url) ensures q == Base64.Values(core) {
        forall i | 0 <= i < n ensures q[i] == Base64.Values(core)[i] { LetterIs(s[at[i]], q[i], url); }
      }
    }
  }

  lemma GroupsSpelt(core: string)
    requires AllIn(core) && |core| % 4 != 1
    ensures Spelt(Base64.Values(core), DecodeGroups(core))
  {
    var q := Base64.Values(core);
    BytesLength(q);
    forall k | 0 <= k < |Bytes(q)| ensures Bytes(q)[k] == EightBits(q, k) { ByteAt(q, k); }
  }

  /** Every text has such positions and such a number of letters. */
  lemma {:induction false} SomeReading(s: string, skip: char -> bool, skipped: set<char>)
      returns (at: seq<nat>, n: nat)
    requires forall c :: skip(c) <==> c in skipped
    ensures KeptAt(s, skipped, at) && Lettered(s, at, n)
  {
    at := WithoutKeeps(s, skip, skipped);
    n := |at|;
    while n > 0 && s[at[n - 1]] == '='
      invariant n <= |at| && forall i :: n <= i < |at| ==> s[at[i]] == '='
    {
      n := n - 1;
    }
  }

  /** What the browser decodes, for any value at all: the five spaces are skipped, the letters may be of both
      alphabets, '=' may only stand at the end, and the padding is none or fills the last group. The bytes are the
      letters' bits. */
  lemma UrlDecodes(value: string, at: seq<nat>, n: nat)
    requires KeptAt(value, SPACES, at) && Lettered(value, at, n)
    ensures UrlDecode(value).Some? <==>
            AllLetters(value, at, n, true) && Fits(n, |at| - n + (4 - |value| % 4) % 4)
    ensures UrlDecode(value).Some? ==>
            forall q :: Spell(value, at, n, q, true) ==> Spelt(q, UrlDecode(value).value)
  {
    CoreIs(value, at, n);
    CoreLetters(value, at, n, true, Core(value));
    UrlDecodeExactly(value);
    if UrlDecode(value).Some? { GroupsSpelt(Core(value)); }
  }

  lemma CoreIs(value: string, at: seq<nat>, n: nat)
    requires KeptAt(value, SPACES, at) && Lettered(value, at, n)
    ensures |Kept(value)| == |at| && |Core(value)| == n
    ensures forall i :: 0 <= i < n ==> Core(value)[i] == Plain(value[at[i]], true)
  {
    var p := FromUrl(value);
    forall i | 0 <= i < |value| ensures p[i] == Plain(value[i], true) && (p[i] in SPACES <==> value[i] in SPACES) {
    }
    KeptIsPick(p, HtmlSpace, SPACES, at);
    assert forall i :: 0 <= i < |at| ==> Kept(value)[i] == Plain(value[at[i]], true);
    StripsTo(Kept(value), n);
  }

  /** What Go decodes: line breaks are skipped, the letters are of the standard alphabet, and the whole is a multiple of
      four with at most two '=' at the end. */
  lemma GoDecodes(s: string, at: seq<nat>, n: nat)
    requires KeptAt(s, BREAKS, at) && Lettered(s, at, n)
    ensures GoDecode(s).Some? <==> AllLetters(s, at, n, false) && |at| % 4 == 0 && |at| - n <= 2
    ensures GoDecode(s).Some? ==> forall q :: Spell(s, at, n, q, false) ==> Spelt(q, GoDecode(s).value)
  {
    KeptIsPick(s, LineBreak, BREAKS, at);
    var kept := Without(s, LineBreak);
    var core := kept[..n];
    CoreLetters(s, at, n, false, core);
    GoCore(kept, n);
    if GoDecode(s).Some? { GroupsSpelt(core); }
  }

  lemma GoCore(kept: string, n: nat)
    requires n <= |kept| && (n > 0 ==> kept[n - 1] != '=') && forall i :: n <= i < |kept| ==> kept[i] == '='
    ensures |kept| % 4 == 0 && AllIn(StripPadding(kept)) <==> |kept| % 4 == 0 && |kept| - n <= 2 && AllIn(kept[..n])
    ensures |kept| % 4 == 0 && AllIn(StripPadding(kept)) ==> StripPadding(kept) == kept[..n] && n % 4 != 1
  {
    var e := |kept| - n;
    assert kept == kept[..n] + Equals(e);
    StripPaddingIs(kept[..n], e);
    assert !InAlphabet('=');
  }
}
