/** Base64 (RFC 4648 section 4) as btoa, atob and Go's StdEncoding implement it, and the unpadded
    URL-safe form (section 5) the browser client exchanges with the passkey endpoints. */
module Base64 {
  import opened Common

  type byte = x: int | 0 <= x < 256
  type sextet = x: int | 0 <= x < 64

  function CharOf(i: sextet): char {
    if i < 26 then 'A' + i as char
    else if i < 52 then 'a' + (i - 26) as char
    else if i < 62 then '0' + (i - 52) as char
    else if i == 62 then '+' else '/'
  }

  predicate InAlphabet(c: char) {
    'A' <= c <= 'Z' || 'a' <= c <= 'z' || '0' <= c <= '9' || c == '+' || c == '/'
  }

  function ValueOf(c: char): (i: sextet)
    requires InAlphabet(c)
    ensures CharOf(i) == c
  {
    if 'A' <= c <= 'Z' then (c - 'A') as int
    else if 'a' <= c <= 'z' then (c - 'a') as int + 26
    else if '0' <= c <= '9' then (c - '0') as int + 52
    else if c == '+' then 62 else 63
  }

  lemma CharValue(i: sextet)
    ensures InAlphabet(CharOf(i)) && ValueOf(CharOf(i)) == i
  {
  }

  /** Three bytes are regrouped as four sextets; one or two left over as two or three. */
  function Sextets(b: seq<byte>): seq<sextet> {
    if b == [] then []
    else if |b| == 1 then [b[0] / 4, b[0] % 4 * 16]
    else if |b| == 2 then [b[0] / 4, b[0] % 4 * 16 + b[1] / 16, b[1] % 16 * 4]
    else [b[0] / 4, b[0] % 4 * 16 + b[1] / 16, b[1] % 16 * 4 + b[2] / 64, b[2] % 64] + Sextets(b[3..])
  }

  /** Four sextets make three bytes; a shorter last group drops its spare bits. */
  function Bytes(q: seq<sextet>): seq<byte>
    requires |q| % 4 != 1
  {
    if |q| < 2 then []
    else
      var first: byte := (q[0] as int) * 4 + q[1] / 16;
      if |q| == 2 then [first]
      else
        var second: byte := (q[1] as int) % 16 * 16 + q[2] / 4;
        if |q| == 3 then [first, second]
        else
          var third: byte := (q[2] as int) % 4 * 64 + q[3];
          [first, second, third] + Bytes(q[4..])
  }

  /** The bits a short last group leaves unused are zero. */
  predicate SpareBitsZero(q: seq<sextet>) {
    (|q| % 4 == 2 ==> q[|q| - 1] % 16 == 0) && (|q| % 4 == 3 ==> q[|q| - 1] % 4 == 0)
  }

  lemma {:induction false} SextetsLength(b: seq<byte>)
    ensures |Sextets(b)| == (4 * |b| + 2) / 3
    ensures |Sextets(b)| % 4 != 1
  {
    if |b| >= 3 {
      SextetsLength(b[3..]);
      var n := |b| - 3;
      assert (4 * (n + 3) + 2) / 3 == 4 + (4 * n + 2) / 3;
    }
  }

  lemma SpareBitsOfTail(q: seq<sextet>)
    requires |q| >= 4 && SpareBitsZero(q[4..])
    ensures SpareBitsZero(q)
  {
    if |q| > 4 { assert q[|q| - 1] == q[4..][|q| - 5]; }
  }

  lemma {:induction false} SextetsShape(b: seq<byte>)
    ensures |Sextets(b)| == (4 * |b| + 2) / 3
    ensures |Sextets(b)| % 4 != 1
    ensures SpareBitsZero(Sextets(b))
  {
    SextetsLength(b);
    if |b| >= 3 {
      SextetsShape(b[3..]);
      assert Sextets(b)[4..] == Sextets(b[3..]);
      SpareBitsOfTail(Sextets(b));
    }
  }

  lemma {:induction false} SextetsRoundTrip(b: seq<byte>)
    ensures |Sextets(b)| % 4 != 1 && Bytes(Sextets(b)) == b
  {
    SextetsShape(b);
    if |b| >= 3 {
      assert Sextets(b)[4..] == Sextets(b[3..]);
      SextetsRoundTrip(b[3..]);
      assert b == [b[0], b[1], b[2]] + b[3..];
    }
  }

  lemma {:induction false} BytesInverse(q: seq<sextet>)
    requires |q| % 4 != 1 && SpareBitsZero(q)
    ensures Sextets(Bytes(q)) == q
  {
    if |q| >= 4 {
      assert SpareBitsZero(q[4..]);
      BytesInverse(q[4..]);
      FirstFour(q);
    } else {
      LastSextets(q);
    }
  }

  lemma {:induction false} LastSextets(q: seq<sextet>)
    requires |q| < 4 && |q| != 1 && SpareBitsZero(q)
    ensures Sextets(Bytes(q)) == q
  {
    if |q| == 3 {
      PackedGroup(q[0], q[1], q[2], 0);
      assert q == [q[0], q[1], q[2]];
    } else if |q| == 2 {
      PackedGroup(q[0], q[1], 0, 0);
      assert q == [q[0], q[1]];
    }
  }

  /** Four sextets survive being packed into three bytes. */
  lemma PackedGroup(q0: sextet, q1: sextet, q2: sextet, q3: sextet)
    ensures var x, y, z := (q0 as int) * 4 + q1 / 16, (q1 as int) % 16 * 16 + q2 / 4, (q2 as int) % 4 * 64 + q3;
            && 0 <= x < 256 && 0 <= y < 256 && 0 <= z < 256
            && x / 4 == q0 && x % 4 * 16 + y / 16 == q1 && y % 16 * 4 + z / 64 == q2 && z % 64 == q3
  {
  }

  lemma {:induction false} FirstFour(q: seq<sextet>)
    requires |q| >= 4 && |q| % 4 != 1
    ensures Sextets(Bytes(q)) == q[..4] + Sextets(Bytes(q[4..]))
  {
    var b := Bytes(q);
    PackedGroup(q[0], q[1], q[2], q[3]);
    assert b[3..] == Bytes(q[4..]);
    assert q[..4] == [q[0], q[1], q[2], q[3]];
  }

  function At(s: seq<nat>, i: nat): nat {
    if i < |s| then s[i] else 0
  }

  /** Group `g` of three bytes as a 24-bit number, missing bytes being zero. */
  function ByteGroup(b: seq<byte>, g: nat): nat {
    At(b, 3 * g) * 65536 + At(b, 3 * g + 1) * 256 + At(b, 3 * g + 2)
  }

  /** Group `g` of four sextets as a 24-bit number, missing sextets being zero. */
  function SextetGroup(q: seq<sextet>, g: nat): nat {
    At(q, 4 * g) * 262144 + At(q, 4 * g + 1) * 4096 + At(q, 4 * g + 2) * 64 + At(q, 4 * g + 3)
  }

  /** Splitting a 24-bit number made of bytes into four 6-bit digits. */
  lemma SplitGroup(b0: byte, b1: byte, b2: byte)
    ensures b0 / 4 * 262144 + (b0 % 4 * 16 + b1 / 16) * 4096 + (b1 % 16 * 4 + b2 / 64) * 64 + b2 % 64
         == b0 * 65536 + b1 * 256 + b2
  {
    assert b0 == b0 / 4 * 4 + b0 % 4;
    assert b1 == b1 / 16 * 16 + b1 % 16;
    assert b2 == b2 / 64 * 64 + b2 % 64;
  }

  lemma FirstGroup(b: seq<byte>)
    ensures SextetGroup(Sextets(b), 0) == ByteGroup(b, 0)
  {
    var b0: byte, b1: byte, b2: byte := At(b, 0), At(b, 1), At(b, 2);
    SplitGroup(b0, b1, b2);
    var q := Sextets(b);
    assert At(q, 0) == b0 / 4;
    assert At(q, 1) == b0 % 4 * 16 + b1 / 16;
    assert At(q, 2) == b1 % 16 * 4 + b2 / 64;
    assert At(q, 3) == b2 % 64;
  }

  lemma {:induction false} NextGroup(b: seq<byte>, g: nat)
    requires |b| >= 3 && g > 0
    ensures SextetGroup(Sextets(b), g) == SextetGroup(Sextets(b[3..]), g - 1)
    ensures ByteGroup(b, g) == ByteGroup(b[3..], g - 1)
  {
    var q, rest := Sextets(b), Sextets(b[3..]);
    forall i: nat | i >= 4 ensures At(q, i) == At(rest, i - 4) {
    }
    forall i: nat | i >= 3 ensures At(b, i) == At(b[3..], i - 3) {
    }
  }

  lemma {:induction false} NoGroup(b: seq<byte>, g: nat)
    requires |b| < 3 && g > 0
    ensures SextetGroup(Sextets(b), g) == ByteGroup(b, g) == 0
  {
  }

  /** RFC 4648 section 4: each 24-bit input group is four 6-bit groups, padded with zero bits on the right. */
  lemma {:induction false} SextetsKeepGroups(b: seq<byte>, g: nat)
    ensures SextetGroup(Sextets(b), g) == ByteGroup(b, g)
  {
    if g == 0 {
      FirstGroup(b);
    } else if |b| < 3 {
      NoGroup(b, g);
    } else {
      NextGroup(b, g);
      SextetsKeepGroups(b[3..], g - 1);
    }
  }

  function Chars(q: seq<sextet>): string {
    seq(|q|, i requires 0 <= i < |q| => CharOf(q[i]))
  }

  predicate AllIn(s: string) {
    forall i :: 0 <= i < |s| ==> InAlphabet(s[i])
  }

  function Values(s: string): seq<sextet>
    requires AllIn(s)
  {
    seq(|s|, i requires 0 <= i < |s| => ValueOf(s[i]))
  }

  lemma CharsValues(q: seq<sextet>)
    ensures AllIn(Chars(q)) && Values(Chars(q)) == q
  {
    forall i | 0 <= i < |q| ensures InAlphabet(Chars(q)[i]) && ValueOf(Chars(q)[i]) == q[i] { CharValue(q[i]); }
  }

  function Unpadded(b: seq<byte>): string {
    Chars(Sextets(b))
  }

  function DecodeGroups(s: string): seq<byte>
    requires AllIn(s) && |s| % 4 != 1
  {
    Bytes(Values(s))
  }

  lemma UnpaddedShape(b: seq<byte>)
    ensures AllIn(Unpadded(b)) && SpareBitsZero(Values(Unpadded(b)))
    ensures |Unpadded(b)| == (4 * |b| + 2) / 3
    ensures |Unpadded(b)| % 4 != 1
  {
    SextetsShape(b);
    CharsValues(Sextets(b));
  }

  lemma GroupsRoundTrip(b: seq<byte>)
    ensures AllIn(Unpadded(b)) && |Unpadded(b)| % 4 != 1
    ensures DecodeGroups(Unpadded(b)) == b
  {
    SextetsRoundTrip(b);
    CharsValues(Sextets(b));
  }

  lemma GroupsInverse(s: string)
    requires AllIn(s) && |s| % 4 != 1 && SpareBitsZero(Values(s))
    ensures Unpadded(DecodeGroups(s)) == s
  {
    BytesInverse(Values(s));
  }

  function Equals(n: nat): string {
    seq(n, i => '=')
  }

  /** The padded encoding of section 4. */
  function Encode(b: seq<byte>): string {
    Unpadded(b) + Equals((3 - |b| % 3) % 3)
  }

  /** At most two trailing '=' are dropped when the length is a multiple of four. */
  function StripPadding(s: string): string {
    if |s| % 4 == 0 && |s| >= 1 && s[|s| - 1] == '=' then
      if s[|s| - 2] == '=' then s[..|s| - 2] else s[..|s| - 1]
    else s
  }

  lemma StripEquals(core: string)
    requires (forall i :: 0 <= i < |core| ==> core[i] != '=') && |core| % 4 != 1
    ensures StripPadding(core + Equals((4 - |core| % 4) % 4)) == core
  {
    var n := (4 - |core| % 4) % 4;
    var s := core + Equals(n);
    if n == 0 {
      assert s == core;
    } else {
      assert s[..|core|] == core;
      assert s[|s| - 1] == '=' && s[|s| - 2] == if n == 2 then '=' else core[|core| - 1];
    }
  }

  predicate HtmlSpace(c: char) {
    c == '\t' || c == '\n' || c == 0x0C as char || c == '\r' || c == ' '
  }

  predicate LineBreak(c: char) {
    c == '\r' || c == '\n'
  }

  function Without(s: string, skip: char -> bool): string {
    if s == "" then "" else (if skip(s[0]) then "" else [s[0]]) + Without(s[1..], skip)
  }

  lemma {:induction false} WithoutNone(s: string, skip: char -> bool)
    requires forall i :: 0 <= i < |s| ==> !skip(s[i])
    ensures Without(s, skip) == s
  {
    if s != "" {
      WithoutNone(s[1..], skip);
    }
  }

  /** atob as bytes: white space is ignored, padding is optional. */
  function Atob(s: string): Option<seq<byte>> {
    var core := StripPadding(Without(s, HtmlSpace));
    if AllIn(core) && |core| % 4 != 1 then Some(DecodeGroups(core)) else None
  }

  /** Go's base64.StdEncoding.DecodeString: line breaks are ignored, padding is required. */
  function GoDecode(s: string): Option<seq<byte>> {
    var kept := Without(s, LineBreak);
    var core := StripPadding(kept);
    if |kept| % 4 == 0 && AllIn(core) then Some(DecodeGroups(core)) else None
  }

  lemma PadCount(b: seq<byte>)
    ensures (4 - |Unpadded(b)| % 4) % 4 == (3 - |b| % 3) % 3
  {
    UnpaddedShape(b);
    GroupArithmetic(|b| / 3, |b| % 3);
  }

  lemma GroupArithmetic(k: nat, m: nat)
    requires m < 3
    ensures (4 - (4 * (3 * k + m) + 2) / 3 % 4) % 4 == (3 - m) % 3
  {
    assert (4 * (3 * k + m) + 2) / 3 == 4 * k + (4 * m + 2) / 3;
  }

  lemma EncodeShape(b: seq<byte>)
    ensures |Encode(b)| % 4 == 0 && StripPadding(Encode(b)) == Unpadded(b)
    ensures forall i :: 0 <= i < |Encode(b)| ==> InAlphabet(Encode(b)[i]) || Encode(b)[i] == '='
  {
    UnpaddedShape(b);
    PadCount(b);
    StripEquals(Unpadded(b));
  }

  /** What a bundle carries for a blob decodes to the blob. */
  lemma GoRoundTrip(b: seq<byte>)
    ensures GoDecode(Encode(b)) == Some(b)
  {
    EncodeShape(b);
    WithoutNone(Encode(b), LineBreak);
    GroupsRoundTrip(b);
  }

  function ReplaceAll(s: string, before: char, after: char): (r: string)
    ensures |r| == |s|
    ensures forall i :: 0 <= i < |s| ==> r[i] == if s[i] == before then after else s[i]
  {
    seq(|s|, i requires 0 <= i < |s| => if s[i] == before then after else s[i])
  }

  function StripTrailing(s: string, c: char): (r: string)
    ensures |r| <= |s|
  {
    if s != "" && s[|s| - 1] == c then StripTrailing(s[..|s| - 1], c) else s
  }

  lemma {:induction false} StripTrailingEquals(core: string, n: nat)
    requires core == "" || core[|core| - 1] != '='
    ensures StripTrailing(core + Equals(n), '=') == core
  {
    if n > 0 {
      assert (core + Equals(n))[..|core| + n - 1] == core + Equals(n - 1);
      StripTrailingEquals(core, n - 1);
    } else {
      assert core + Equals(0) == core;
    }
  }

  function ToUrl(s: string): string {
    ReplaceAll(ReplaceAll(s, '+', '-'), '/', '_')
  }

  function FromUrl(s: string): string {
    ReplaceAll(ReplaceAll(s, '-', '+'), '_', '/')
  }

  predicate UrlSafe(c: char) {
    'A' <= c <= 'Z' || 'a' <= c <= 'z' || '0' <= c <= '9' || c == '-' || c == '_'
  }

  function UrlEncode(b: seq<byte>): string {
    StripTrailing(ToUrl(Encode(b)), '=')
  }

  function UrlDecode(value: string): Option<seq<byte>> {
    var padded := FromUrl(value);
    Atob(padded + if |padded| % 4 == 0 then "" else Equals(4 - |padded| % 4))
  }

  /** The encoded form is the unpadded encoding with the two characters of section 5 exchanged. */
  lemma UrlEncodeIs(b: seq<byte>)
    ensures UrlEncode(b) == ToUrl(Unpadded(b))
    ensures FromUrl(UrlEncode(b)) == Unpadded(b)
  {
    UnpaddedShape(b);
    var n := (3 - |b| % 3) % 3;
    assert ToUrl(Encode(b)) == ToUrl(Unpadded(b)) + Equals(n);
    StripTrailingEquals(ToUrl(Unpadded(b)), n);
  }

  /** URL-safe characters only, no padding, length ceil(4n/3), never 1 modulo 4. */
  lemma UrlEncodeShape(b: seq<byte>)
    ensures forall i :: 0 <= i < |UrlEncode(b)| ==> UrlSafe(UrlEncode(b)[i])
    ensures |UrlEncode(b)| == (4 * |b| + 2) / 3
    ensures |UrlEncode(b)| % 4 != 1
  {
    UrlEncodeIs(b);
    UnpaddedShape(b);
  }

  /** The value's characters in the standard alphabet, without white space. */
  function Kept(value: string): string {
    Without(FromUrl(value), HtmlSpace)
  }

  /** Those before any trailing '='. */
  function Core(value: string): string {
    StripTrailing(Kept(value), '=')
  }

  /** The trailing '=' of the value itself and those the decoder adds, which it counts before white space is ignored. */
  function Padding(value: string): nat {
    |Kept(value)| - |Core(value)| + (4 - |value| % 4) % 4
  }

  lemma {:induction false} StripTrailingIs(s: string)
    ensures s == StripTrailing(s, '=') + Equals(|s| - |StripTrailing(s, '=')|)
    ensures StripTrailing(s, '=') == "" || StripTrailing(s, '=')[|StripTrailing(s, '=')| - 1] != '='
  {
    if s != "" && s[|s| - 1] == '=' {
      StripTrailingIs(s[..|s| - 1]);
    }
  }

  lemma {:induction false} WithoutAppend(s: string, n: nat)
    ensures Without(s + Equals(n), HtmlSpace) == Without(s, HtmlSpace) + Equals(n)
  {
    if s == "" {
      assert s + Equals(n) == Equals(n);
      WithoutNone(Equals(n), HtmlSpace);
    } else {
      assert (s + Equals(n))[1..] == s[1..] + Equals(n);
      WithoutAppend(s[1..], n);
    }
  }

  lemma {:induction false} EqualsJoin(core: string, m: nat, n: nat)
    ensures core + Equals(m) + Equals(n) == core + Equals(m + n)
  {
  }

  /** Stripping leaves a text without '=' exactly when there is none, or one or two that fill the last group. */
  lemma {:induction false} StripPaddingIs(core: string, e: nat)
    requires core == "" || core[|core| - 1] != '='
    ensures e == 0 || (e <= 2 && (|core| + e) % 4 == 0) ==> StripPadding(core + Equals(e)) == core
    ensures e > 0 && !(e <= 2 && (|core| + e) % 4 == 0) ==> '=' in StripPadding(core + Equals(e))
  {
    var s := core + Equals(e);
    if e == 0 {
      assert s == core;
    } else {
      assert s[|s| - 1] == '=' && s[..|core|] == core;
      assert s[|core|] == '=';
      assert |StripPadding(s)| > |core| ==> StripPadding(s)[|core|] == '=';
    }
  }

  lemma PadIs(length: nat)
    ensures (if length % 4 == 0 then "" else Equals(4 - length % 4)) == Equals((4 - length % 4) % 4)
  {
  }

  lemma {:induction false} KeptIs(value: string)
    ensures Kept(value) == Core(value) + Equals(|Kept(value)| - |Core(value)|)
  {
    StripTrailingIs(Kept(value));
  }

  /** What atob is left with: the core and all the padding. */
  lemma {:induction false} DecoderInput(value: string)
    ensures var p := FromUrl(value);
            Without(p + if |p| % 4 == 0 then "" else Equals(4 - |p| % 4), HtmlSpace) == Core(value)
                + Equals(Padding(value))
  {
    var p := FromUrl(value);
    var m, n := |Kept(value)| - |Core(value)|, (4 - |value| % 4) % 4;
    calc {
      Without(p + if |p| % 4 == 0 then "" else Equals(4 - |p| % 4), HtmlSpace);
      { PadIs(|p|); }
      Without(p + Equals(n), HtmlSpace);
      { WithoutAppend(p, n); }
      Kept(value) + Equals(n);
      { KeptIs(value); }
      Core(value) + Equals(m) + Equals(n);
      { EqualsJoin(Core(value), m, n); }
      Core(value) + Equals(m + n);
    }
  }

  /** The padding is none, or fills the last group. */
  predicate Fits(length: nat, padding: nat) {
    if padding == 0 then length % 4 != 1 else padding <= 2 && (length + padding) % 4 == 0
  }

  lemma {:induction false} PaddedDecodes(core: string, e: nat)
    requires core == "" || core[|core| - 1] != '='
    ensures var c := StripPadding(core + Equals(e));
            && (AllIn(c) && |c| % 4 != 1 <==> AllIn(core) && Fits(|core|, e))
            && (AllIn(c) && |c| % 4 != 1 ==> c == core)
  {
    StripPaddingIs(core, e);
    assert !InAlphabet('=');
  }

  /** For any value at all: it decodes exactly when what is left of white space and trailing '=' is in one of the two
      alphabets and its length with the padding fits, and then to the bytes of that text. */
  lemma {:induction false} UrlDecodeExactly(value: string)
    ensures UrlDecode(value).Some? <==> AllIn(Core(value)) && Fits(|Core(value)|, Padding(value))
    ensures UrlDecode(value).Some? ==> |Core(value)| % 4 != 1 && UrlDecode(value).value == DecodeGroups(Core(value))
  {
    DecoderInput(value);
    StripTrailingIs(Kept(value));
    PaddedDecodes(Core(value), Padding(value));
  }

  /** Without white space or padding of its own, a value decodes exactly when its characters are
      in one of the two alphabets and its length is not 1 modulo 4. */
  lemma {:induction false} UrlDecodePlain(value: string)
    requires forall i :: 0 <= i < |value| ==> value[i] != '=' && !HtmlSpace(value[i])
    ensures UrlDecode(value).Some? <==> AllIn(FromUrl(value)) && |value| % 4 != 1
    ensures UrlDecode(value).Some? ==> UrlDecode(value).value == DecodeGroups(FromUrl(value))
  {
    PlainCore(value);
    PaddingFits(|value|);
    UrlDecodeExactly(value);
  }

  lemma PaddingFits(length: nat)
    ensures Fits(length, (4 - length % 4) % 4) <==> length % 4 != 1
  {
  }

  lemma {:induction false} PlainCore(value: string)
    requires forall i :: 0 <= i < |value| ==> value[i] != '=' && !HtmlSpace(value[i])
    ensures Core(value) == FromUrl(value) && Padding(value) == (4 - |value| % 4) % 4
  {
    WithoutNone(FromUrl(value), HtmlSpace);
    assert value != "" ==> FromUrl(value)[|value| - 1] != '=';
  }

  lemma UrlRoundTrip(b: seq<byte>)
    ensures UrlDecode(UrlEncode(b)) == Some(b)
  {
    UrlEncodeIs(b);
    UrlEncodeShape(b);
    UnpaddedShape(b);
    UrlDecodePlain(UrlEncode(b));
    GroupsRoundTrip(b);
  }

  /** The strings the encoder can produce. */
  predicate Canonical(s: string) {
    && (forall i :: 0 <= i < |s| ==> UrlSafe(s[i]))
    && |s| % 4 != 1
    && AllIn(FromUrl(s)) && SpareBitsZero(Values(FromUrl(s)))
  }

  /** Encoder and decoder are inverse bijections between byte strings and canonical strings. */
  lemma CanonicalIffEncoded(s: string)
    ensures Canonical(s) <==> exists b :: UrlEncode(b) == s
    ensures Canonical(s) ==> UrlDecode(s).Some? && UrlEncode(UrlDecode(s).value) == s
  {
    if Canonical(s) {
      UrlDecodePlain(s);
      GroupsInverse(FromUrl(s));
      UrlEncodeIs(DecodeGroups(FromUrl(s)));
      assert ToUrl(FromUrl(s)) == s;
    }
    if b :| UrlEncode(b) == s {
      UrlEncodeShape(b);
      UrlEncodeIs(b);
      UnpaddedShape(b);
    }
  }

  /** A binary string: one character per byte, as String.fromCharCode makes it. */
  predicate IsBinary(s: string) {
    forall i :: 0 <= i < |s| ==> s[i] < 256 as char
  }

  function BytesOf(s: string): (b: seq<byte>)
    requires IsBinary(s)
    ensures |b| == |s|
  {
    seq(|s|, i requires 0 <= i < |s| => s[i] as int)
  }

  function BinaryOf(b: seq<byte>): (s: string)
    ensures IsBinary(s) && BytesOf(s) == b
  {
    seq(|b|, i requires 0 <= i < |b| => b[i] as char)
  }

  /** bufferToBase64url: the loop builds the binary string btoa takes. */
  method BufferToBase64Url(bytes: array<byte>) returns (s: string)
    ensures s == UrlEncode(bytes[..])
    ensures UrlDecode(s) == Some(bytes[..])
  {
    var binary := "";
    for i := 0 to bytes.Length
      invariant |binary| == i && IsBinary(binary) && BytesOf(binary) == bytes[..i]
    {
      binary := binary + [bytes[i] as char];
    }
    assert bytes[..bytes.Length] == bytes[..];
    var encoded := Encode(BytesOf(binary));
    s := StripTrailing(ReplaceAll(ReplaceAll(encoded, '+', '-'), '/', '_'), '=');
    UrlRoundTrip(bytes[..]);
  }

  /** base64urlToBuffer: the loop copies atob's binary string into a fresh array; None is atob's exception. */
  method Base64UrlToBuffer(value: string) returns (r: Option<array<byte>>)
    ensures r.Some? <==> UrlDecode(value).Some?
    ensures r.Some? ==> fresh(r.value) && r.value[..] == UrlDecode(value).value
  {
    var padded := ReplaceAll(ReplaceAll(value, '-', '+'), '_', '/');
    var pad := if |padded| % 4 == 0 then "" else Equals(4 - |padded| % 4);
    var decoded := Atob(padded + pad);
    if decoded.None? {
      return None;
    }
    var bytes := CopyOut(BinaryOf(decoded.value));
    r := Some(bytes);
  }

  method CopyOut(binary: string) returns (bytes: array<byte>)
    requires IsBinary(binary)
    ensures fresh(bytes) && bytes[..] == BytesOf(binary)
  {
    bytes := new byte[|binary|];
    for i := 0 to |binary|
      invariant forall k :: 0 <= k < i ==> bytes[k] == binary[k] as int
    {
      bytes[i] := binary[i] as int;
    }
  }
}
