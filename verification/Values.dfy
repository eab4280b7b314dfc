/** Reading fields out of decoded JSON, and printing numbers. */
module Values {
  import opened Common
  import opened Text
  import opened Json

  /** The library functions that stay abstract: fmt.Sprint of a number, list or object, and the case of
      letters outside ASCII. Every theorem holds whatever they do. */
  datatype Lib = Lib(format: Json -> string, lower: char -> char, upper: char -> char)

  /** fmt.Sprint. */
  function Sprint(lib: Lib, v: Json): string {
    match v
    case Str(s) => s
    case Bool(b) => if b then "true" else "false"
    case Null => "<nil>"
    case _ => lib.format(v)
  }

  function LowerChar(lib: Lib, c: char): char {
    if 'A' <= c <= 'Z' then c + 32 as char else if c < 128 as char then c else lib.lower(c)
  }

  function UpperChar(lib: Lib, c: char): char {
    if 'a' <= c <= 'z' then c - 32 as char else if c < 128 as char then c else lib.upper(c)
  }

  /** strings.ToLower. */
  function ToLower(lib: Lib, s: string): (r: string) {
    seq(|s|, i requires 0 <= i < |s| => LowerChar(lib, s[i]))
  }

  /** strings.ToUpper. */
  function ToUpper(lib: Lib, s: string): (r: string) {
    seq(|s|, i requires 0 <= i < |s| => UpperChar(lib, s[i]))
  }

  /** strings.EqualFold against a lower-case word of letters that fold within ASCII only. */
  predicate EqualFold(s: string, word: string) {
    |s| == |word| && forall i :: 0 <= i < |s| ==>
        s[i] == word[i] || ('A' <= s[i] <= 'Z' && s[i] + 32 as char == word[i])
  }

  function TrimPrefix(s: string, prefix: string): string {
    if prefix <= s then s[|prefix|..] else s
  }

  function TrimSuffix(s: string, suffix: string): string {
    if |suffix| <= |s| && s[|s| - |suffix|..] == suffix then s[..|s| - |suffix|] else s
  }

  function AsObject(v: Json): Option<Document> {
    if v.Obj? then Some(v.fields) else None
  }

  /** The object under `key`; an absent or different value reads as none. */
  function Section(m: Document, key: string): Option<Document> {
    if key in m then AsObject(m[key]) else None
  }

  /** The list under `key`; an absent or different value reads as an empty list. */
  function List(m: Document, key: string): seq<Json> {
    if key in m && m[key].Arr? then m[key].items else []
  }

  /** The objects in a list; other items are passed over. */
  function Objects(xs: seq<Json>): seq<Document> {
    if xs == [] then []
    else
      var ys := Objects(xs[..|xs| - 1]);
      var x := xs[|xs| - 1];
      if x.Obj? then ys + [x.fields] else ys
  }

  method ReadObjects(xs: seq<Json>) returns (r: seq<Document>)
    ensures r == Objects(xs)
  {
    r := [];
    for i := 0 to |xs|
      invariant r == Objects(xs[..i])
    {
      assert xs[..i + 1][..i] == xs[..i];
      if xs[i].Obj? {
        r := r + [xs[i].fields];
      }
    }
    assert xs[..|xs|] == xs;
  }

  function StringProp(lib: Lib, m: Document, key: string): string {
    if key !in m || m[key].Null? then "" else TrimSpace(Sprint(lib, m[key]))
  }

  /** Conversion of a float to an integer drops the fraction. */
  function Truncate(x: real): int {
    if x >= 0.0 then x.Floor else -((-x).Floor)
  }

  function IntProp(m: Document, key: string): int {
    if key in m && m[key].Num? then Truncate(m[key].n) else 0
  }

  function BoolProp(m: Document, key: string): bool {
    key in m && m[key] == Bool(true)
  }

  function FloatProp(m: Document, key: string): real {
    if key in m && m[key].Num? then m[key].n else 0.0
  }

  // ---- Decimal numbers ----

  function Digit(d: nat): char
    requires d < 10
  {
    '0' + d as char
  }

  function Digits(n: nat): (s: string)
    ensures s != [] && forall i :: 0 <= i < |s| ==> '0' <= s[i] <= '9'
  {
    if n < 10 then [Digit(n)] else Digits(n / 10) + [Digit(n % 10)]
  }

  /** The %d of fmt. */
  function Decimal(n: int): string {
    if n < 0 then "-" + Digits(-n) else Digits(n)
  }

  lemma {:induction false} DigitsInjective(a: nat, b: nat)
    requires Digits(a) == Digits(b)
    ensures a == b
  {
    var s, t := Digits(a), Digits(b);
    assert a >= 10 ==> |Digits(a / 10)| >= 1 && |s| >= 2;
    assert b >= 10 ==> |Digits(b / 10)| >= 1 && |t| >= 2;
    assert s[|s| - 1] == Digit(a % 10) && t[|t| - 1] == Digit(b % 10);
    if a >= 10 {
      assert s[..|s| - 1] == Digits(a / 10) && t[..|t| - 1] == Digits(b / 10);
      DigitsInjective(a / 10, b / 10);
    }
  }

  lemma SignFirst(n: int)
    ensures Decimal(n) != [] && (Decimal(n)[0] == '-' <==> n < 0)
  {
  }

  lemma DecimalInjective(a: int, b: int)
    requires Decimal(a) == Decimal(b)
    ensures a == b
  {
    SignFirst(a);
    SignFirst(b);
    if a < 0 && b < 0 {
      assert Decimal(a)[1..] == Digits(-a) && Decimal(b)[1..] == Digits(-b);
      DigitsInjective(-a, -b);
    } else if a >= 0 && b >= 0 {
      DigitsInjective(a, b);
    }
  }
}
