/** Which names of a certificate are kept, said on the scan. */
module SanNames {
  import opened Common
  import opened Text
  import opened TextFacts
  import opened Json
  import opened Values
  import opened Readings
  import opened DiffEntries
  import opened TraceStore
  import opened CertSans

  /** The name as listed, without one dot at its end, without the white space at its ends, in small letters. */
  ghost predicate NameReads(lib: Lib, item: Json, name: string) {
    exists printed, bare ::
      && Prints(lib, item, printed)
      && IsTrimmed(if |printed| > 0 && printed[|printed| - 1] == '.' then printed[..|printed| - 1] else printed, bare)
      && name == ToLower(lib, bare)
  }

  lemma NormalizeIs(lib: Lib, item: Json, name: string)
    ensures Normalize(lib, Sprint(lib, item)) == name <==> NameReads(lib, item, name)
  {
    var printed := Sprint(lib, item);
    var undotted := TrimSuffix(printed, ".");
    assert |printed| > 0 ==> printed[|printed| - 1..] == [printed[|printed| - 1]];
    assert undotted == if |printed| > 0 && printed[|printed| - 1] == '.' then printed[..|printed| - 1] else printed;
    TrimSpaceIs(undotted, TrimSpace(undotted));
    forall bare | IsTrimmed(undotted, bare) ensures bare == TrimSpace(undotted) { TrimSpaceIs(undotted, bare); }
    assert Prints(lib, item, printed) && forall p :: Prints(lib, item, p) ==> p == printed;
  }

  /** Entry `i` is the first to give its name, and gives one. */
  ghost predicate FirstAt(lib: Lib, items: seq<Json>, i: nat, name: string) {
    && i < |items| && name != "" && NameReads(lib, items[i], name)
    && forall j :: 0 <= j < i ==> !NameReads(lib, items[j], name)
  }

  /** The entries before `i` that first give a name. */
  ghost function Earlier(lib: Lib, items: seq<Json>, i: nat): set<nat> {
    set j: nat | j < i && GivesNew(lib, items, j)
  }

  ghost predicate GivesNew(lib: Lib, items: seq<Json>, i: nat) {
    exists name :: FirstAt(lib, items, i, name)
  }

  lemma NamesRead(lib: Lib, items: seq<Json>, i: nat, name: string)
    requires i < |items|
    ensures Names(lib, items)[i] == name <==> NameReads(lib, items[i], name)
  {
    NormalizeIs(lib, items[i], name);
  }

  lemma FirstAtIff(lib: Lib, items: seq<Json>, i: nat, name: string)
    requires i < |items|
    ensures FirstAt(lib, items, i, name) <==>
            name != "" && Names(lib, items)[i] == name && name !in Names(lib, items)[..i]
  {
    var names := Names(lib, items);
    NamesRead(lib, items, i, name);
    forall j | 0 <= j < i ensures names[..i][j] == name <==> NameReads(lib, items[j], name) {
      NamesRead(lib, items, j, name);
    }
  }

  /** The name is not empty and was not given before. */
  predicate NewAt(names: seq<string>, i: nat) {
    i < |names| && names[i] != "" && names[i] !in names[..i]
  }

  function NewBefore(names: seq<string>, i: nat): set<nat> {
    set j: nat | j < i && NewAt(names, j)
  }

  /** How many names the first entries give. */
  lemma {:induction false} FirstsCounted(names: seq<string>, i: nat)
    requires i <= |names|
    ensures |Firsts(names[..i])| == |NewBefore(names, i)|
  {
    if i == 0 {
      assert NewBefore(names, 0) == {};
    } else {
      FirstsCounted(names, i - 1);
      CountNext(names, i - 1);
      NewNext(names, i - 1);
    }
  }

  lemma NewNext(names: seq<string>, i: nat)
    ensures |NewBefore(names, i + 1)| == |NewBefore(names, i)| + if NewAt(names, i) then 1 else 0
  {
    if NewAt(names, i) {
      assert NewBefore(names, i + 1) == NewBefore(names, i) + {i};
    } else {
      assert NewBefore(names, i + 1) == NewBefore(names, i);
    }
  }

  lemma CountNext(names: seq<string>, i: nat)
    requires i < |names|
    ensures |Firsts(names[..i + 1])| ==
            |Firsts(names[..i])| + if NewAt(names, i) then 1 else 0
  {
    FirstsNext(names, i);
    FirstsAre(names[..i]);
  }

  lemma EarlierIs(lib: Lib, items: seq<Json>, i: nat)
    requires i <= |items|
    ensures Earlier(lib, items, i) == NewBefore(Names(lib, items), i)
  {
    forall j: nat | j < i ensures GivesNew(lib, items, j) <==> NewAt(Names(lib, items), j) {
      GivesNewIff(lib, items, j);
    }
  }

  lemma GivesNewIff(lib: Lib, items: seq<Json>, i: nat)
    requires i < |items|
    ensures GivesNew(lib, items, i) <==> NewAt(Names(lib, items), i)
  {
    var own := Names(lib, items)[i];
    FirstAtIff(lib, items, i, own);
    if name :| FirstAt(lib, items, i, name) { FirstAtIff(lib, items, i, name); }
  }

  lemma KeptPlace(names: seq<string>, i: nat)
    requires NewAt(names, i)
    ensures names[i] in Kept(names) <==> |NewBefore(names, i)| < 50
  {
    FirstsAre(names);
    FirstsCounted(names, i);
    PlaceOf(names, i);
    var k := |Firsts(names[..i])|;
    if names[i] in Kept(names) {
      var m :| 0 <= m < |Kept(names)| && Kept(names)[m] == names[i];
      assert Firsts(names)[m] == Firsts(names)[k];
    }
    if k < 50 {
      assert Kept(names)[k] == names[i];
    }
  }

  ghost predicate AmongFirstFifty(lib: Lib, items: seq<Json>, name: string) {
    exists i: nat :: FirstAt(lib, items, i, name) && |Earlier(lib, items, i)| < 50
  }

  /** A name is kept exactly when some entry gives it and fewer than fifty other names were given before that one. */
  lemma KeptExactly(lib: Lib, items: seq<Json>, name: string)
    ensures name in Kept(Names(lib, items)) <==> AmongFirstFifty(lib, items, name)
  {
    var names := Names(lib, items);
    FirstsAre(names);
    if name in Kept(names) {
      var i := FirstPosition(names, name);
      FirstAtIff(lib, items, i, name);
      KeptPlace(names, i);
      EarlierIs(lib, items, i);
    }
    if i: nat :| FirstAt(lib, items, i, name) && |Earlier(lib, items, i)| < 50 {
      FirstAtIff(lib, items, i, name);
      KeptPlace(names, i);
      EarlierIs(lib, items, i);
    }
  }

  lemma {:induction false} FirstPosition(names: seq<string>, name: string) returns (i: nat)
    requires name in names
    ensures i < |names| && names[i] == name && name !in names[..i]
  {
    i := 0;
    while names[i] != name
      invariant i < |names| && name !in names[..i] && name in names[i..]
      decreases |names| - i
    {
      i := i + 1;
    }
  }

  /** A name stands after all the names given before it. */
  lemma PlaceOf(names: seq<string>, i: nat)
    requires i < |names| && names[i] != "" && names[i] !in names[..i]
    ensures var k := |Firsts(names[..i])|; k < |Firsts(names)| && Firsts(names)[k] == names[i]
  {
    FirstsAre(names[..i]);
    FirstsNext(names, i);
    FirstsGrow(names, i + 1);
  }

  /** The names a scan brings are those of the list under "dns_names" in its "tls" section. */
  lemma ScanNames(lib: Lib, raw: Document, name: string)
    ensures name in KeptNames(lib, raw) <==>
            && "tls" in raw && raw["tls"].Obj? && "dns_names" in raw["tls"].fields
            && raw["tls"].fields["dns_names"].Arr? && AmongFirstFifty(lib, raw["tls"].fields["dns_names"].items, name)
  {
    if "tls" in raw && raw["tls"].Obj? {
      KeptExactly(lib, List(raw["tls"].fields, "dns_names"), name);
    }
  }
}
