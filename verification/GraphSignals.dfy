/** Certificate names in the graph. */
module CertSans {
  import opened Common
  import opened Text
  import opened Json
  import opened Values
  import opened TraceStore

  const SAN_LIMIT: nat := 50

  /** normalizeSAN. */
  function Normalize(lib: Lib, name: string): string {
    ToLower(lib, TrimSpace(TrimSuffix(name, ".")))
  }

  function Names(lib: Lib, sans: seq<Json>): seq<string> {
    seq(|sans|, i requires 0 <= i < |sans| => Normalize(lib, Sprint(lib, sans[i])))
  }

  /** The names without the empty ones and without repetitions, in order of first appearance. */
  function Firsts(names: seq<string>): seq<string> {
    if names == [] then []
    else
      var before := Firsts(names[..|names| - 1]);
      var name := names[|names| - 1];
      if name == "" || name in before then before else before + [name]
  }

  lemma {:induction false} FirstsAre(names: seq<string>)
    ensures Distinct(Firsts(names))
    ensures forall x :: x in Firsts(names) <==> x in names && x != ""
  {
    if names != [] {
      FirstsAre(names[..|names| - 1]);
      assert names == names[..|names| - 1] + [names[|names| - 1]];
    }
  }

  /** Later names only add to the end. */
  lemma {:induction false} FirstsGrow(names: seq<string>, i: nat)
    requires i <= |names|
    ensures Firsts(names[..i]) <= Firsts(names)
    decreases |names|
  {
    if i < |names| {
      var before := names[..|names| - 1];
      assert before[..i] == names[..i];
      FirstsGrow(before, i);
    } else {
      assert names[..i] == names;
    }
  }

  function Kept(names: seq<string>): seq<string> {
    if |Firsts(names)| <= SAN_LIMIT then Firsts(names) else Firsts(names)[..SAN_LIMIT]
  }

  /** The other targets whose host is one of the names. */
  ghost function ScannedAs(lib: Lib, targets: map<string, string>, self: string, names: seq<string>)
    : set<(string, string)>
  {
    set n, t | n in names && t in targets && ToLower(lib, targets[t]) == n && t != self :: (n, t)
  }

  /** CertSAN nodes, HAS_SAN from targets, SCANNED_AS to targets with that host. */
  class SanStore {
    var targets: map<string, string>
    var sans: set<string>
    var hasSan: map<(string, string), Stamp>
    var scannedAs: set<(string, string)>

    constructor (targets: map<string, string>)
      ensures this.targets == targets && sans == {} && hasSan == map[] && scannedAs == {}
    {
      this.targets, sans, hasSan, scannedAs := targets, {}, map[], {};
    }

    function Shown(): Snapshot
      reads this
    {
      Snapshot(sans, hasSan, scannedAs)
    }

    /** The two statements for one name. */
    method MergeSan(lib: Lib, meta: Meta, name: string)
      modifies this`sans, this`hasSan, this`scannedAs
      ensures Shown() == WithName(lib, targets, meta, old(Shown()), name)
    {
      sans := sans + {name};
      if meta.target in targets {
        hasSan := hasSan[(meta.target, name) := meta.Mark()];
      }
      scannedAs := scannedAs + set t | t in targets && ToLower(lib, targets[t]) == name && t != meta.target ::
          (name, t);
    }

    /** syncCertSANGraph: exactly the first 50 distinct names are merged, tied to the target if it is known, and to
        every other target scanned under that name. */
    method SyncCertSans(lib: Lib, meta: Meta, raw: Document)
      modifies this`sans, this`hasSan, this`scannedAs
      ensures Merged(lib, targets, meta, KeptNames(lib, raw), old(Shown()), Shown())
    {
      var tls := Section(raw, "tls");
      if tls.None? {
        return;
      }
      var list := List(tls.value, "dns_names");
      ghost var names := Names(lib, list);
      ghost var before := Shown();
      MergeFirsts(lib, meta, list, names);
      AllMerged(lib, targets, meta, before, Kept(names));
    }

    /** The loop over the listed names. */
    method MergeFirsts(lib: Lib, meta: Meta, list: seq<Json>, ghost names: seq<string>)
      requires |names| == |list| && forall i :: 0 <= i < |list| ==> names[i] == Normalize(lib, Sprint(lib, list[i]))
      modifies this`sans, this`hasSan, this`scannedAs
      ensures Shown() == WithNames(lib, targets, meta, old(Shown()), Kept(names))
    {
      ghost var before, kept: seq<string> := Shown(), [];
      var seen: set<string>, count := {}, 0;
      var i := 0;
      while i < |list|
        invariant i <= |list| && kept == Firsts(names[..i]) && count == |kept| <= SAN_LIMIT
        invariant forall n :: n in seen <==> n in kept
        invariant Shown() == WithNames(lib, targets, meta, before, kept)
      {
        if count >= SAN_LIMIT {
          break;
        }
        FirstsNext(names, i);
        var name := Normalize(lib, Sprint(lib, list[i]));
        WithNamesNext(lib, targets, meta, before, kept, name);
        var added := MergeIfNew(lib, meta, name, seen);
        if added {
          seen, kept, count := seen + {name}, kept + [name], count + 1;
        }
        i := i + 1;
      }
      KeptPrefix(names, i);
    }

    method MergeIfNew(lib: Lib, meta: Meta, name: string, seen: set<string>) returns (added: bool)
      modifies this`sans, this`hasSan, this`scannedAs
      ensures added <==> name != "" && name !in seen
      ensures Shown() == if added then WithName(lib, targets, meta, old(Shown()), name) else old(Shown())
    {
      added := name != "" && name !in seen;
      if added {
        MergeSan(lib, meta, name);
      }
    }
  }

  lemma FirstsNext(names: seq<string>, i: nat)
    requires i < |names|
    ensures Firsts(names[..i + 1]) ==
            if names[i] == "" || names[i] in Firsts(names[..i]) then Firsts(names[..i])
                else Firsts(names[..i]) + [names[i]]
  {
    assert names[..i + 1][..i] == names[..i];
  }

  /** Stopping at the limit loses nothing that counts. */
  lemma KeptPrefix(names: seq<string>, i: nat)
    requires i <= |names| && |Firsts(names[..i])| <= SAN_LIMIT && (i == |names| || |Firsts(names[..i])| == SAN_LIMIT)
    ensures Firsts(names[..i]) == Kept(names)
  {
    FirstsGrow(names, i);
    assert i == |names| ==> names[..i] == names;
  }

  /** The names a scan's certificate brings. */
  function KeptNames(lib: Lib, raw: Document): seq<string> {
    match Section(raw, "tls")
    case None => []
    case Some(tls) => Kept(Names(lib, List(tls, "dns_names")))
  }

  datatype Snapshot = Snapshot(sans: set<string>, hasSan: map<(string, string), Stamp>,
      scannedAs: set<(string, string)>)

  /** The store `s` was, with the names merged. */
  ghost predicate Merged(lib: Lib, targets: map<string, string>, meta: Meta, kept: seq<string>, s: Snapshot,
                         t: Snapshot) {
    && t.sans == s.sans + (set n | n in kept)
    && (forall a, n :: (a, n) in t.hasSan <==> (a, n) in s.hasSan || (a == meta.target && a in targets && n in kept))
    && (forall e :: e in t.hasSan ==>
        t.hasSan[e] == if e.0 == meta.target && e.1 in kept && e.0 in targets then meta.Mark() else s.hasSan[e])
    && t.scannedAs == s.scannedAs + ScannedAs(lib, targets, meta.target, kept)
  }

  ghost function WithName(lib: Lib, targets: map<string, string>, meta: Meta, s: Snapshot, name: string): Snapshot {
    Snapshot(s.sans + {name}, if meta.target in targets then s.hasSan[(meta.target, name) := meta.Mark()] else s.hasSan,
             s.scannedAs + ScannedAs(lib, targets, meta.target, [name]))
  }

  ghost function WithNames(lib: Lib, targets: map<string, string>, meta: Meta, s: Snapshot,
                           names: seq<string>): Snapshot {
    if names == [] then s
    else WithName(lib, targets, meta, WithNames(lib, targets, meta, s, names[..|names| - 1]), names[|names| - 1])
  }

  lemma WithNamesNext(lib: Lib, targets: map<string, string>, meta: Meta, s: Snapshot, names: seq<string>, name: string)
    ensures WithNames(lib, targets, meta, s, names + [name])
        == WithName(lib, targets, meta, WithNames(lib, targets, meta, s, names), name)
  {
    assert (names + [name])[..|names|] == names;
  }

  lemma {:induction false} AllMerged(lib: Lib, targets: map<string, string>, meta: Meta, s: Snapshot,
                                     names: seq<string>)
    ensures Merged(lib, targets, meta, names, s, WithNames(lib, targets, meta, s, names))
  {
    if names != [] {
      var before := names[..|names| - 1];
      AllMerged(lib, targets, meta, s, before);
      assert names == before + [names[|names| - 1]];
      MergedNext(lib, targets, meta, before, s, WithNames(lib, targets, meta, s, before), names[|names| - 1]);
    }
  }

  lemma MergedNext(lib: Lib, targets: map<string, string>, meta: Meta, kept: seq<string>, s: Snapshot, t: Snapshot,
                   name: string)
    requires Merged(lib, targets, meta, kept, s, t)
    ensures Merged(lib, targets, meta, kept + [name], s, WithName(lib, targets, meta, t, name))
  {
    assert ScannedAs(lib, targets, meta.target, kept + [name])
        == ScannedAs(lib, targets, meta.target, kept) + ScannedAs(lib, targets, meta.target, [name]);
  }
}

/** The overall RPKI status of a route. */
module Rpki {
  import opened Json
  import opened Values
  import opened Common

  /** The validity of one ROA row; a row that is no object has none. */
  function Validity(lib: Lib, row: Json): string {
    if row.Obj? then ToLower(lib, StringProp(lib, row.fields, "validity")) else ""
  }

  function Roas(routing: Document): seq<Json> {
    match Section(routing, "rpki")
    case None => []
    case Some(rpki) => List(rpki, "validating_roas")
  }

  ghost predicate AnyRoa(lib: Lib, rows: seq<Json>, validity: string) {
    exists i :: 0 <= i < |rows| && Validity(lib, rows[i]) == validity
  }

  /** One invalid ROA makes the route invalid; otherwise one valid one makes it valid. */
  ghost function Overall(lib: Lib, routing: Option<Document>): string {
    if routing.None? then ""
    else if AnyRoa(lib, Roas(routing.value), "invalid") then "invalid"
    else if AnyRoa(lib, Roas(routing.value), "valid") then "valid"
    else ""
  }

  /** overallRPKIStatus. */
  method OverallRpkiStatus(lib: Lib, routing: Option<Document>) returns (r: string)
    ensures r == Overall(lib, routing)
  {
    if routing.None? {
      return "";
    }
    var rows := Roas(routing.value);
    var seenValid, seenInvalid := false, false;
    for i := 0 to |rows|
      invariant seenValid <==> AnyRoa(lib, rows[..i], "valid")
      invariant seenInvalid <==> AnyRoa(lib, rows[..i], "invalid")
    {
      AnyNext(lib, rows, i, "valid");
      AnyNext(lib, rows, i, "invalid");
      if Validity(lib, rows[i]) == "valid" {
        seenValid := true;
      } else if Validity(lib, rows[i]) == "invalid" {
        seenInvalid := true;
      }
    }
    assert rows[..|rows|] == rows;
    r := if seenInvalid then "invalid" else if seenValid then "valid" else "";
  }

  lemma AnyNext(lib: Lib, rows: seq<Json>, i: nat, validity: string)
    requires i < |rows|
    ensures AnyRoa(lib, rows[..i + 1], validity) <==>
        AnyRoa(lib, rows[..i], validity) || Validity(lib, rows[i]) == validity
  {
    if AnyRoa(lib, rows[..i], validity) {
      var j :| 0 <= j < i && Validity(lib, rows[..i][j]) == validity;
      assert rows[..i + 1][j] == rows[..i][j];
    }
    if AnyRoa(lib, rows[..i + 1], validity) {
      var j :| 0 <= j < i + 1 && Validity(lib, rows[..i + 1][j]) == validity;
      assert j < i ==> rows[..i][j] == rows[..i + 1][j];
    }
    if Validity(lib, rows[i]) == validity {
      assert rows[..i + 1][i] == rows[i];
    }
  }
}
