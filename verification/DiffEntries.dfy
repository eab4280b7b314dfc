/** Change entries, and the readers the scan comparison uses. */
module DiffEntries {
  import opened Common
  import opened Text
  import opened Json
  import opened Values
  import opened Sorting
  import opened SetDiff

  datatype Severity = Info | Warning | Critical

  /** severityRank. */
  function Rank(s: Severity): nat {
    match s
    case Critical => 3
    case Warning => 2
    case Info => 1
  }

  /** One change. The summary sentence is represented by the values it names, in their order. */
  datatype Entry = Entry(kind: string, severity: Severity, field: string, about: seq<string>, detail: string)

  function When(c: bool, e: Entry): seq<Entry> {
    if c then [e] else []
  }

  /** The object under `key` of an object that may be missing. */
  function Sub(m: Option<Document>, key: string): Option<Document> {
    if m.None? then None else Section(m.value, key)
  }

  function Items(m: Option<Document>, key: string): seq<Json> {
    if m.None? then [] else List(m.value, key)
  }

  /** stringVal: only strings are trimmed, and a null prints. */
  function StringVal(lib: Lib, m: Option<Document>, key: string): string {
    if m.None? || key !in m.value then ""
    else
      match m.value[key]
      case Str(s) => TrimSpace(s)
      case v => Sprint(lib, v)
  }

  /** intVal: -1 for anything but a number. */
  function IntVal(m: Option<Document>, key: string): int {
    if m.Some? && key in m.value && m.value[key].Num? then Truncate(m.value[key].n) else -1
  }

  function BoolVal(m: Option<Document>, key: string): bool {
    m.Some? && BoolProp(m.value, key)
  }

  /** The non-empty results of `f`, in order. */
  function Collected(f: Json -> string, xs: seq<Json>): seq<string> {
    if xs == [] then []
    else
      var before := Collected(f, xs[..|xs| - 1]);
      var s := f(xs[|xs| - 1]);
      if s == "" then before else before + [s]
  }

  method Collect(f: Json -> string, xs: seq<Json>) returns (r: seq<string>)
    ensures r == Collected(f, xs)
  {
    r := [];
    for i := 0 to |xs|
      invariant r == Collected(f, xs[..i])
    {
      assert xs[..i + 1][..i] == xs[..i];
      var s := f(xs[i]);
      if s != "" {
        r := r + [s];
      }
    }
    assert xs[..|xs|] == xs;
  }

  /** Readers that agree on every item collect the same. */
  lemma {:induction false} CollectedSame(f: Json -> string, g: Json -> string, xs: seq<Json>)
    requires forall i :: 0 <= i < |xs| ==> f(xs[i]) == g(xs[i])
    ensures Collected(f, xs) == Collected(g, xs)
  {
    if xs != [] {
      CollectedSame(f, g, xs[..|xs| - 1]);
    }
  }

  /** stringSlice: the strings, trimmed, without the empty ones. */
  function StringItem(x: Json): string {
    if x.Str? then TrimSpace(x.s) else ""
  }

  function Strings(m: Option<Document>, key: string): seq<string> {
    Collected(StringItem, Items(m, key))
  }

  // ---- Entries for names ----

  function Each(f: string -> Entry, xs: seq<string>): (r: seq<Entry>) {
    seq(|xs|, i requires 0 <= i < |xs| => f(xs[i]))
  }

  /** One entry for each item, in the items' order. */
  method Report(f: string -> Entry, xs: seq<string>) returns (r: seq<Entry>)
    ensures r == Each(f, xs)
  {
    r := [];
    for i := 0 to |xs|
      invariant r == Each(f, xs[..i])
    {
      r := r + [f(xs[i])];
    }
    assert xs[..|xs|] == xs;
  }

  /** The sorted additions, then the sorted removals. */
  ghost function SetChanges(prev: set<string>, cur: set<string>, added: string -> Entry,
                            removed: string -> Entry): seq<Entry> {
    Each(added, Listing(cur - prev)) + Each(removed, Listing(prev - cur))
  }

  /** Nothing is reported exactly when the sets are equal. */
  lemma SetChangesEmptyIff(prev: set<string>, cur: set<string>, added: string -> Entry, removed: string -> Entry)
    ensures SetChanges(prev, cur, added, removed) == [] <==> prev == cur
  {
    NothingAddedOrRemoved(cur, prev);
    assert |Each(added, Listing(cur - prev))| == |Listing(cur - prev)|;
    assert |Each(removed, Listing(prev - cur))| == |Listing(prev - cur)|;
  }
}
