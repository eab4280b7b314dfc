/** What an overwrite import does to a target that is merged by host into a row a later target renames. */
module BundleTangled {
  import opened Common
  import opened BundleMerge
  import opened Bundle
  import opened BundleTheorems

  function HostRow(host: string): Named<TargetDetails> {
    Named(host, 0, TargetDetails(Some(host), Some([])))
  }

  function Body(): SnapshotBody {
    SnapshotBody(0, 0, "", Pwhois(None, None, None, None, None, None, None))
  }

  function ScanRow(target: Id): SnapshotRow {
    SnapshotRow(target, Body(), map[], Some([]), Some([]), Some(""))
  }

  /** A store that knows host "a" by id 1. */
  function OneTarget(): Tables {
    EmptyTables.(targets := map[1 := HostRow("a")])
  }

  /** A bundle that knows host "a" by id 2, with a snapshot, and host "b" by id 1. */
  function TangledBundle(): ExportBundle {
    ExportBundle(FORMAT_VERSION,
                 [ExportTarget(2, "a", "a", Some([]), 0), ExportTarget(1, "b", "b", Some([]), 0)],
                 [ExportSnapshot(5, 2, Body(), None, None, None, "")], [], [], [], [], [], [], None)
  }

  function Once(): Tables {
    EmptyTables.(targets := map[1 := HostRow("b")], snapshots := map[5 := ScanRow(1)])
  }

  function Twice(): Tables {
    EmptyTables.(targets := map[1 := HostRow("b"), 2 := HostRow("a")], snapshots := map[5 := ScanRow(2)])
  }

  lemma FoldOne<S, X, E>(step: (S, X) -> Result<S, E>, s: S, x: X)
    ensures Fold(step, s, [x]) == step(s, x)
  {
    assert [x][..0] == [] && [x][..1] == [x];
    FoldSnoc(step, s, [x], 0);
  }

  lemma FoldTwo<S, X, E>(step: (S, X) -> Result<S, E>, s: S, x: X, y: X)
    ensures Fold(step, s, [x, y]) == match step(s, x) case Err(e) => Err(e) case Ok(t) => step(t, y)
  {
    assert [x, y][..1] == [x] && [x, y][..2] == [x, y];
    FoldOne(step, s, x);
    FoldSnoc(step, s, [x, y], 1);
  }

  /** The two targets of the bundle, merged into `rows`. */
  lemma TargetsMerged(env: Env, t: Tables)
    ensures TargetPhase(env, t, TangledBundle(), Overwrite) ==
            match StepNamed(Overwrite, NamedState(t.targets, map[], 0, 0), NamedItem(2, HostRow("a")))
            case Err(e) => Err(e)
            case Ok(s) => StepNamed(Overwrite, s, NamedItem(1, HostRow("b")))
  {
    var x, y := NamedItem(2, HostRow("a")), NamedItem(1, HostRow("b"));
    assert TargetItems(env, TangledBundle().targets) == [x, y];
    FoldTwo(NamedStep(Overwrite), NamedState(t.targets, map[], 0, 0), x, y);
  }

  lemma SnapshotMerged(t: Tables, ts: NamedState<TargetDetails>)
    requires 2 in ts.idMap && SnapshotsOk(ts.rows.Keys)(t.snapshots) && ts.idMap[2] in ts.rows
    ensures SnapshotPhase(t, TangledBundle(), Overwrite, ts)
        == Ok(ByIdState(t.snapshots[5 := ScanRow(ts.idMap[2])], 1, 0))
  {
    var x := ByIdItem(5, Some(ScanRow(ts.idMap[2])));
    assert SnapshotItems(ts.idMap, TangledBundle().snapshots) == [x];
    FoldOne(ByIdStep(Overwrite, SnapshotsOk(ts.rows.Keys)), ByIdState(t.snapshots, 0, 0), x);
  }

  /** The import, when the store holds nothing but targets and snapshots. */
  lemma TangledImport(env: Env, t: Tables, conflict: string, ts: NamedState<TargetDetails>,
                      snapshots: map<Id, SnapshotRow>)
    requires PolicyOf(env, conflict) == Some(Overwrite)
    requires t == EmptyTables.(targets := t.targets, snapshots := t.snapshots)
    requires TargetPhase(env, t, TangledBundle(), Overwrite) == Ok(ts)
    requires SnapshotPhase(t, TangledBundle(), Overwrite, ts) == Ok(ByIdState(snapshots, 1, 0))
    ensures var r := Import(env, t, Some(TangledBundle()), conflict);
            r.Ok? && r.value.0 == EmptyTables.(targets := ts.rows, snapshots := snapshots)
  {
    var b := TangledBundle();
    var ph := Phases(ts, ByIdState(snapshots, 1, 0), map[], NamedState(map[], map[], 0, 0), map[],
                     ByIdState(map[], 0, 0), ByIdState(map[], 0, 0), map[]);
    assert Ran(env, t, b, Overwrite, ph);
    ImportByPhases(env, t, b, conflict, ph);
  }

  lemma FirstImport(env: Env, conflict: string)
    requires PolicyOf(env, conflict) == Some(Overwrite)
    ensures var r := Import(env, OneTarget(), Some(TangledBundle()), conflict); r.Ok? && r.value.0 == Once()
  {
    var rows: map<Id, Named<TargetDetails>> := map[1 := HostRow("a")];
    OwnerIs(rows, 1);
    TargetsMerged(env, OneTarget());
    assert rows[1 := HostRow("a")] == rows && rows[1 := HostRow("b")] == map[1 := HostRow("b")];
    var ts := NamedState(map[1 := HostRow("b")], map[2 := 1, 1 := 1], 2, 0);
    SnapshotMerged(OneTarget(), ts);
    assert OneTarget().snapshots[5 := ScanRow(1)] == map[5 := ScanRow(1)];
    TangledImport(env, OneTarget(), conflict, ts, map[5 := ScanRow(1)]);
  }

  lemma SecondImport(env: Env, conflict: string)
    requires PolicyOf(env, conflict) == Some(Overwrite)
    ensures var r := Import(env, Once(), Some(TangledBundle()), conflict); r.Ok? && r.value.0 == Twice()
  {
    var rows: map<Id, Named<TargetDetails>> := map[1 := HostRow("b")];
    assert "a" != "b";
    assert Owner(rows, "a").None?;
    TargetsMerged(env, Once());
    var both := map[1 := HostRow("b"), 2 := HostRow("a")];
    assert rows[2 := HostRow("a")] == both && both[1 := HostRow("b")] == both;
    var ts := NamedState(both, map[2 := 2, 1 := 1], 2, 0);
    SnapshotMerged(Once(), ts);
    assert Once().snapshots[5 := ScanRow(2)] == map[5 := ScanRow(2)];
    TangledImport(env, Once(), conflict, ts, map[5 := ScanRow(2)]);
  }

  /** The snapshot of host "a" ends under the row of host "b", and no row has host "a" any more. */
  lemma OverwriteCanTakeHostAway(env: Env, conflict: string)
    requires PolicyOf(env, conflict) == Some(Overwrite)
    ensures var t, b := OneTarget(), TangledBundle();
            var r := Import(env, t, Some(b), conflict);
            && Valid(t) && t.targets[1].key == "a"
            && b.snapshots[0].targetId == b.targets[0].id && b.targets[0].host == "a"
            && r.Ok? && 5 in r.value.0.snapshots && r.value.0.snapshots[5].targetId == 1
            && r.value.0.targets == map[1 := HostRow("b")] && HostRow("b").key != "a"
  {
    FirstImport(env, conflict);
    assert "a" != "b";
  }

  /** And importing the same bundle again inserts the target with host "a" anew and moves the snapshot to it. */
  lemma OverwriteTwiceCanChange(env: Env, conflict: string)
    requires PolicyOf(env, conflict) == Some(Overwrite)
    ensures var once := Import(env, OneTarget(), Some(TangledBundle()), conflict);
            once.Ok? &&
            var twice := Import(env, once.value.0, Some(TangledBundle()), conflict);
            && twice.Ok? && twice.value.0.targets.Keys == {1, 2} && once.value.0.targets.Keys == {1}
            && 5 in twice.value.0.snapshots && twice.value.0.snapshots[5].targetId == 2
  {
    FirstImport(env, conflict);
    SecondImport(env, conflict);
  }
}
