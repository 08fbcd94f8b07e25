/** The activation gate, run from the empty catalog: a release held back for the
    warnings of its staging validation, revalidated, and then activated by the very
    request that was refused. `Maintenance.RevalidationOpensGate` says exactly when. */
module Gate {
  import opened Wrappers
  import opened Sequences
  import opened Validation
  import opened Registry
  import opened Protocol
  import opened PythonText
  import opened Importer
  import opened Maintenance
  import opened Runs

  /** `approx_row_count` of the shipped Landolt 1992 release, and the least number of
      rows that raises no warning against it. */
  const EXPECTED := 526
  const ENOUGH := 473

  function Standard(i: nat): Row {
    Row(Some(Decimal(i)), None, Degrees(10.0), Degrees(0.5), map["johnson_v_mag" := Number(12.0)])
  }

  function Standards(): (rows: seq<Row>)
    ensures |rows| == ENOUGH
    ensures forall row :: row in rows ==> Acceptable(row)
  {
    seq(ENOUGH, i requires 0 <= i < ENOUGH => Standard(i))
  }

  /** Hours of right ascension written as 25. */
  const MISPRINT := Row(Some("98 1122"), None, Degrees(375.0), Degrees(0.5), map["johnson_v_mag" := Number(12.0)])

  const LANDOLT_CHECKS := [
    Check("landolt_v_present", Warning, true), Check("landolt_v_range", Warning, true),
    Check("landolt_color_range", Warning, true), Check("landolt_error_validity", Warning, true),
    Check("landolt_native_id_unique", Warning, true), Check("landolt_row_count", Info, true) ]

  /** `import landolt 1992 --activate`, without `--allow-warnings`. */
  function LandoltImport(): Request {
    Request(Key(Landolt, "1992"), Source("sum", Standards() + [MISPRINT]), Some(EXPECTED), true, false, false, false, false)
  }

  lemma StandardsAccepted()
    ensures Accepted(Standards() + [MISPRINT]) == Standards()
  {
    hide Filter, Standards;
    FilterAppend(Acceptable, Standards(), [MISPRINT]);
    FilterAll(Acceptable, Standards());
    FilterNone(Acceptable, [MISPRINT]);
  }

  lemma MisprintIsMarked()
    ensures var table := MarkCommon(Fresh(Standards() + [MISPRINT]));
            CountReason(table, NullNativeId) == 0 && CountReason(table, RaOutOfRange) > 0
  {
    hide Standards, CountMarked;
    var rows := Standards() + [MISPRINT];
    var table := MarkCommon(Fresh(rows));
    MarkCommonClassifies(rows);
    hide MarkCommon, Fresh;
    forall s | s in table ensures s.reject != Some(NullNativeId) {
      var i :| 0 <= i < |table| && table[i] == s;
      assert rows[i] in Standards() || rows[i] == MISPRINT;
    }
    CountsNothing(table, Some(NullNativeId));
    assert table[ENOUGH] == StagedRow(MISPRINT, Some(RaOutOfRange));
    CountMarkedPositive(table, ENOUGH);
  }

  lemma OnlyWarns(table: seq<StagedRow>)
    requires CountReason(table, NullNativeId) == 0 && CountReason(table, RaOutOfRange) > 0
    ensures Summarize(CommonChecks(table)) == PassedWithWarnings
  {
    hide CountMarked, CountRejected;
    var common := CommonChecks(table);
    assert common[1] == Check("ra_range", Warning, false) && common[1] in common;
    assert forall c :: c in common && c.level == Critical ==> c.passed;
  }

  lemma LandoltChecksPass()
    ensures Summarize(LANDOLT_CHECKS) == Passed
  {
    assert forall c :: c in LANDOLT_CHECKS ==> c.passed;
  }

  /** One row out of range: nothing critical fails, one warning does. */
  lemma MisprintWarns()
    ensures Summarize(StagedBy(LandoltImport(), LANDOLT_CHECKS).checks) == PassedWithWarnings
  {
    hide Standards, CountMarked, MarkCommon, Fresh, CountRejected, CommonChecks, Summarize;
    MisprintIsMarked();
    var common := CommonChecks(MarkCommon(Fresh(Standards() + [MISPRINT])));
    assert StagedBy(LandoltImport(), LANDOLT_CHECKS).checks == common + LANDOLT_CHECKS;
    OnlyWarns(MarkCommon(Fresh(Standards() + [MISPRINT])));
    LandoltChecksPass();
    SummarizeAppend(common, LANDOLT_CHECKS);
  }

  lemma ProductionIsClean()
    ensures Summarize(BuildChecks(LandoltImport())) == Passed
  {
    hide Standards, Accepted;
    StandardsAccepted();
    assert RowFloor(EXPECTED) == ENOUGH;
    assert forall c :: c in BuildChecks(LandoltImport()) ==> c.passed;
  }

  lemma HeldBack()
    ensures Passes(LandoltImport(), LANDOLT_CHECKS) && LeavesInactive(LandoltImport(), LANDOLT_CHECKS)
    ensures StatusOf(LandoltImport(), LANDOLT_CHECKS) == PassedWithWarnings
  {
    MisprintWarns();
    ProductionIsClean();
    SummarizeAppend(StagedBy(LandoltImport(), LANDOLT_CHECKS).checks, BuildChecks(LandoltImport()));
  }

  const AGAIN := [Begin(2, LandoltImport(), 1)]
  const ACTIVATE := [ReadCurrent(2, None), Commit(2)]
  const REVALIDATE := Revalidation(1, 1)

  function Imported(): World {
    ImportedWorld(LandoltImport(), LANDOLT_CHECKS)
  }

  function Revalidated(): World {
    var w := Imported();
    w.(store := w.store.(releases := map[1 := w.store.releases[1].(validation := Passed)]))
  }

  /** The request again: it is a skip, and the gate is shut. */
  lemma AskedAgain()
    ensures Exec(Imported(), AGAIN) == Imported()
  {
    HeldBack();
    hide StatusOf, Passes, LeavesInactive, Accepted, Standards, Stage;
    ExecOne(Imported(), [], AGAIN[0]);
    ExecNone(Imported());
    assert [] + AGAIN == AGAIN;
    assert 1 in Imported().store.releases;
  }

  lemma CleanVerdict()
    ensures Summarize(ProductionChecks(Standards(), true, Some(EXPECTED)) + RangeChecks(Standards())) == Passed
  {
    hide Standards, Summarize, ProductionChecks, RangeChecks;
    StandardsAccepted();
    ProductionIsClean();
    RevalidationPasses(LandoltImport().source.rows, true, Some(EXPECTED));
  }

  lemma ValidatedAgain()
    ensures Exec(Imported(), REVALIDATE) == Revalidated()
  {
    StandardsAccepted();
    CleanVerdict();
    hide StatusOf, Accepted, Standards, Stage, Summarize, ProductionChecks, RangeChecks, Exec;
    var w := Imported();
    assert w.store.releases[1].table == Some(Partition(Landolt, 1)) && w.store.releases[1].expected == Some(EXPECTED);
    assert w.store.tables[Partition(Landolt, 1)] == Table(Standards(), "sum", true);
    RevalidationRun(w, 1, 1);
    assert w.store.releases[1 := w.store.releases[1].(validation := Passed)] == Revalidated().store.releases;
  }

  lemma ThenActivated()
    ensures var v := Exec(Revalidated(), AGAIN + ACTIVATE);
            1 in v.store.releases && v.store.releases[1].state == Active
  {
    hide StatusOf, Accepted, Standards, Stage;
    var w := Revalidated();
    var v := Apply(w, AGAIN[0]);
    assert 1 in w.store.releases;
    assert v == SetOp(w, 2, Chosen(1, Skip(LandoltImport())));
    SerialActivationSucceeds(w.store.releases, 1, None);
    ChosenCommits(v, 2, 1, Skip(LandoltImport()), None);
    ExecThree(w, AGAIN[0], ACTIVATE[0], ACTIVATE[1]);
    assert AGAIN + ACTIVATE == [AGAIN[0], ACTIVATE[0], ACTIVATE[1]];
  }

  /** The import ends READY, with the warnings of staging; asked again the importer does
      nothing; and once the release has been revalidated, the same request activates it. */
  lemma RevalidationForgetsWarnings()
    ensures var steps := ImportSteps(LandoltImport(), LANDOLT_CHECKS);
            && LandoltImport().activate && !LandoltImport().allowWarnings
            && Exec(GENESIS, steps).store.releases.Keys == {1}
            && Exec(GENESIS, steps).store.releases[1].state == Ready
            && Exec(GENESIS, steps).store.releases[1].validation == PassedWithWarnings
            && Exec(GENESIS, steps + AGAIN) == Exec(GENESIS, steps)
            && var v := Exec(GENESIS, steps + REVALIDATE + (AGAIN + ACTIVATE));
               1 in v.store.releases && v.store.releases[1].state == Active
  {
    HeldBack();
    hide Exec, StatusOf, Passes, LeavesInactive, Accepted, Standards, Stage;
    var steps := ImportSteps(LandoltImport(), LANDOLT_CHECKS);
    ImportRun(LandoltImport(), LANDOLT_CHECKS);
    ExecAppend(GENESIS, steps, AGAIN);
    AskedAgain();
    ExecAppend(GENESIS, steps, REVALIDATE);
    ValidatedAgain();
    ExecAppend(GENESIS, steps + REVALIDATE, AGAIN + ACTIVATE);
    ThenActivated();
  }
}
