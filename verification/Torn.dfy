/** What a finalize that meets the unique index leaves behind: a run from the empty
    catalog with the two shipped Landolt releases. `Continuity.FinalizeAborts` says
    exactly when the index aborts a finalize. */
module Torn {
  import opened Wrappers
  import opened Validation
  import opened Registry
  import opened Protocol
  import opened Maintenance
  import opened Runs
  import PythonText
  import Guarantees
  import Continuity
  import Gate

  function Star(i: nat): Row {
    Gate.Standard(i)
  }

  const OLD := Request(Key(Landolt, "1992"), Source("old", [Star(1)]), Some(526), false, false, false, false, false)
  const NEW := OLD.(source := Source("new", [Star(2)]), replace := true, force := true)
  const NINE := Request(Key(Landolt, "2009"), Source("nine", [Star(3)]), Some(595), false, false, false, false, false)

  lemma AllSourcesPass()
    ensures Passes(OLD, Gate.LANDOLT_CHECKS) && Passes(NEW, Gate.LANDOLT_CHECKS) && Passes(NINE, Gate.LANDOLT_CHECKS)
    ensures Accepted([Star(1)]) == [Star(1)] && Accepted([Star(2)]) == [Star(2)]
    ensures StatusOf(NEW, Gate.LANDOLT_CHECKS) == StatusOf(NINE, Gate.LANDOLT_CHECKS) == PassedWithWarnings
  {
    hide Passes, StatusOf;
    OneRowPasses(OLD, Star(1), Gate.LANDOLT_CHECKS);
    OneRowPasses(NEW, Star(2), Gate.LANDOLT_CHECKS);
    OneRowPasses(NINE, Star(3), Gate.LANDOLT_CHECKS);
  }

  /******* Two releases on the shelf *******/

  const FIRST := ImportSteps(OLD, Gate.LANDOLT_CHECKS)
  const SECOND := Upload(3, NINE, 2, Gate.LANDOLT_CHECKS) + [Finalize(3), Decide(3), Cleanup(3)]

  function Row1992(state: ReleaseState): Release {
    ImportedRow(OLD, Gate.LANDOLT_CHECKS).(state := state)
  }

  function Attempt2009(): Attempt {
    Attempt(NINE, 2, 2, false, SwappedBy(NINE, Gate.LANDOLT_CHECKS))
  }

  function Row2009(state: ReleaseState): Release {
    FinalRow(NewRelease(NINE.key), Attempt2009()).(state := state)
  }

  /** Both releases imported, in these states, and nothing in flight. */
  predicate Shelf(w: World, first: ReleaseState, second: ReleaseState) {
    && w.store.releases == map[1 := Row1992(first), 2 := Row2009(second)]
    && w.store.lastRun == 2
  }

  lemma SecondRun()
    ensures var w := Exec(ImportedWorld(OLD, Gate.LANDOLT_CHECKS), SECOND);
            Shelf(w, Ready, Ready) && w.ops == map[]
  {
    AllSourcesPass();
    hide Exec, Stage, StatusOf, Passes, Accepted, AfterSwap;
    var w := ImportedWorld(OLD, Gate.LANDOLT_CHECKS);
    UploadRun(w, 3, NINE, 2, Gate.LANDOLT_CHECKS);
    var booked := StartRun(w, 3, NINE, 2, NewRelease(NINE.key));
    AfterSwapKeeps(booked, 3, BookedAt(w, NINE, 2), Gate.LANDOLT_CHECKS);
    var v := Exec(w, Upload(3, NINE, 2, Gate.LANDOLT_CHECKS));
    FinishRun(v, 3, Attempt2009());
    ExecAppend(w, Upload(3, NINE, 2, Gate.LANDOLT_CHECKS), [Finalize(3), Decide(3), Cleanup(3)]);
  }

  /******* The newer import, overtaken *******/

  const USE_1992 := [OpenActivation(2, 1), ReadCurrent(2, None), Commit(2)]
  const REPLACE := Upload(1, NEW, 1, Gate.LANDOLT_CHECKS)
  const USE_2009 := [OpenActivation(2, 2), ReadCurrent(2, Some(1)), Commit(2)]
  const ABORT := [Finalize(1), RecordFailure(1, Some(1), "duplicate key")]

  lemma ActivateFirst(w: World)
    requires Shelf(w, Ready, Ready) && w.ops == map[]
    ensures var v := Exec(w, USE_1992); Shelf(v, Active, Ready) && v.ops == map[]
  {
    hide Exec, Stage, StatusOf, Accepted;
    ActivationRun(w, 2, 1, None);
    assert StepUp(w.store.releases, 1, None) == map[1 := Row1992(Active), 2 := Row2009(Ready)];
  }

  /** The replacement has swapped: the new rows are being served. */
  predicate Overtaken(w: World, first: ReleaseState, second: ReleaseState) {
    && w.store.releases == map[1 := Row1992(first), 2 := Row2009(second)]
    && FamilyRows(w.store, Landolt, 1) == [Star(2)]
    && w.ops == map[1 := Importing(Attempt(NEW, 1, 3, true, SwappedBy(NEW, Gate.LANDOLT_CHECKS)))]
    && 3 in w.store.runs
  }

  lemma ReplaceFirst(w: World)
    requires Shelf(w, Active, Ready) && w.ops == map[]
    ensures Overtaken(Exec(w, REPLACE), Active, Ready)
  {
    AllSourcesPass();
    hide Exec, Stage, StatusOf, Passes, Accepted, AfterSwap, SwappedBy, Gate.Standard;
    UploadRun(w, 1, NEW, 1, Gate.LANDOLT_CHECKS);
    AfterSwapKeeps(StartRun(w, 1, NEW, 1, w.store.releases[1]), 1, BookedAt(w, NEW, 1), Gate.LANDOLT_CHECKS);
    assert w.store.releases[1 := w.store.releases[1]] == w.store.releases;
  }

  lemma ActivateSecond(w: World)
    requires Overtaken(w, Active, Ready)
    ensures Overtaken(Exec(w, USE_2009), Superseded, Active)
  {
    hide Exec, Stage, StatusOf, Accepted, SwappedBy, Gate.Standard;
    ActivationRun(w, 2, 2, Some(1));
    assert StepUp(w.store.releases, 2, Some(1)) == map[1 := Row1992(Superseded), 2 := Row2009(Active)];
  }

  /** The finalize aborts and its failure is recorded. */
  lemma AbortRun(w: World)
    requires Overtaken(w, Superseded, Active)
    ensures var v := Exec(w, ABORT);
            && v.store.releases == map[1 := Row1992(Superseded).(failure := Some("duplicate key")), 2 := Row2009(Active)]
            && FamilyRows(v.store, Landolt, 1) == [Star(2)]
            && v.ops == map[]
  {
    hide Stage, StatusOf, Accepted, Gate.Standard;
    var a := AttemptOf(w, 1);
    Continuity.TwoActive(w.store.releases, 1, FinalRow(w.store.releases[1], a), 2);
    ExecTwo(w, ABORT[0], ABORT[1]);
    hide OneActive;
    var v := Apply(w, Finalize(1));
    assert v == SetOp(w, 1, Failing(NEW, Some(3)));
  }

  /** Afterwards the row claims the old source while the new one's rows are served, and
      an import of the old source is skipped as unchanged, so it does not bring the old
      rows back. */
  lemma AbortedFinalizeMisleads()
    ensures var steps := FIRST + SECOND + USE_1992 + REPLACE + USE_2009 + ABORT;
            var w := Exec(GENESIS, steps);
            && 1 in w.store.releases
            && w.store.releases[1].checksum == Some(OLD.source.checksum)
            && FamilyRows(w.store, Landolt, 1) == Accepted(NEW.source.rows)
            && FamilyRows(w.store, Landolt, 1) != Accepted(OLD.source.rows)
            && Guarantees.SkipsImport(w, 0, OLD, 1)
  {
    AllSourcesPass();
    StarsDiffer();
    hide Exec, Stage, StatusOf, Passes, Accepted, Gate.Standard, Shelf, Overtaken, ImportSteps;
    ImportRun(OLD, Gate.LANDOLT_CHECKS);
    ExecAppend(GENESIS, FIRST, SECOND);
    SecondRun();
    ExecAppend(GENESIS, FIRST + SECOND, USE_1992);
    ActivateFirst(Exec(GENESIS, FIRST + SECOND));
    ExecAppend(GENESIS, FIRST + SECOND + USE_1992, REPLACE);
    ReplaceFirst(Exec(GENESIS, FIRST + SECOND + USE_1992));
    ExecAppend(GENESIS, FIRST + SECOND + USE_1992 + REPLACE, USE_2009);
    ActivateSecond(Exec(GENESIS, FIRST + SECOND + USE_1992 + REPLACE));
    ExecAppend(GENESIS, FIRST + SECOND + USE_1992 + REPLACE + USE_2009, ABORT);
    AbortRun(Exec(GENESIS, FIRST + SECOND + USE_1992 + REPLACE + USE_2009));
  }

  lemma StarsDiffer()
    ensures Star(1) != Star(2)
  {
    assert PythonText.Decimal(1)[0] != PythonText.Decimal(2)[0];
  }
}
