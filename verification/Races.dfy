/** Interleavings and sequences of commands in which the code falls short, each as a
    run from the empty catalog with a shipped release. `Continuity.StepContinuity` and
    `Continuity.NewlyActive` say which steps lose or gain the active release in general,
    and `Continuity.ActiveContinuity` what operators must refrain from. */
module Races {
  import opened Wrappers
  import opened Validation
  import opened Registry
  import opened Protocol
  import opened Importer
  import opened Maintenance
  import opened Runs
  import Continuity

  const REPLACE := VSX_IMPORT.(replace := true)
  const FORCED := VSX_IMPORT.(replace := true, force := true)

  const ACTIVATE := [OpenActivation(2, 1), ReadCurrent(2, None), Commit(2)]

  /** One release, its row in the given state, and nothing in flight. */
  function StarWorld(state: ReleaseState): World {
    var w := ImportedWorld(VSX_IMPORT, VSX_CHECKS);
    w.(store := w.store.(releases := map[1 := ImportedRow(VSX_IMPORT, VSX_CHECKS).(state := state)]))
  }

  lemma StarIsReady()
    ensures StarWorld(Ready) == ImportedWorld(VSX_IMPORT, VSX_CHECKS)
  {
    hide StatusOf, Stage;
  }

  /** A second import of the same source up to its swap, over the first. */
  lemma UploadAgain(state: ReleaseState, req: Request)
    requires req == REPLACE || req == FORCED
    requires IsBuilt(state) && (state == Active ==> req.force)
    ensures var w := Exec(StarWorld(state), Upload(1, req, 1, VSX_CHECKS));
            && w.store.releases == StarWorld(state).store.releases
            && w.store.runs.Keys == {1, 2}
            && w.ops == map[1 := Importing(Attempt(req, 1, 2, state == Active, SwappedBy(req, VSX_CHECKS)))]
  {
    StarPasses();
    hide Exec, Stage, StatusOf, Accepted, Passes, AfterSwap, SwappedBy;
    PassesAlike(req);
    var w := StarWorld(state);
    UploadRun(w, 1, req, 1, VSX_CHECKS);
    AfterSwapKeeps(StartRun(w, 1, req, 1, w.store.releases[1]), 1, BookedAt(w, req, 1), VSX_CHECKS);
    assert w.store.releases[1 := w.store.releases[1]] == w.store.releases;
  }

  /** Whether a source passes does not depend on the request's flags. */
  lemma PassesAlike(req: Request)
    requires req.key == VSX_IMPORT.key && req.source == VSX_IMPORT.source && req.expected == VSX_IMPORT.expected
    ensures Passes(req, VSX_CHECKS) == Passes(VSX_IMPORT, VSX_CHECKS)
    ensures StatusOf(req, VSX_CHECKS) == StatusOf(VSX_IMPORT, VSX_CHECKS)
  {
    hide Stage, Summarize, ProductionChecks;
  }

  /** A row in this state, and no other row. */
  predicate OnlyStar(w: World, state: ReleaseState) {
    w.store.releases == StarWorld(state).store.releases
  }

  lemma ActivateOver(w: World)
    requires OnlyStar(w, Ready) && 2 !in w.ops
    ensures OnlyStar(Exec(w, ACTIVATE), Active)
    ensures Exec(w, ACTIVATE) == w.(store := w.store.(releases := Exec(w, ACTIVATE).store.releases))
  {
    hide Exec, StatusOf, Stage;
    ActivationRun(w, 2, 1, None);
    assert StepUp(w.store.releases, 1, None) == StarWorld(Active).store.releases;
  }

  lemma StateOfStar(w: World, state: ReleaseState)
    requires OnlyStar(w, state)
    ensures HasActive(w.store.releases, Vsx) <==> state == Active
  {
    assert 1 in w.store.releases;
  }

  lemma FinalStar(req: Request, state: ReleaseState, wasActive: bool)
    requires req == REPLACE || req == FORCED
    ensures FinalRow(StarWorld(state).store.releases[1], Attempt(req, 1, 2, wasActive, SwappedBy(req, VSX_CHECKS)))
         == StarWorld(if wasActive then Active else Ready).store.releases[1]
  {
    hide StatusOf, Stage, Accepted;
    PassesAlike(req);
  }

  /** What finalize makes of the row, whatever it was meanwhile. */
  lemma FinalizeOver(w: World, req: Request, state: ReleaseState, wasActive: bool)
    requires req == REPLACE || req == FORCED
    requires OnlyStar(w, state) && w.store.runs.Keys == {1, 2} && 1 in w.ops
    requires w.ops[1] == Importing(Attempt(req, 1, 2, wasActive, SwappedBy(req, VSX_CHECKS)))
    ensures OnlyStar(Apply(w, Finalize(1)), if wasActive then Active else Ready)
  {
    hide Apply, StatusOf, Stage, Accepted, FinalRow, ImportedRow;
    FinalStar(req, state, wasActive);
    Continuity.FinalizeWrites(w, 1);
    var after := w.store.releases[1 := StarWorld(if wasActive then Active else Ready).store.releases[1]];
    assert after == StarWorld(if wasActive then Active else Ready).store.releases;
    StarAlone(if wasActive then Active else Ready);
  }

  lemma StarAlone(state: ReleaseState)
    ensures OneActive(StarWorld(state).store.releases)
  {
    hide StatusOf, Stage;
  }

  lemma ImportSucceeds()
    ensures Exec(GENESIS, ImportSteps(VSX_IMPORT, VSX_CHECKS)) == StarWorld(Ready)
  {
    hide Exec, StatusOf, Stage;
    StarImported();
    StarIsReady();
  }

  const IMPORT := ImportSteps(VSX_IMPORT, VSX_CHECKS)

  /******* Activating a release while its own import is in flight *******/

  /** The import reads its release as READY; an operator activates it before the import
      finalizes; the finalize writes READY over ACTIVE. Nobody deactivated anything and
      nothing was removed, yet the family had an active release and has none. */
  lemma ActivationDuringImportLosesActive()
    ensures HasActive(Exec(GENESIS, IMPORT + Upload(1, REPLACE, 1, VSX_CHECKS) + ACTIVATE).store.releases, Vsx)
    ensures !HasActive(Exec(GENESIS, IMPORT + Upload(1, REPLACE, 1, VSX_CHECKS) + ACTIVATE + [Finalize(1)]).store.releases, Vsx)
  {
    hide Exec, Apply, StatusOf, Stage, ImportSteps, SwappedBy, OnlyStar;
    ImportSucceeds();
    ExecAppend(GENESIS, IMPORT, Upload(1, REPLACE, 1, VSX_CHECKS));
    UploadAgain(Ready, REPLACE);
    var w := Exec(GENESIS, IMPORT + Upload(1, REPLACE, 1, VSX_CHECKS));
    ExecAppend(GENESIS, IMPORT + Upload(1, REPLACE, 1, VSX_CHECKS), ACTIVATE);
    UploadedStar(w, Ready);
    ActivateOver(w);
    var v := Exec(w, ACTIVATE);
    StateOfStar(v, Active);
    FinalizeOver(v, REPLACE, Active, false);
    ExecOne(GENESIS, IMPORT + Upload(1, REPLACE, 1, VSX_CHECKS) + ACTIVATE, Finalize(1));
    StateOfStar(Apply(v, Finalize(1)), Ready);
  }

  lemma UploadedStar(w: World, state: ReleaseState)
    requires w.store.releases == StarWorld(state).store.releases
    ensures OnlyStar(w, state)
  {
  }

  /******* Deactivating a release while its own import is in flight *******/

  const DEACTIVATE := [OpenDeactivation(2, 1), Commit(2)]

  lemma DeactivateOver(w: World)
    requires OnlyStar(w, Active) && 2 !in w.ops
    ensures OnlyStar(Exec(w, DEACTIVATE), Superseded)
    ensures Exec(w, DEACTIVATE) == w.(store := w.store.(releases := Exec(w, DEACTIVATE).store.releases))
  {
    hide Exec, StatusOf, Stage;
    DeactivationRun(w, 2, 1);
    assert w.store.releases[1 := w.store.releases[1].(state := Superseded)] == StarWorld(Superseded).store.releases;
  }

  /** A forced replacement of the active release read it as ACTIVE; an operator
      deactivates it meanwhile; the finalize makes it active again. Nobody activated it,
      and the warnings of its validation were never allowed. */
  lemma FinalizeUndoesDeactivation()
    ensures !VSX_IMPORT.activate && !VSX_IMPORT.allowWarnings
    ensures !HasActive(Exec(GENESIS, IMPORT + ACTIVATE + Upload(1, FORCED, 1, VSX_CHECKS) + DEACTIVATE).store.releases, Vsx)
    ensures HasActive(Exec(GENESIS, IMPORT + ACTIVATE + Upload(1, FORCED, 1, VSX_CHECKS) + DEACTIVATE + [Finalize(1)]).store.releases, Vsx)
  {
    hide Exec, Apply, StatusOf, Stage, ImportSteps, SwappedBy, OnlyStar;
    ImportSucceeds();
    var before := IMPORT + ACTIVATE;
    ExecAppend(GENESIS, IMPORT, ACTIVATE);
    UploadedStar(StarWorld(Ready), Ready);
    ActivateOver(StarWorld(Ready));
    StarIsActive();
    ExecAppend(GENESIS, before, Upload(1, FORCED, 1, VSX_CHECKS));
    UploadAgain(Active, FORCED);
    var w := Exec(GENESIS, before + Upload(1, FORCED, 1, VSX_CHECKS));
    ExecAppend(GENESIS, before + Upload(1, FORCED, 1, VSX_CHECKS), DEACTIVATE);
    UploadedStar(w, Active);
    DeactivateOver(w);
    var v := Exec(w, DEACTIVATE);
    StateOfStar(v, Superseded);
    FinalizeOver(v, FORCED, Superseded, true);
    ExecOne(GENESIS, before + Upload(1, FORCED, 1, VSX_CHECKS) + DEACTIVATE, Finalize(1));
    StateOfStar(Apply(v, Finalize(1)), Active);
  }

  lemma StarIsActive()
    ensures Exec(StarWorld(Ready), ACTIVATE) == StarWorld(Active)
  {
    hide Exec, StatusOf, Stage;
    UploadedStar(StarWorld(Ready), Ready);
    ActivateOver(StarWorld(Ready));
  }

  /******* Removing a release while it is being activated *******/

  lemma RemovalOpens()
    ensures Apply(StarWorld(Ready), OpenRemoval(1, 1, false)) == SetOp(StarWorld(Ready), 1, Removing(1, Some(Partition(Vsx, 1))))
  {
    hide StatusOf, Stage;
  }

  /** A removal without `--force` tests the state once, when it starts: it can delete
      the active release and the partition readers are using. */
  lemma UnforcedRemovalDropsActive()
    ensures var w := Exec(GENESIS, IMPORT + [OpenRemoval(1, 1, false)] + ACTIVATE);
            HasActive(w.store.releases, Vsx) && FamilyRows(w.store, Vsx, 1) == [STAR]
    ensures var v := Exec(GENESIS, IMPORT + [OpenRemoval(1, 1, false)] + ACTIVATE + [DropTable(1), DeleteRelease(1)]);
            !HasActive(v.store.releases, Vsx) && FamilyRows(v.store, Vsx, 1) == []
  {
    hide Exec, StatusOf, Stage, ImportSteps, Apply;
    ImportSucceeds();
    StarPasses();
    var removal := IMPORT + [OpenRemoval(1, 1, false)];
    ExecOne(GENESIS, IMPORT, OpenRemoval(1, 1, false));
    var w := Exec(GENESIS, removal);
    RemovalOpens();
    ExecAppend(GENESIS, removal, ACTIVATE);
    UploadedStar(w, Ready);
    ActivateOver(w);
    var v := Exec(w, ACTIVATE);
    StateOfStar(v, Active);
    ExecAppend(GENESIS, removal + ACTIVATE, [DropTable(1), DeleteRelease(1)]);
    ExecTwo(v, DropTable(1), DeleteRelease(1));
    DropAndDelete(v, 1, 1);
  }

  /******* Removing a release whose import died before finalize *******/

  /** The import raises between swap and finalize, so its row, FAILED, names no table. */
  const DIES := [Raise(0), RecordFailure(0, Some(1), "connection lost")]

  const REMOVE := [OpenRemoval(1, 1, false), DropTable(1), DeleteRelease(1)]

  const FIRST := Upload(0, VSX_IMPORT, 1, VSX_CHECKS)

  lemma ImportDies()
    ensures var w := UnfinalizedWorld(VSX_IMPORT, VSX_CHECKS);
            var v := Exec(w, DIES);
            && v.store.releases == map[1 := FailureRow(NewRelease(VSX_CURRENT), "connection lost")]
            && v.store.tables == w.store.tables && v.store.attached == w.store.attached
            && v.ops == map[]
  {
    hide StatusOf, Stage, Accepted;
    var w := UnfinalizedWorld(VSX_IMPORT, VSX_CHECKS);
    ExecTwo(w, DIES[0], DIES[1]);
    var v := Apply(w, DIES[0]);
    assert v == SetOp(w, 0, Failing(VSX_IMPORT, Some(1)));
    assert v.store.releases == map[1 := NewRelease(VSX_CURRENT)];
    assert 1 in v.store.releases;
  }

  /** The removal deletes the row and reports success; the partition stays attached and
      its rows stay in the family parent, under an id no row has. */
  lemma RemovalLeavesPartition()
    ensures var v := Exec(GENESIS, FIRST + DIES + REMOVE);
            v.store.releases == map[] && FamilyRows(v.store, Vsx, 1) == [STAR]
  {
    hide Exec, StatusOf, Stage, Apply;
    StarPasses();
    FirstUpload(VSX_IMPORT, VSX_CHECKS);
    ExecAppend(GENESIS, FIRST, DIES);
    ImportDies();
    var w := Exec(GENESIS, FIRST + DIES);
    ExecAppend(GENESIS, FIRST + DIES, REMOVE);
    assert w.store.releases[1].table.None? && w.store.releases[1].key == VSX_CURRENT;
    RemovalRun(w, 1, 1, false);
    assert (w.store.releases - {1}) == map[];
  }

  /******* Losing the id of a run *******/

  const LOSES := [Begin(0, VSX_IMPORT, 1), LoseRun(0), RecordFailure(0, Some(1), "connection lost")]

  /** The failure is recorded on the release and the call is over; the run it booked is
      RUNNING, and by `Guarantees.OrphanStaysRunning` stays so. */
  lemma LostRunIsLeftRunning()
    ensures var w := Exec(GENESIS, LOSES);
            && w.ops == map[]
            && 1 in w.store.runs && w.store.runs[1].status == Running
            && 1 in w.store.releases && w.store.releases[1].state == FailedImport
            && Guarantees.Orphaned(w, 1)
  {
    ExecThree(GENESIS, LOSES[0], LOSES[1], LOSES[2]);
    var w := Apply(GENESIS, LOSES[0]);
    assert w == StartRun(GENESIS, 0, VSX_IMPORT, 1, NewRelease(VSX_CURRENT));
    assert Apply(w, LOSES[1]) == SetOp(w, 0, Failing(VSX_IMPORT, None));
  }
}
