/** What is never empty and never failed: every table of every reachable state has rows,
    no release row carries a failed validation, and a release that can be activated was
    validated.

    Models `skycat/validation/common.py` and its callers in
    `skycat/ingestion/runner.py` and `skycat/ingestion/maintenance.py`. */
module Soundness {
  import opened Wrappers
  import opened Validation
  import opened Registry
  import opened Protocol
  import opened Invariant
  import opened Guarantees
  import opened History
  import opened Importer

  predicate VerdictOk(r: Release) {
    r.validation != FailedValidation && (IsBuilt(r.state) ==> Good(r.validation))
  }

  ghost predicate Sound(w: World) {
    && (forall t :: t in w.store.tables ==> w.store.tables[t].rows != [])
    && (forall id :: id in w.store.releases ==> VerdictOk(w.store.releases[id]))
    && (forall o :: o in w.ops && w.ops[o].Inspecting? ==> w.ops[o].table.Partition?)
    && (forall o :: o in w.ops && w.ops[o].Revalidating? ==> Good(w.ops[o].status))
  }

  /******* Tables *******/

  lemma TablesStayFilled(w: World, s: Step, t: TableName)
    requires forall u :: u in w.store.tables ==> w.store.tables[u].rows != []
    requires t in Apply(w, s).store.tables
    ensures Apply(w, s).store.tables[t].rows != []
  {
    if s.Build? {
      if IsImport(w, s.op) && AttemptOf(w, s.op).phase.Staged? && AttemptOf(w, s.op).req.key in w.store.staging {
        hide Summarize, ProductionChecks;
        var a := AttemptOf(w, s.op);
        var rows := Unrejected(w.store.staging[a.req.key]);
        if Summarize(ProductionChecks(rows, s.indexed, a.req.expected)) != FailedValidation {
          ProductionPassed(rows, s.indexed, a.req.expected);
        }
      }
    } else if s.Swap? {
    } else if s.DropTable? {
    } else {
      hide Apply;
      TablesFrame(w, s);
    }
  }

  /******* Operations that carry a verdict *******/

  lemma InspectionsName(w: World, s: Step, o: nat)
    requires Inv(w)
    requires forall p :: p in w.ops && w.ops[p].Inspecting? ==> w.ops[p].table.Partition?
    requires o in Apply(w, s).ops && Apply(w, s).ops[o].Inspecting?
    ensures Apply(w, s).ops[o].table.Partition?
  {
    hide Inv;
    if s.OpenRevalidation? && s.op == o {
      if s.id in w.store.releases {
        RowIsOk(w, s.id);
      }
    } else {
      StillInspecting(w, s, o);
    }
  }

  lemma StillInspecting(w: World, s: Step, o: nat)
    requires o in Apply(w, s).ops && Apply(w, s).ops[o].Inspecting? && !(s.OpenRevalidation? && s.op == o)
    ensures o in w.ops && w.ops[o] == Apply(w, s).ops[o]
  {
    hide Summarize, Stage, ProductionChecks, RangeChecks, CommitActivation, CommitDeactivation, OneActive, GateOpen,
      Unchanged, InFlight, IsLookup, FinalRow, FailureRow, FailureRuns, IsCurrent;
  }

  lemma StillRevalidating(w: World, s: Step, o: nat)
    requires o in Apply(w, s).ops && Apply(w, s).ops[o].Revalidating? && !(s.InspectPartition? && s.op == o)
    ensures o in w.ops && w.ops[o] == Apply(w, s).ops[o]
  {
    hide Summarize, Stage, ProductionChecks, RangeChecks, CommitActivation, CommitDeactivation, OneActive, GateOpen,
      Unchanged, InFlight, IsLookup, FinalRow, FailureRow, FailureRuns, IsCurrent;
  }

  lemma CleanTableIsGood(rows: seq<Row>, expected: Option<nat>)
    requires Accepted(rows) != []
    ensures Good(Summarize(ProductionChecks(Accepted(rows), true, expected) + RangeChecks(Accepted(rows))))
  {
    RevalidationPasses(rows, true, expected);
  }

  /** Whatever partition a revalidation counts, its verdict is not a failure. */
  lemma VerdictsAreGood(w: World, s: Step, o: nat)
    requires Inv(w) && Sound(w)
    requires o in Apply(w, s).ops && Apply(w, s).ops[o].Revalidating?
    ensures Good(Apply(w, s).ops[o].status)
  {
    if s.InspectPartition? && s.op == o {
      hide Summarize, ProductionChecks, RangeChecks, OpsOk, Apart, OneActive, KeysUnique;
      if o in w.ops && w.ops[o].Inspecting? && w.ops[o].table in w.store.tables {
        var t := w.ops[o].table;
        assert w.store.tables[t] == BuiltTable(w.last[t]);
        CleanTableIsGood(w.last[t].rows, w.ops[o].expected);
      }
    } else {
      hide Apply, Inv;
      StillRevalidating(w, s, o);
    }
  }

  /******* Release rows *******/

  lemma FinalizeOk(w: World, op: nat, id: nat)
    requires Inv(w) && WritesVerdict(w, Finalize(op), id).Some?
    ensures Good(WritesVerdict(w, Finalize(op), id).value.status)
  {
    OpIsOk(w, op);
  }

  /** No finalize writes a row it does not judge. */
  lemma UnjudgedFinalize(w: World, op: nat, id: nat)
    requires WritesVerdict(w, Finalize(op), id).None? && id in Apply(w, Finalize(op)).store.releases
    ensures id in w.store.releases && Apply(w, Finalize(op)).store.releases[id] == w.store.releases[id]
  {
    if IsImport(w, op) && AttemptOf(w, op).phase.Swapped? {
      hide Apply;
      Continuity.FinalizeWrites(w, op);
    }
  }

  lemma RowStaysOk(w: World, s: Step, id: nat)
    requires Inv(w) && Sound(w) && id in Apply(w, s).store.releases
    ensures VerdictOk(Apply(w, s).store.releases[id])
  {
    hide Inv, Apply;
    var v := Apply(w, s);
    StepKeeps(w, s);
    RowIsOk(v, id);
    VerdictStep(w, s, id);
    if v.store.releases[id].table.Some? {
      SwapEvidence(w, s, id);
    }
    if s.Finalize? {
      if WritesVerdict(w, s, id).Some? {
        FinalizeOk(w, s.op, id);
      } else {
        UnjudgedFinalize(w, s.op, id);
      }
    }
    if id in w.store.releases {
      RowIsOk(w, id);
    }
  }

  /******* Every step, every run *******/

  lemma SoundKeeps(w: World, s: Step)
    requires Inv(w) && Sound(w)
    ensures Sound(Apply(w, s))
  {
    hide Inv, Apply, VerdictOk;
    var v := Apply(w, s);
    forall t | t in v.store.tables ensures v.store.tables[t].rows != [] {
      TablesStayFilled(w, s, t);
    }
    forall id | id in v.store.releases ensures VerdictOk(v.store.releases[id]) {
      RowStaysOk(w, s, id);
    }
    forall o | o in v.ops && v.ops[o].Inspecting? ensures v.ops[o].table.Partition? {
      InspectionsName(w, s, o);
    }
    forall o | o in v.ops && v.ops[o].Revalidating? ensures Good(v.ops[o].status) {
      VerdictsAreGood(w, s, o);
    }
  }

  lemma {:induction false} RunsAreSound(w: World, steps: seq<Step>)
    requires Inv(w) && Sound(w)
    ensures Sound(Exec(w, steps))
    decreases |steps|
  {
    hide Inv, Sound, Apply;
    if steps != [] {
      StepKeeps(w, steps[0]);
      SoundKeeps(w, steps[0]);
      RunsAreSound(Apply(w, steps[0]), steps[1..]);
    }
  }

  /** Over every run no release row carries a failed validation, and a release that is
      active or can be activated has been validated, has its table, and was built from
      a source with acceptable rows. Failed and incomplete releases never activate. */
  lemma BuiltMeansValidated(steps: seq<Step>, id: nat)
    requires id in Exec(GENESIS, steps).store.releases
    ensures var w := Exec(GENESIS, steps);
            var r := w.store.releases[id];
            && r.validation != FailedValidation
            && (IsBuilt(r.state) ==>
                  && Good(r.validation)
                  && r.table == Some(Partition(r.key.family, id))
                  && (id !in w.dropped ==> FamilyRows(w.store, r.key.family, id) != []))
  {
    Safety(GENESIS, steps);
    RunsAreSound(GENESIS, steps);
    RowIsOk(Exec(GENESIS, steps), id);
  }

  /** So the skip path never meets a failed validation: its error is as dead as the one
      after finalize, and with nothing going wrong around it an import fails only on a
      refused replacement or a source that validation rejects. */
  lemma SkipNeverRefuses(steps: seq<Step>, id: nat, req: Request, faults: Faults)
    requires id in Exec(GENESIS, steps).store.releases
    ensures var r := Exec(GENESIS, steps).store.releases[id];
            && MoveOnSkip(r, req) != Refuse
            && (IsBuilt(r.state) ==>
                  (MoveOnSkip(r, req) == StepForward <==>
                     r.state != Active && req.activate && (r.validation == Passed || req.allowWarnings)))
            && (Doomed(Some(r), req, faults) <==>
                  !Unchanged(r, req) && (Refuses(r, req) || !SourcePasses(req, faults)))
  {
    hide Exec, SourcePasses;
    BuiltMeansValidated(steps, id);
  }

  /** Over every run the family parent holds no row for a release exactly when no
      partition of it is attached. */
  lemma NoRowsExactly(steps: seq<Step>, family: Family, id: nat)
    ensures var store := Exec(GENESIS, steps).store;
            FamilyRows(store, family, id) == [] <==> Partition(family, id) !in store.attached
  {
    Safety(GENESIS, steps);
    RunsAreSound(GENESIS, steps);
  }
}
