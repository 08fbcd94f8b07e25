/** The promises of the import protocol, read off the invariant or proved step by
    step: what the registry row means, what readers of a partition see, what a
    failed attempt leaves alone, and when skipping an import is honest. */
module Guarantees {
  import opened Wrappers
  import opened Validation
  import opened Registry
  import opened Protocol
  import opened Invariant
  import Continuity

  /******* The registry describes the data on disk *******/

  /** In every state of every run, `production_table` is set exactly for built
      releases; unless a removal of the release is half done that table is attached;
      and unless an import of it is (or died) between swap and finalize, the table was
      built from a source with the recorded checksum and holds the recorded row count. */
  lemma RegistryAgreesWithDisk(steps: seq<Step>, id: nat)
    requires id in Exec(GENESIS, steps).store.releases
    ensures var w := Exec(GENESIS, steps);
            var r := w.store.releases[id];
            && (r.table.Some? <==> IsBuilt(r.state))
            && (r.table.Some? && id !in w.dropped ==>
                  r.table.value in w.store.attached && r.table.value in w.store.tables)
            && (r.table.Some? && id !in w.dropped && id !in w.torn ==>
                  && r.checksum == Some(w.store.tables[r.table.value].source)
                  && r.imported == Some(|w.store.tables[r.table.value].rows|)
                  && r.imported == Some(|FamilyRows(w.store, r.key.family, id)|))
  {
    Safety(GENESIS, steps);
    RowIsOk(Exec(GENESIS, steps), id);
  }

  lemma OneActivePerFamily(steps: seq<Step>)
    ensures OneActive(Exec(GENESIS, steps).store.releases)
  {
    Safety(GENESIS, steps);
  }

  /******* Readers see whole imports *******/

  /** The source whose swap a step commits into `t`, if it commits one. */
  function SwapsInto(w: World, s: Step, t: TableName): Option<Source> {
    if s.Swap? && IsImport(w, s.op) && AttemptOf(w, s.op).phase.Built? then
      var a := AttemptOf(w, s.op);
      if t == Partition(a.req.key.family, a.id) && Incoming(a.req.key.family, a.id) in w.store.tables
      then Some(a.req.source) else None
    else None
  }

  predicate DropsTable(w: World, s: Step, t: TableName) {
    s.DropTable? && s.op in w.ops && w.ops[s.op].Removing? && w.ops[s.op].target == Some(t)
  }

  /** The last source swapped into `t` over a run and not dropped since. */
  function LastSource(w: World, steps: seq<Step>, t: TableName): Option<Source> {
    if steps == [] then None
    else
      var before := Exec(w, steps[..|steps| - 1]);
      var s := steps[|steps| - 1];
      if SwapsInto(before, s, t).Some? then SwapsInto(before, s, t)
      else if DropsTable(before, s, t) then None
      else LastSource(w, steps[..|steps| - 1], t)
  }

  lemma LastChanges(w: World, s: Step, t: TableName)
    ensures var v := Apply(w, s);
            if SwapsInto(w, s, t).Some? then t in v.last && v.last[t] == SwapsInto(w, s, t).value
            else if DropsTable(w, s, t) then t !in v.last
            else (t in v.last <==> t in w.last) && (t in v.last ==> v.last[t] == w.last[t])
  {
  }

  lemma {:induction false} LastIsLastSource(steps: seq<Step>, t: TableName)
    ensures var w := Exec(GENESIS, steps);
            LastSource(GENESIS, steps, t) == if t in w.last then Some(w.last[t]) else None
  {
    if steps != [] {
      var init := steps[..|steps| - 1];
      var s := steps[|steps| - 1];
      LastIsLastSource(init, t);
      ExecAppend(GENESIS, init, [s]);
      assert steps == init + [s];
      assert Exec(Exec(GENESIS, init), [s]) == Apply(Exec(GENESIS, init), s);
      LastChanges(Exec(GENESIS, init), s, t);
    }
  }

  /** Over any run, what the family parent holds for a release is exactly the
      acceptable rows of the last source whose swap committed for it: none before
      the first swap, none after the partition is dropped, never a mixture. */
  lemma ParentHoldsLastSource(steps: seq<Step>, family: Family, id: nat)
    ensures var last := LastSource(GENESIS, steps, Partition(family, id));
            FamilyRows(Exec(GENESIS, steps).store, family, id)
            == if last.Some? then Accepted(last.value.rows) else []
  {
    Safety(GENESIS, steps);
    LastIsLastSource(steps, Partition(family, id));
  }

  lemma ServesLast(w: World, family: Family, id: nat)
    requires Inv(w) && Partition(family, id) in w.last
    ensures FamilyRows(w.store, family, id) == Accepted(w.last[Partition(family, id)].rows)
  {
  }

  /******* What an attempt leaves alone *******/

  /** The partitions readers can reach, with their rows. */
  function Production(store: Store): map<TableName, Table> {
    map t | t in store.tables && t.Partition? :: store.tables[t]
  }

  predicate StartsOperation(s: Step) {
    s.Begin? || s.BeginFails? || s.OpenActivation? || s.OpenDeactivation? || s.OpenRemoval? || s.OpenRevalidation?
  }

  lemma OpeningFrame(w: World, s: Step)
    requires StartsOperation(s)
    ensures Apply(w, s).store.tables == w.store.tables && Apply(w, s).store.attached == w.store.attached
  {
    hide Summarize, ProductionChecks, RangeChecks, InFlight, GateOpen, Unchanged, IsLookup;
  }

  lemma TablesFrame(w: World, s: Step)
    requires !s.Build? && !s.Swap? && !s.DropTable?
    ensures Apply(w, s).store.tables == w.store.tables && Apply(w, s).store.attached == w.store.attached
  {
    hide Summarize, Stage, ProductionChecks, RangeChecks, CommitActivation, OneActive;
    if StartsOperation(s) {
      hide Apply;
      OpeningFrame(w, s);
    }
  }

  /** Only a swap that commits and a removal's drop touch production. */
  lemma ProductionFrame(w: World, s: Step)
    requires !s.Swap? && !s.DropTable?
    ensures Production(Apply(w, s).store) == Production(w.store)
    ensures Apply(w, s).store.attached == w.store.attached
  {
    hide Summarize, ProductionChecks;
    if !s.Build? {
      hide Apply;
      TablesFrame(w, s);
    }
  }

  /** A swap replaces its own partition and no other. */
  lemma SwapFrame(w: World, op: nat, t: TableName)
    requires Inv(w) && t.Partition? && SwapsInto(w, Swap(op), t).None?
    ensures var v := Apply(w, Swap(op));
            && (t in v.store.attached <==> t in w.store.attached)
            && (t in v.store.tables <==> t in w.store.tables)
            && (t in v.store.tables ==> v.store.tables[t] == w.store.tables[t])
  {
    hide Inv;
  }

  /** The steps an import takes up to its swap, and its failure. */
  predicate BeforeSwap(s: Step) {
    || s.Begin? || s.BeginFails? || s.StageRows? || s.Build? || s.LockTimeout?
    || s.Raise? || s.LoseRun? || s.RecordFailure? || s.Vanish?
  }

  /** What a step before the swap may do to an existing release row. */
  predicate NotesFailure(s: Step, r: Release, r': Release) {
    || r' == r
    || (s.RecordFailure? && IsBuilt(r.state) && r' == r.(failure := Some(s.error)))
    || (s.RecordFailure? && !IsBuilt(r.state) && r.table.None? && r' == r.(failure := Some(s.error), state := FailedImport))
  }

  lemma BeginFrame(w: World, op: nat, req: Request, found: nat, id: nat)
    requires id in w.store.releases
    ensures var v := Apply(w, Begin(op, req, found)); id in v.store.releases && v.store.releases[id] == w.store.releases[id]
  {
    hide InFlight, IsLookup, Unchanged, GateOpen;
  }

  lemma RecorderFrame(w: World, op: nat, found: Option<nat>, error: string, id: nat)
    requires id in w.store.releases && RowOk(id, w.store.releases[id])
    ensures var s := RecordFailure(op, found, error);
            id in Apply(w, s).store.releases && NotesFailure(s, w.store.releases[id], Apply(w, s).store.releases[id])
  {
  }

  lemma RowFrame(w: World, s: Step, id: nat)
    requires Inv(w) && BeforeSwap(s) && id in w.store.releases
    ensures id in Apply(w, s).store.releases
    ensures NotesFailure(s, w.store.releases[id], Apply(w, s).store.releases[id])
  {
    hide Inv, Apply;
    RowIsOk(w, id);
    match s
    case Begin(op, req, found) => BeginFrame(w, op, req, found, id);
    case RecordFailure(op, found, error) => RecorderFrame(w, op, found, error, id);
    case _ => Continuity.QuietStep(w, s);
  }

  /** Until its swap an attempt rewrites no existing release row, except that the
      failure recorder notes the error and, only when nothing was built, fails it. */
  lemma FailureFrame(w: World, s: Step, id: nat)
    requires Inv(w) && BeforeSwap(s) && id in w.store.releases
    ensures Production(Apply(w, s).store) == Production(w.store)
    ensures id in Apply(w, s).store.releases
    ensures NotesFailure(s, w.store.releases[id], Apply(w, s).store.releases[id])
  {
    hide Inv, Production, Apply, NotesFailure;
    ProductionFrame(w, s);
    RowFrame(w, s, id);
  }

  /** `after` is `before` but for a recorded failure, which demotes only a release
      with nothing built. */
  predicate OnlyFailed(before: Release, after: Release) {
    && after == before.(failure := after.failure, state := after.state)
    && (after.state == before.state || (after.state == FailedImport && !IsBuilt(before.state)))
  }

  /** Any number of attempts that never reach their swap, interleaved in any way,
      leave every release row as it was, failure notes aside. */
  lemma {:induction false} FailedAttemptsKeepRows(w: World, steps: seq<Step>, id: nat)
    requires Inv(w) && id in w.store.releases
    requires forall s :: s in steps ==> BeforeSwap(s)
    ensures var v := Exec(w, steps);
            && id in v.store.releases
            && OnlyFailed(w.store.releases[id], v.store.releases[id])
    decreases |steps|
  {
    hide Inv, Apply;
    if steps != [] {
      var s := steps[0];
      assert BeforeSwap(s);
      StepKeeps(w, s);
      FailureFrame(w, s, id);
      FailedAttemptsKeepRows(Apply(w, s), steps[1..], id);
    }
  }

  /** They leave every partition as it was too. */
  lemma {:induction false} FailedAttemptsKeepProduction(w: World, steps: seq<Step>)
    requires Inv(w)
    requires forall s :: s in steps ==> BeforeSwap(s)
    ensures var v := Exec(w, steps);
            Production(v.store) == Production(w.store) && v.store.attached == w.store.attached
    decreases |steps|
  {
    hide Inv, Apply;
    if steps != [] {
      assert BeforeSwap(steps[0]);
      StepKeeps(w, steps[0]);
      ProductionFrame(w, steps[0]);
      FailedAttemptsKeepProduction(Apply(w, steps[0]), steps[1..]);
    }
  }

  /** An ingestion run settles at most once. */
  predicate Settles(before: RunStatus, after: RunStatus) {
    before == after || before == Running
  }

  /** A step rewrites no run's outcome but that of a running attempt. */
  lemma StepSettles(w: World, s: Step, run: nat)
    requires Inv(w) && run in w.store.runs && run in Apply(w, s).store.runs
    ensures Settles(w.store.runs[run].status, Apply(w, s).store.runs[run].status)
  {
    hide Inv, OneActive;
    RunIsOk(w, run);
    if !WritesRuns(s) {
      hide Apply;
      RunsFrame(w, s);
    } else if s.Finalize? && IsImport(w, s.op) {
      FinalizeSettles(w, s.op);
    }
  }

  lemma RunIsOk(w: World, run: nat)
    requires Inv(w) && run in w.store.runs
    ensures run <= w.store.lastRun
  {
  }

  lemma FinalizeSettles(w: World, op: nat)
    requires Inv(w) && IsImport(w, op)
    ensures var a := AttemptOf(w, op);
            a.phase.Swapped? && a.run in w.store.runs ==> w.store.runs[a.run].status == Running
  {
    OpIsOk(w, op);
  }

  predicate WritesRuns(s: Step) {
    s.Begin? || s.Finalize? || s.RecordFailure? || s.DeleteRelease?
  }

  lemma RunsFrame(w: World, s: Step)
    requires !WritesRuns(s)
    ensures Apply(w, s).store.runs == w.store.runs && Apply(w, s).store.lastRun == w.store.lastRun
  {
    hide Summarize, Stage, ProductionChecks, RangeChecks, CommitActivation, OneActive;
  }

  lemma RunsAreNew(w: World, s: Step, run: nat)
    requires run <= w.store.lastRun
    ensures run in Apply(w, s).store.runs ==> run in w.store.runs
    ensures w.store.lastRun <= Apply(w, s).store.lastRun
  {
    if !WritesRuns(s) {
      hide Apply;
      RunsFrame(w, s);
    }
  }

  lemma {:induction false} RunsStayDeleted(w: World, steps: seq<Step>, run: nat)
    requires run in Exec(w, steps).store.runs && run <= w.store.lastRun
    ensures run in w.store.runs
    decreases |steps|
  {
    hide Apply;
    if steps != [] {
      RunsAreNew(w, steps[0], run);
      RunsStayDeleted(Apply(w, steps[0]), steps[1..], run);
    }
  }

  /** Over any run an ingestion run moves from RUNNING to an outcome at most once. */
  lemma {:induction false} RunsSettleOnce(w: World, steps: seq<Step>, run: nat)
    requires Inv(w) && run in w.store.runs && run in Exec(w, steps).store.runs
    ensures Settles(w.store.runs[run].status, Exec(w, steps).store.runs[run].status)
    decreases |steps|
  {
    hide Inv, Apply;
    if steps != [] {
      var v := Apply(w, steps[0]);
      StepKeeps(w, steps[0]);
      RunIsOk(w, run);
      RunsAreNew(w, steps[0], run);
      RunsStayDeleted(v, steps[1..], run);
      StepSettles(w, steps[0], run);
      RunsSettleOnce(v, steps[1..], run);
    }
  }

  /** Is no operation in flight the owner of this run? */
  predicate Orphaned(w: World, run: nat) {
    run <= w.store.lastRun && forall o :: o in w.ops ==> OpRun(w.ops[o]) != Some(run)
  }

  lemma OrphanAfterBegin(w: World, op: nat, req: Request, id: nat, run: nat)
    requires Orphaned(w, run)
    ensures Orphaned(Apply(w, Begin(op, req, id)), run)
  {
    hide GateOpen, Unchanged, InFlight, IsLookup;
  }

  lemma OrphanAfterOther(w: World, s: Step, run: nat)
    requires Orphaned(w, run) && !s.Begin?
    ensures Orphaned(Apply(w, s), run)
  {
    hide Summarize, Stage, ProductionChecks, RangeChecks, CommitActivation, CommitDeactivation, OneActive, GateOpen,
      InFlight, FinalRow, FailureRow, FailureRuns, IsCurrent;
  }

  lemma OrphanOps(w: World, s: Step, run: nat)
    requires Orphaned(w, run)
    ensures Orphaned(Apply(w, s), run)
  {
    hide Apply, Orphaned;
    if s.Begin? {
      OrphanAfterBegin(w, s.op, s.req, s.id, run);
    } else {
      OrphanAfterOther(w, s, run);
    }
  }

  lemma OrphanRow(w: World, s: Step, run: nat)
    requires Orphaned(w, run) && run in w.store.runs
    ensures run in Apply(w, s).store.runs ==> Apply(w, s).store.runs[run] == w.store.runs[run]
  {
    hide OneActive;
    if !WritesRuns(s) {
      hide Apply;
      RunsFrame(w, s);
    }
  }

  /** Losing the run's id, like a crash, leaves the run without an owner. */
  lemma LosingOrphans(w: World, op: nat)
    requires Inv(w) && IsImport(w, op)
    ensures AttemptOf(w, op).phase.Booked? ==> Orphaned(Apply(w, LoseRun(op)), AttemptOf(w, op).run)
    ensures Orphaned(Apply(w, Vanish(op)), AttemptOf(w, op).run)
  {
    var a := AttemptOf(w, op);
    OpIsOk(w, op);
    forall o | o in w.ops && o != op ensures OpRun(w.ops[o]) != Some(a.run) {
      assert Distinct(w.ops[op], w.ops[o]);
    }
  }

  /** A run that no operation owns any more is never settled: a crash, or a failure
      that lost its id, leaves it RUNNING until its release is deleted. */
  lemma {:induction false} OrphanStaysRunning(w: World, steps: seq<Step>, run: nat)
    requires Orphaned(w, run) && run in w.store.runs && run in Exec(w, steps).store.runs
    ensures Exec(w, steps).store.runs[run] == w.store.runs[run]
    decreases |steps|
  {
    hide Apply, Orphaned;
    if steps != [] {
      var v := Apply(w, steps[0]);
      OrphanOps(w, steps[0], run);
      OrphanBound(v, run);
      RunsStayDeleted(v, steps[1..], run);
      OrphanRow(w, steps[0], run);
      OrphanStaysRunning(v, steps[1..], run);
    }
  }

  lemma OrphanBound(w: World, run: nat)
    requires Orphaned(w, run)
    ensures run <= w.store.lastRun
  {
  }

  /******* The activation gate *******/

  /** In every interleaving: an attempt that has finalized passed validation, so its
      "validation failed" branch is dead; and it finds its release activatable or
      active unless a removal took the row away in between. */
  lemma FinalizedMayActivate(steps: seq<Step>, op: nat)
    requires IsImport(Exec(GENESIS, steps), op) && AttemptOf(Exec(GENESIS, steps), op).phase.Finalized?
    ensures var w := Exec(GENESIS, steps);
            var a := AttemptOf(w, op);
            && a.phase.status != FailedValidation
            && (a.id in w.store.releases ==> IsBuilt(w.store.releases[a.id].state))
            && op in Apply(w, Decide(op)).ops
            && (Apply(w, Decide(op)).ops[op].Failing? <==> a.id !in w.store.releases)
            && (Apply(w, Decide(op)).ops[op].Chosen? <==>
                  && a.id in w.store.releases && w.store.releases[a.id].state != Active
                  && a.req.activate && !a.wasActive
                  && (a.phase.status == Passed || (a.phase.status == PassedWithWarnings && a.req.allowWarnings)))
  {
    var w := Exec(GENESIS, steps);
    Safety(GENESIS, steps);
    OpIsOk(w, op);
    hide Core, Exec;
    if AttemptOf(w, op).id in w.store.releases {
      RowIsOk(w, AttemptOf(w, op).id);
    }
  }

  /******* Skipping an unchanged import is honest *******/

  predicate SkipsImport(w: World, op: nat, req: Request, id: nat) {
    && op !in w.ops
    && !InFlight(w, req.key)
    && IsLookup(w.store, req.key, id)
    && id in w.store.releases
    && Unchanged(w.store.releases[id], req)
  }

  /** When the unchanged-checksum path is taken the attached partition really is a
      whole build of a source with that checksum, and the call writes no table,
      staging table, run or release row. */
  lemma SkipIsHonest(w: World, op: nat, req: Request, id: nat)
    requires Inv(w) && SkipsImport(w, op, req, id)
    requires id !in w.torn && id !in w.dropped
    ensures Apply(w, Begin(op, req, id)).store == w.store
    ensures var t := Partition(req.key.family, id);
            && t in w.store.attached
            && t in w.last
            && w.last[t].checksum == req.source.checksum
            && w.store.tables[t] == Table(Accepted(w.last[t].rows), req.source.checksum, true)
  {
  }

  /** Does the row still claim this checksum for a built partition? */
  predicate Claims(w: World, id: nat, checksum: string) {
    && id in w.store.releases
    && IsBuilt(w.store.releases[id].state)
    && w.store.releases[id].table.Some?
    && w.store.releases[id].checksum == Some(checksum)
  }

  /** The two commits that end a claim: the finalize of another source, and the
      deletion of the row. */
  predicate EndsClaim(w: World, s: Step, id: nat, checksum: string) {
    || (s.DeleteRelease? && s.op in w.ops && w.ops[s.op].Dropped? && w.ops[s.op].id == id)
    || (s.Finalize? && IsImport(w, s.op) && AttemptOf(w, s.op).phase.Swapped? && AttemptOf(w, s.op).id == id
        && FinalizeCommits(w, AttemptOf(w, s.op)) && AttemptOf(w, s.op).req.source.checksum != checksum)
  }

  lemma CommitKeepsClaim(w: World, op: nat, id: nat, checksum: string)
    requires Inv(w) && Claims(w, id, checksum) && op in w.ops
    ensures Claims(ApplyCommit(w, op), id, checksum)
  {
    hide Inv, StepUp;
    if w.ops[op].Superseding? && CommitActivation(w.store.releases, w.ops[op].id, w.ops[op].current).Some? {
      ActivationStates(w, op);
    }
  }

  lemma RowWriteKeepsClaim(w: World, s: Step, id: nat, checksum: string)
    requires Inv(w) && Claims(w, id, checksum)
    requires Continuity.WritesRegistry(s) && !s.Commit?
    ensures Claims(Apply(w, s), id, checksum) <==> !EndsClaim(w, s, id, checksum)
  {
    hide Inv, OneActive, Summarize, GateOpen, FailureRuns, InFlight, FinalizeCommits;
    if s.Finalize? {
      if IsImport(w, s.op) && AttemptOf(w, s.op).phase.Swapped? {
        hide Apply;
        Continuity.FinalizeWrites(w, s.op);
      }
    } else if s.DeleteRelease? {
      if s.op in w.ops && w.ops[s.op].Dropped? {
        hide Apply;
        Continuity.DeleteWrites(w, s.op);
      }
    }
  }

  /** A claim ends with exactly these two commits. */
  lemma ClaimStands(w: World, s: Step, id: nat, checksum: string)
    requires Inv(w) && Claims(w, id, checksum)
    ensures Claims(Apply(w, s), id, checksum) <==> !EndsClaim(w, s, id, checksum)
  {
    hide Inv;
    if s.Commit? {
      if s.op in w.ops {
        CommitKeepsClaim(w, s.op, id, checksum);
      }
    } else if Continuity.WritesRegistry(s) {
      RowWriteKeepsClaim(w, s, id, checksum);
    } else {
      Continuity.QuietStep(w, s);
    }
  }

  ghost predicate NeverEnds(w: World, steps: seq<Step>, id: nat, checksum: string)
    decreases |steps|
  {
    steps == []
    || (!EndsClaim(w, steps[0], id, checksum) && NeverEnds(Apply(w, steps[0]), steps[1..], id, checksum))
  }

  /** After a success, a later import of the same source without `replace` takes the
      skip path until another source is finalized or the release is deleted. */
  lemma {:induction false} SkipPersists(w: World, steps: seq<Step>, id: nat, req: Request)
    requires Inv(w) && Claims(w, id, req.source.checksum) && w.store.releases[id].key == req.key
    requires NeverEnds(w, steps, id, req.source.checksum) && !req.replace
    ensures var v := Exec(w, steps);
            forall op :: op !in v.ops && !InFlight(v, req.key) ==> SkipsImport(v, op, req, id)
    decreases |steps|
  {
    hide Inv, Apply;
    if steps == [] {
      assert Exec(w, steps) == w;
    } else {
      var v := Apply(w, steps[0]);
      StepKeeps(w, steps[0]);
      ClaimStands(w, steps[0], id, req.source.checksum);
      Continuity.KeysStay(w, steps[0], id);
      SkipPersists(v, steps[1..], id, req);
      assert Exec(w, steps) == Exec(v, steps[1..]);
    }
  }
}
