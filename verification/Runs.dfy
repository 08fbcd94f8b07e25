/** A clean import from the empty catalog, of any request whose source passes
    validation, and what state it leaves: the ground the concrete runs of the other
    modules stand on. */
module Runs {
  import opened Wrappers
  import opened Validation
  import opened Registry
  import opened Protocol
  import opened Invariant
  import opened Maintenance

  function StagedBy(req: Request, others: seq<Check>): Staging {
    Stage(req.key.family, req.source.rows, others)
  }

  function BuildChecks(req: Request): seq<Check> {
    ProductionChecks(Accepted(req.source.rows), true, req.expected)
  }

  /** Neither staging nor production validation fails this source. */
  predicate Passes(req: Request, others: seq<Check>) {
    Summarize(StagedBy(req, others).checks) != FailedValidation && Summarize(BuildChecks(req)) != FailedValidation
  }

  function StatusOf(req: Request, others: seq<Check>): ValidationStatus {
    Summarize(StagedBy(req, others).checks + BuildChecks(req))
  }

  function BuiltOf(req: Request): Table {
    Table(Accepted(req.source.rows), req.source.checksum, true)
  }

  function SwappedBy(req: Request, others: seq<Check>): Phase {
    Swapped(StagedBy(req, others).rejected, |Accepted(req.source.rows)|, StatusOf(req, others))
  }

  /** The world once the source of an attempt is staged, built and swapped in. */
  function AfterSwap(w: World, op: nat, a: Attempt, others: seq<Check>): World {
    var t := Partition(a.req.key.family, a.id);
    w.(store := w.store.(
         staging := w.store.staging[a.req.key := StagedBy(a.req, others).table],
         tables := (w.store.tables - {t, Incoming(a.req.key.family, a.id)})[t := BuiltOf(a.req)],
         attached := w.store.attached + {t}),
       torn := w.torn + {a.id},
       dropped := w.dropped - {a.id},
       last := w.last[t := a.req.source],
       ops := w.ops[op := Importing(a.(phase := SwappedBy(a.req, others)))])
  }

  lemma AfterSwapKeeps(w: World, op: nat, a: Attempt, others: seq<Check>)
    ensures var v := AfterSwap(w, op, a, others);
            && v.store.releases == w.store.releases
            && v.store.runs == w.store.runs
            && v.store.lastRun == w.store.lastRun && v.store.lastRelease == w.store.lastRelease
            && FamilyRows(v.store, a.req.key.family, a.id) == Accepted(a.req.source.rows)
            && v.ops == w.ops[op := Importing(a.(phase := SwappedBy(a.req, others)))]
  {
    hide SwappedBy, Accepted;
  }

  lemma StageStep(w: World, op: nat, a: Attempt, others: seq<Check>)
    requires op in w.ops && w.ops[op] == Importing(a) && a.phase.Booked? && Passes(a.req, others)
    ensures var s := StagedBy(a.req, others);
            Apply(w, StageRows(op, others))
            == w.(store := w.store.(staging := w.store.staging[a.req.key := s.table]),
                  ops := w.ops[op := Importing(a.(phase := Staged(s.rejected, s.checks)))])
  {
    hide Stage, Summarize, BuildChecks;
  }

  lemma BuildStep(w: World, op: nat, a: Attempt, others: seq<Check>)
    requires Passes(a.req, others)
    requires var s := StagedBy(a.req, others);
             && op in w.ops && w.ops[op] == Importing(a) && a.phase == Staged(s.rejected, s.checks)
             && a.req.key in w.store.staging && w.store.staging[a.req.key] == s.table
    ensures var s := StagedBy(a.req, others);
            Apply(w, Build(op, true))
            == w.(store := w.store.(tables := w.store.tables[Incoming(a.req.key.family, a.id) := BuiltOf(a.req)]),
                  ops := w.ops[op := Importing(a.(phase := Built(s.rejected, |Accepted(a.req.source.rows)|, StatusOf(a.req, others))))])
  {
    hide Stage, ProductionChecks, Summarize, Unrejected, Accepted;
    StageConserves(a.req.key.family, a.req.source.rows, others);
  }

  lemma SwapStep(w: World, op: nat, a: Attempt, others: seq<Check>)
    requires var s := StagedBy(a.req, others);
             && op in w.ops
             && w.ops[op] == Importing(a)
             && a.phase == Built(s.rejected, |Accepted(a.req.source.rows)|, StatusOf(a.req, others))
             && a.req.key in w.store.staging && w.store.staging[a.req.key] == s.table
             && Incoming(a.req.key.family, a.id) in w.store.tables
             && w.store.tables[Incoming(a.req.key.family, a.id)] == BuiltOf(a.req)
    ensures Apply(w, Swap(op)) == AfterSwap(w, op, a, others)
  {
    hide Stage, StatusOf, Accepted;
  }

  /** Phases A, B1 and B2 of an attempt whose source passes. */
  lemma SwapRun(w: World, op: nat, a: Attempt, others: seq<Check>)
    requires op in w.ops && w.ops[op] == Importing(a) && a.phase.Booked? && Passes(a.req, others)
    ensures Exec(w, [StageRows(op, others), Build(op, true), Swap(op)]) == AfterSwap(w, op, a, others)
  {
    hide Apply, Stage, StatusOf, Accepted, Passes, BuiltOf;
    var s := StagedBy(a.req, others);
    var staged := a.(phase := Staged(s.rejected, s.checks));
    var built := a.(phase := Built(s.rejected, |Accepted(a.req.source.rows)|, StatusOf(a.req, others)));
    StageStep(w, op, a, others);
    BuildStep(Apply(w, StageRows(op, others)), op, staged, others);
    SwapStep(Apply(Apply(w, StageRows(op, others)), Build(op, true)), op, built, others);
    ExecThree(w, StageRows(op, others), Build(op, true), Swap(op));
  }

  function Upload(op: nat, req: Request, id: nat, others: seq<Check>): seq<Step> {
    [Begin(op, req, id)] + [StageRows(op, others), Build(op, true), Swap(op)]
  }

  /** The row an import of this request starts from. */
  function RowBefore(w: World, req: Request, id: nat): Release {
    if id in w.store.releases then w.store.releases[id] else NewRelease(req.key)
  }

  function BookedAt(w: World, req: Request, id: nat): Attempt {
    Attempt(req, id, w.store.lastRun + 1, RowBefore(w, req, id).state == Active, Booked)
  }

  /** May a booking of this request go through now? */
  predicate Admits(w: World, req: Request, id: nat) {
    && w.ops == map[]
    && IsLookup(w.store, req.key, id)
    && (id in w.store.releases ==>
          !Unchanged(w.store.releases[id], req) && (w.store.releases[id].state == Active ==> req.replace && req.force))
  }

  lemma BookingRun(w: World, op: nat, req: Request, id: nat)
    requires Admits(w, req, id)
    ensures Apply(w, Begin(op, req, id)) == StartRun(w, op, req, id, RowBefore(w, req, id))
    ensures Apply(w, Begin(op, req, id)).ops == map[op := Importing(BookedAt(w, req, id))]
  {
  }

  /** An import up to its swap, from any state in which nothing is in flight. */
  lemma UploadRun(w: World, op: nat, req: Request, id: nat, others: seq<Check>)
    requires Admits(w, req, id) && Passes(req, others)
    ensures Exec(w, Upload(op, req, id, others))
         == AfterSwap(StartRun(w, op, req, id, RowBefore(w, req, id)), op, BookedAt(w, req, id), others)
  {
    hide Apply, AfterSwap, Admits, Passes, StartRun;
    BookingRun(w, op, req, id);
    var v := Apply(w, Begin(op, req, id));
    SwapRun(v, op, BookedAt(w, req, id), others);
    assert Upload(op, req, id, others)[1..] == [StageRows(op, others), Build(op, true), Swap(op)];
    assert Exec(w, Upload(op, req, id, others)) == Exec(v, Upload(op, req, id, others)[1..]);
  }

  /******* One good row *******/

  predicate AllPass(checks: seq<Check>) {
    forall c :: c in checks ==> c.passed
  }

  /** A source of one acceptable row, of any family but Stetson, passes staging clean. */
  lemma OneRowStages(req: Request, row: Row, others: seq<Check>)
    requires req.source.rows == [row] && Acceptable(row) && req.key.family != Stetson && AllPass(others)
    ensures Summarize(StagedBy(req, others).checks) == Passed
    ensures Accepted([row]) == [row]
  {
    var s := StagedBy(req, others);
    MarkCommonClassifies([row]);
    var table := [StagedRow(row, None)];
    assert s.table == table;
    forall mark | mark != None ensures CountMarked(table, mark) == 0 {
      CountsNothing(table, mark);
    }
    assert CountRejected(table) == CountRejected(table[1..]) == 0;
    assert CountValid(table) == 1 + CountValid(table[1..]);
    assert AllPass(CommonChecks(table));
    assert s.checks == CommonChecks(table) + others;
  }

  /** It passes production too, with a warning when far more rows were expected. */
  lemma OneRowPasses(req: Request, row: Row, others: seq<Check>)
    requires req.source.rows == [row] && Acceptable(row) && req.key.family != Stetson && AllPass(others)
    requires req.expected.Some? && req.expected.value >= 3
    ensures Passes(req, others) && Accepted([row]) == [row]
    ensures StatusOf(req, others) == PassedWithWarnings
  {
    OneRowStages(req, row, others);
    hide Stage;
    var checks := BuildChecks(req);
    assert checks[1] == Check("row_count_vs_expected", Warning, false);
    assert checks[1] in checks;
    assert forall c :: c in checks && !c.passed ==> c.level == Warning;
    SummarizeAppend(StagedBy(req, others).checks, checks);
  }

  /******* From swap to the end *******/

  lemma FinalizeAlone(w: World, op: nat, a: Attempt)
    requires w.ops == map[op := Importing(a)] && a.phase.Swapped?
    requires a.id in w.store.releases && a.run in w.store.runs && OneActive(w.store.releases)
    requires !a.wasActive && w.store.releases[a.id].state != Active
    ensures var v := Apply(w, Finalize(op));
            && v.store == w.store.(
                 releases := w.store.releases[a.id := FinalRow(w.store.releases[a.id], a)],
                 runs := w.store.runs[a.run := w.store.runs[a.run].(status := Succeeded)])
            && v.ops == map[op := Importing(a.(phase := Finalized(a.phase.status)))]
  {
    OneActiveAfter(w.store.releases, a.id, FinalRow(w.store.releases[a.id], a));
    hide OneActive;
  }

  lemma WindUp(w: World, op: nat, a: Attempt)
    requires w.ops == map[op := Importing(a)] && a.phase.Finalized? && Good(a.phase.status)
    requires a.id in w.store.releases && !a.wasActive && !a.req.activate
    ensures var v := Apply(Apply(w, Decide(op)), Cleanup(op));
            && v.store == w.store.(staging := v.store.staging)
            && v.ops == map[]
  {
    var v := Apply(w, Decide(op));
    assert v.ops == map[op := Importing(a.(phase := Cleaning))];
  }

  /** An import that activates nothing, from its swap on, with nothing else in flight. */
  lemma FinishRun(w: World, op: nat, a: Attempt)
    requires w.ops == map[op := Importing(a)] && a.phase.Swapped? && Good(a.phase.status)
    requires a.id in w.store.releases && a.run in w.store.runs && OneActive(w.store.releases)
    requires !a.wasActive && !a.req.activate && w.store.releases[a.id].state != Active
    ensures var v := Exec(w, [Finalize(op), Decide(op), Cleanup(op)]);
            && v.store.releases == w.store.releases[a.id := FinalRow(w.store.releases[a.id], a)]
            && v.store.tables == w.store.tables && v.store.attached == w.store.attached
            && v.store.lastRun == w.store.lastRun && v.store.lastRelease == w.store.lastRelease
            && v.ops == map[]
  {
    hide Apply, OneActive, FinalRow;
    FinalizeAlone(w, op, a);
    WindUp(Apply(w, Finalize(op)), op, a.(phase := Finalized(a.phase.status)));
    ExecThree(w, Finalize(op), Decide(op), Cleanup(op));
  }

  /******* The first import *******/

  /** The request does not activate what it imports. */
  predicate LeavesInactive(req: Request, others: seq<Check>) {
    !req.activate || !GateOpen(StatusOf(req, others), req.allowWarnings)
  }

  function ImportSteps(req: Request, others: seq<Check>): seq<Step> {
    Upload(0, req, 1, others) + [Finalize(0), Decide(0), Cleanup(0)]
  }

  function ImportedRow(req: Request, others: seq<Check>): Release {
    Release(req.key, Ready, Some(req.source.checksum), Some(|req.source.rows|), Some(|Accepted(req.source.rows)|),
            Some(StagedBy(req, others).rejected), req.expected, Some(Partition(req.key.family, 1)), StatusOf(req, others), None)
  }

  /** The catalog with this one import in it. */
  function ImportedWorld(req: Request, others: seq<Check>): World {
    var t := Partition(req.key.family, 1);
    World(
      Store(map[1 := ImportedRow(req, others)], map[1 := Run(1, Succeeded, req.source.checksum)], map[],
            map[t := BuiltOf(req)], {t}, 1, 1),
      map[], {}, {}, map[t := req.source])
  }

  /** The store of that catalog before finalize. */
  function UnfinalizedStore(req: Request, others: seq<Check>): Store {
    ImportedWorld(req, others).store.(
      releases := map[1 := NewRelease(req.key)],
      runs := map[1 := Run(1, Running, req.source.checksum)],
      staging := map[req.key := StagedBy(req, others).table])
  }

  function UnfinalizedWorld(req: Request, others: seq<Check>): World {
    World(UnfinalizedStore(req, others),
          map[0 := Importing(Attempt(req, 1, 1, false, SwappedBy(req, others)))],
          {1}, {}, ImportedWorld(req, others).last)
  }

  lemma FirstUpload(req: Request, others: seq<Check>)
    requires Passes(req, others)
    ensures Exec(GENESIS, Upload(0, req, 1, others)) == UnfinalizedWorld(req, others)
  {
    hide Exec, Stage, Accepted, StatusOf, Passes;
    UploadRun(GENESIS, 0, req, 1, others);
    assert AfterSwap(StartRun(GENESIS, 0, req, 1, NewRelease(req.key)), 0, Attempt(req, 1, 1, false, Booked), others)
        == UnfinalizedWorld(req, others);
  }

  lemma PassesStatus(req: Request, others: seq<Check>)
    requires Passes(req, others)
    ensures StatusOf(req, others) != FailedValidation
  {
    SummarizeAppend(StagedBy(req, others).checks, BuildChecks(req));
  }

  lemma FinalizeStep(req: Request, others: seq<Check>)
    ensures Apply(UnfinalizedWorld(req, others), Finalize(0))
         == UnfinalizedWorld(req, others).(
              store := UnfinalizedStore(req, others).(
                releases := map[1 := ImportedRow(req, others)],
                runs := map[1 := Run(1, Succeeded, req.source.checksum)]),
              torn := {},
              ops := map[0 := Importing(Attempt(req, 1, 1, false, Finalized(StatusOf(req, others))))])
  {
    hide Stage, Accepted, StatusOf;
    var w := UnfinalizedWorld(req, others);
    var v := Apply(w, Finalize(0));
    assert w.store.releases[1 := ImportedRow(req, others)] == map[1 := ImportedRow(req, others)];
    assert v.store.runs == map[1 := Run(1, Succeeded, req.source.checksum)];
  }

  lemma ConcludeRun(req: Request, others: seq<Check>)
    requires Passes(req, others) && LeavesInactive(req, others) && !req.keepStaging
    ensures Exec(UnfinalizedWorld(req, others), [Finalize(0), Decide(0), Cleanup(0)]) == ImportedWorld(req, others)
  {
    hide Stage, Accepted, StatusOf, Passes;
    PassesStatus(req, others);
    FinalizeStep(req, others);
    var w := UnfinalizedWorld(req, others);
    ExecThree(w, Finalize(0), Decide(0), Cleanup(0));
    var v := Apply(Apply(w, Finalize(0)), Decide(0));
    assert v.store.staging - {req.key} == map[];
    assert v.ops - {0} == map[];
  }

  /** The import as a run of the protocol from the empty catalog. */
  lemma ImportRun(req: Request, others: seq<Check>)
    requires Passes(req, others) && LeavesInactive(req, others) && !req.keepStaging
    ensures Exec(GENESIS, ImportSteps(req, others)) == ImportedWorld(req, others)
  {
    hide Exec, Passes, LeavesInactive;
    FirstUpload(req, others);
    ConcludeRun(req, others);
    ExecAppend(GENESIS, Upload(0, req, 1, others), [Finalize(0), Decide(0), Cleanup(0)]);
  }

  /******* A VSX source of one star *******/

  /** `approx_row_count` of the shipped release, far more than one row: the import
      passes with a warning. */
  const VSX_CURRENT := Key(Vsx, "current")
  const VSX_EXPECTED := 10_300_000

  const STAR := Row(Some("1"), None, Degrees(10.0), Degrees(20.0), map["vsx_oid" := Number(1.0), "name" := Text("R And")])

  const VSX_CHECKS := [
    Check("vsx_period_validity", Warning, true), Check("vsx_magnitude_consistency", Warning, true),
    Check("vsx_oid_unique", Critical, true), Check("vsx_var_type_present", Info, true) ]

  const VSX_IMPORT := Request(VSX_CURRENT, Source("sum", [STAR]), Some(VSX_EXPECTED), false, false, false, false, false)

  lemma StarPasses()
    ensures Passes(VSX_IMPORT, VSX_CHECKS) && Accepted([STAR]) == [STAR]
    ensures StatusOf(VSX_IMPORT, VSX_CHECKS) == PassedWithWarnings
  {
    OneRowPasses(VSX_IMPORT, STAR, VSX_CHECKS);
  }

  lemma StarImported()
    ensures Exec(GENESIS, ImportSteps(VSX_IMPORT, VSX_CHECKS)) == ImportedWorld(VSX_IMPORT, VSX_CHECKS)
    ensures var w := ImportedWorld(VSX_IMPORT, VSX_CHECKS);
            && w.store.releases[1].state == Ready
            && w.store.releases[1].key == VSX_CURRENT
            && FamilyRows(w.store, Vsx, 1) == [STAR]
  {
    StarPasses();
    hide StatusOf, Passes, Stage, Exec;
    ImportRun(VSX_IMPORT, VSX_CHECKS);
  }
}
