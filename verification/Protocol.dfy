/** The import protocol as a state machine. One step is one committed
    transaction, one read that a later transaction depends on, or one failure;
    steps of any number of operations interleave in any order.

    Models `skycat/ingestion/runner.py`, `skycat/ingestion/maintenance.py` and the
    command-line use of `skycat/registry/releases.py`. */
module Protocol {
  import opened Wrappers
  import opened Validation
  import opened Registry

  /** What discovery and the parser deliver for one attempt. */
  datatype Source = Source(checksum: string, rows: seq<Row>)

  datatype Request = Request(
    key: Key,
    source: Source,
    expected: Option<nat>,
    activate: bool,
    allowWarnings: bool,
    replace: bool,
    force: bool,
    keepStaging: bool)

  /** Where an attempt stands: the last transaction it committed. */
  datatype Phase =
    | Booked
    | Staged(rejected: nat, checks: seq<Check>)
    | Built(rejected: nat, imported: nat, status: ValidationStatus)
    | Swapped(rejected: nat, imported: nat, status: ValidationStatus)
    | Finalized(status: ValidationStatus)
    | Cleaning

  datatype Attempt = Attempt(req: Request, id: nat, run: nat, wasActive: bool, phase: Phase)

  /** On whose behalf an activation runs. */
  datatype Owner = Cli | Skip(req: Request) | Import(attempt: Attempt)

  /** An operation between two of its steps. */
  datatype Op =
    | Importing(attempt: Attempt)
    | Failing(req: Request, run: Option<nat>)
    | Chosen(id: nat, owner: Owner)
    | Superseding(id: nat, current: Option<nat>, owner: Owner)
    | Deactivating(id: nat)
    | Removing(id: nat, target: Option<TableName>)
    | Dropped(id: nat)
    | Inspecting(id: nat, table: TableName, expected: Option<nat>)
    | Revalidating(id: nat, status: ValidationStatus)

  /** The committed store, the operations in flight, and three history variables:
      releases whose swap committed and whose finalize has not (yet, or ever),
      releases whose partition a removal dropped, and for each partition the last
      source swapped in and not dropped since. */
  datatype World = World(
    store: Store,
    ops: map<nat, Op>,
    torn: set<nat>,
    dropped: set<nat>,
    last: map<TableName, Source>)

  const GENESIS := World(EMPTY, map[], {}, {}, map[])

  /** `LoseRun` is a failure between the commit of the bookings and the read of the
      run's id: the failure recorder then does not know the run. */
  datatype Step =
    | Begin(op: nat, req: Request, id: nat)
    | BeginFails(op: nat, req: Request)
    | StageRows(op: nat, others: seq<Check>)
    | Build(op: nat, indexed: bool)
    | LockTimeout(op: nat, retry: bool)
    | Swap(op: nat)
    | Finalize(op: nat)
    | Decide(op: nat)
    | Cleanup(op: nat)
    | Raise(op: nat)
    | LoseRun(op: nat)
    | RecordFailure(op: nat, found: Option<nat>, error: string)
    | Vanish(op: nat)
    | OpenActivation(op: nat, id: nat)
    | ReadCurrent(op: nat, current: Option<nat>)
    | Commit(op: nat)
    | OpenDeactivation(op: nat, id: nat)
    | OpenRemoval(op: nat, id: nat, force: bool)
    | DropTable(op: nat)
    | DeleteRelease(op: nat)
    | OpenRevalidation(op: nat, id: nat)
    | InspectPartition(op: nat)
    | WriteRevalidation(op: nat)
    | CleanStaging

  /******* Operations in flight *******/

  function OwnerKey(owner: Owner): Option<Key> {
    match owner
    case Cli => None
    case Skip(req) => Some(req.key)
    case Import(a) => Some(a.req.key)
  }

  /** The release name an import holds while it is in flight; one that has only its failure
      left to record holds none. */
  function OpKey(op: Op): Option<Key> {
    match op
    case Importing(a) => Some(a.req.key)
    case Chosen(_, owner) => OwnerKey(owner)
    case Superseding(_, _, owner) => OwnerKey(owner)
    case _ => None
  }

  predicate InFlight(w: World, key: Key) {
    exists o :: o in w.ops && OpKey(w.ops[o]) == Some(key)
  }

  function SetOp(w: World, op: nat, o: Op): World {
    w.(ops := w.ops[op := o])
  }

  function EndOp(w: World, op: nat): World {
    w.(ops := w.ops - {op})
  }

  /** An exception: an import turns to its failure recorder, any other session ends. */
  function Fail(w: World, op: nat): World
    requires op in w.ops
  {
    match w.ops[op]
    case Importing(a) => SetOp(w, op, Failing(a.req, Some(a.run)))
    case Chosen(_, Skip(req)) => SetOp(w, op, Failing(req, None))
    case Chosen(_, Import(a)) => SetOp(w, op, Failing(a.req, Some(a.run)))
    case Superseding(_, _, Skip(req)) => SetOp(w, op, Failing(req, None))
    case Superseding(_, _, Import(a)) => SetOp(w, op, Failing(a.req, Some(a.run)))
    case Failing(_, _) => w
    case _ => EndOp(w, op)
  }

  function SetPhase(w: World, op: nat, a: Attempt, phase: Phase): World {
    SetOp(w, op, Importing(a.(phase := phase)))
  }

  /******* Registry bookkeeping *******/

  /** `id` is what `get_or_create_release` returns: the row with this key, or a
      new id when there is none. */
  predicate IsLookup(store: Store, key: Key, id: nat) {
    if id in store.releases then store.releases[id].key == key
    else id == store.lastRelease + 1 && forall r :: r in store.releases ==> store.releases[r].key != key
  }

  /** The idempotency test: an unchanged, completed, non-replacing re-import. */
  predicate Unchanged(r: Release, req: Request) {
    !req.replace && r.checksum == Some(req.source.checksum) && IsBuilt(r.state) && r.table.Some?
  }

  /** May a release with this validation status be activated? */
  predicate GateOpen(status: ValidationStatus, allowWarnings: bool) {
    status != FailedValidation && (status == PassedWithWarnings ==> allowWarnings)
  }

  function StartRun(w: World, op: nat, req: Request, id: nat, r: Release): World {
    var run := w.store.lastRun + 1;
    var store := w.store.(
      releases := w.store.releases[id := r],
      lastRelease := if id > w.store.lastRelease then id else w.store.lastRelease,
      runs := w.store.runs[run := Run(id, Running, req.source.checksum)],
      lastRun := run);
    SetOp(w.(store := store), op, Importing(Attempt(req, id, run, r.state == Active, Booked)))
  }

  function ApplyBegin(w: World, op: nat, req: Request, id: nat): World {
    if op in w.ops || InFlight(w, req.key) || !IsLookup(w.store, req.key, id) then w
    else if id !in w.store.releases then StartRun(w, op, req, id, NewRelease(req.key))
    else
      var r := w.store.releases[id];
      if Unchanged(r, req) then
        if r.state == Active || !req.activate then w
        else if r.validation == FailedValidation then SetOp(w, op, Failing(req, None))
        else if !GateOpen(r.validation, req.allowWarnings) then w
        else SetOp(w, op, Chosen(id, Skip(req)))
      else if r.state == Active && !(req.replace && req.force) then SetOp(w, op, Failing(req, None))
      else StartRun(w, op, req, id, r)
  }

  function ApplyBeginFails(w: World, op: nat, req: Request): World {
    if op in w.ops || InFlight(w, req.key) then w else SetOp(w, op, Failing(req, None))
  }

  /******* Phases A, B1 and B2 *******/

  function ApplyStage(w: World, op: nat, a: Attempt, others: seq<Check>): World
    requires op in w.ops
  {
    var s := Stage(a.req.key.family, a.req.source.rows, others);
    var w1 := w.(store := w.store.(staging := w.store.staging[a.req.key := s.table]));
    if Summarize(s.checks) == FailedValidation then Fail(w1, op)
    else SetPhase(w1, op, a, Staged(s.rejected, s.checks))
  }

  /** A build that fails production validation raises inside its transaction, so
      nothing of it is kept. */
  function ApplyBuild(w: World, op: nat, a: Attempt, indexed: bool): World
    requires op in w.ops && a.phase.Staged?
  {
    if a.req.key !in w.store.staging then Fail(w, op)
    else
      var rows := Unrejected(w.store.staging[a.req.key]);
      var prod := ProductionChecks(rows, indexed, a.req.expected);
      if Summarize(prod) == FailedValidation then Fail(w, op)
      else
        var t := Table(rows, a.req.source.checksum, indexed);
        var w1 := w.(store := w.store.(tables := w.store.tables[Incoming(a.req.key.family, a.id) := t]));
        SetPhase(w1, op, a, Built(a.phase.rejected, |rows|, Summarize(a.phase.checks + prod)))
  }

  /** Detach and drop the old partition, rename the incoming table, attach it. */
  function SwapTables(store: Store, family: Family, id: nat): Store
    requires Incoming(family, id) in store.tables
  {
    var t := Partition(family, id);
    var i := Incoming(family, id);
    store.(tables := (store.tables - {t, i})[t := store.tables[i]], attached := store.attached + {t})
  }

  function ApplySwap(w: World, op: nat, a: Attempt): World
    requires op in w.ops && a.phase.Built?
  {
    var family := a.req.key.family;
    if Incoming(family, a.id) !in w.store.tables then Fail(w, op)
    else
      var w1 := w.(
        store := SwapTables(w.store, family, a.id),
        torn := w.torn + {a.id},
        dropped := w.dropped - {a.id},
        last := w.last[Partition(family, a.id) := a.req.source]);
      SetPhase(w1, op, a, Swapped(a.phase.rejected, a.phase.imported, a.phase.status))
  }

  /******* Finalize and activate *******/

  /** The release row as the finalize transaction writes it. */
  function FinalRow(r: Release, a: Attempt): Release
    requires a.phase.Swapped?
  {
    r.(state := if a.wasActive then Active else Ready,
       checksum := Some(a.req.source.checksum),
       parsed := Some(|a.req.source.rows|),
       imported := Some(a.phase.imported),
       rejected := Some(a.phase.rejected),
       expected := a.req.expected,
       table := Some(Partition(a.req.key.family, a.id)),
       validation := a.phase.status,
       failure := None)
  }

  function ApplyFinalize(w: World, op: nat, a: Attempt): World
    requires op in w.ops && a.phase.Swapped?
  {
    if a.id !in w.store.releases || a.run !in w.store.runs then Fail(w, op)
    else
      var releases := w.store.releases[a.id := FinalRow(w.store.releases[a.id], a)];
      if !OneActive(releases) then Fail(w, op)
      else
        var runs := w.store.runs[a.run := w.store.runs[a.run].(status := Succeeded)];
        var w1 := w.(store := w.store.(releases := releases, runs := runs), torn := w.torn - {a.id});
        SetPhase(w1, op, a, Finalized(a.phase.status))
  }

  /** After finalize: is there anything to activate? Reads the row afresh. */
  function ApplyDecide(w: World, op: nat, a: Attempt): World
    requires op in w.ops && a.phase.Finalized?
  {
    if a.id !in w.store.releases then Fail(w, op)
    else if a.wasActive || !a.req.activate then SetPhase(w, op, a, Cleaning)
    else if a.phase.status == FailedValidation then Fail(w, op)
    else if !GateOpen(a.phase.status, a.req.allowWarnings) then SetPhase(w, op, a, Cleaning)
    else if w.store.releases[a.id].state == Active then SetPhase(w, op, a, Cleaning)
    else if w.store.releases[a.id].state in {Ready, Superseded} then SetOp(w, op, Chosen(a.id, Import(a)))
    else Fail(w, op)
  }

  function ApplyCleanup(w: World, op: nat, a: Attempt): World {
    var w1 := EndOp(w, op);
    if a.req.keepStaging then w1
    else w1.(store := w1.store.(staging := w1.store.staging - {a.req.key}))
  }

  function ApplyOpenActivation(w: World, op: nat, id: nat): World {
    if op in w.ops || id !in w.store.releases || w.store.releases[id].state !in {Ready, Superseded} then w
    else SetOp(w, op, Chosen(id, Cli))
  }

  function ApplyReadCurrent(w: World, op: nat, current: Option<nat>, o: Op): World
    requires o.Chosen?
  {
    if o.id !in w.store.releases || !IsCurrent(w.store.releases, w.store.releases[o.id].key.family, current) then w
    else SetOp(w, op, Superseding(o.id, current, o.owner))
  }

  function ApplyCommit(w: World, op: nat): World
    requires op in w.ops
  {
    match w.ops[op]
    case Superseding(id, current, owner) =>
      var committed := CommitActivation(w.store.releases, id, current);
      if committed.None? then Fail(w, op)
      else
        var w1 := w.(store := w.store.(releases := committed.value));
        if owner.Import? then SetPhase(w1, op, owner.attempt, Cleaning) else EndOp(w1, op)
    case Deactivating(id) =>
      var committed := CommitDeactivation(w.store.releases, id);
      if committed.None? then Fail(w, op)
      else EndOp(w.(store := w.store.(releases := committed.value)), op)
    case _ => w
  }

  /******* The failure recorder *******/

  /** A release with a built partition is never demoted by a failed attempt. */
  function FailureRow(r: Release, error: string): Release {
    r.(state := if r.table.Some? && IsBuilt(r.state) then r.state else FailedImport, failure := Some(error))
  }

  function FailureRuns(runs: map<nat, Run>, run: Option<nat>): map<nat, Run> {
    if run.Some? && run.value in runs && runs[run.value].status == Running
    then runs[run.value := runs[run.value].(status := FailedRun)]
    else runs
  }

  /** The recorder looks the release up again, by family and name. */
  function ApplyRecordFailure(w: World, op: nat, id: Option<nat>, error: string, key: Key, run: Option<nat>): World {
    var store := w.store;
    if id.Some? && (id.value !in store.releases || store.releases[id.value].key != key) then w
    else if id.None? && exists r :: r in store.releases && store.releases[r].key == key then w
    else
      var releases :=
        if id.Some? then store.releases[id.value := FailureRow(store.releases[id.value], error)] else store.releases;
      EndOp(w.(store := store.(releases := releases, runs := FailureRuns(store.runs, run))), op)
  }

  /******* Deactivation, removal, revalidation *******/

  function ApplyOpenDeactivation(w: World, op: nat, id: nat): World {
    if op in w.ops || id !in w.store.releases || w.store.releases[id].state != Active then w
    else SetOp(w, op, Deactivating(id))
  }

  function ApplyOpenRemoval(w: World, op: nat, id: nat, force: bool): World {
    if op in w.ops || id !in w.store.releases || (w.store.releases[id].state == Active && !force) then w
    else SetOp(w, op, Removing(id, w.store.releases[id].table))
  }

  /** Drops the table the release row named when the removal read it. */
  function ApplyDropTable(w: World, op: nat, id: nat, target: Option<TableName>): World {
    if target.None? then SetOp(w, op, Dropped(id))
    else
      var t := target.value;
      var store := w.store.(tables := w.store.tables - {t}, attached := w.store.attached - {t});
      SetOp(w.(store := store, dropped := w.dropped + {id}, last := w.last - {t}), op, Dropped(id))
  }

  /** Deleting a release row cascades to its ingestion runs. */
  function ApplyDeleteRelease(w: World, op: nat, id: nat): World {
    var runs := map r | r in w.store.runs && w.store.runs[r].releaseId != id :: w.store.runs[r];
    EndOp(w.(store := w.store.(releases := w.store.releases - {id}, runs := runs)), op)
  }

  function ApplyOpenRevalidation(w: World, op: nat, id: nat): World {
    if op in w.ops || id !in w.store.releases || w.store.releases[id].table.None? then w
    else SetOp(w, op, Inspecting(id, w.store.releases[id].table.value, w.store.releases[id].expected))
  }

  /** The counts run on a connection of their own, on whatever bears the table's name by then. */
  function ApplyInspect(w: World, op: nat, id: nat, table: TableName, expected: Option<nat>): World {
    if table !in w.store.tables then EndOp(w, op)
    else
      var t := w.store.tables[table];
      var checks := ProductionChecks(t.rows, t.gist, expected) + RangeChecks(t.rows);
      SetOp(w, op, Revalidating(id, Summarize(checks)))
  }

  function ApplyWriteRevalidation(w: World, op: nat, id: nat, status: ValidationStatus): World {
    if id !in w.store.releases then EndOp(w, op)
    else
      var r := w.store.releases[id].(validation := status);
      EndOp(w.(store := w.store.(releases := w.store.releases[id := r])), op)
  }

  /******* Runs *******/

  predicate IsImport(w: World, op: nat) {
    op in w.ops && w.ops[op].Importing?
  }

  function AttemptOf(w: World, op: nat): Attempt
    requires IsImport(w, op)
  {
    w.ops[op].attempt
  }

  /** One step; a step that is not enabled changes nothing. */
  function Apply(w: World, s: Step): World {
    match s
    case Begin(op, req, id) => ApplyBegin(w, op, req, id)
    case BeginFails(op, req) => ApplyBeginFails(w, op, req)
    case StageRows(op, others) =>
      if IsImport(w, op) && AttemptOf(w, op).phase.Booked? then ApplyStage(w, op, AttemptOf(w, op), others) else w
    case Build(op, indexed) =>
      if IsImport(w, op) && AttemptOf(w, op).phase.Staged? then ApplyBuild(w, op, AttemptOf(w, op), indexed) else w
    case LockTimeout(op, retry) =>
      if IsImport(w, op) && AttemptOf(w, op).phase.Built? && !retry then Fail(w, op) else w
    case Swap(op) =>
      if IsImport(w, op) && AttemptOf(w, op).phase.Built? then ApplySwap(w, op, AttemptOf(w, op)) else w
    case Finalize(op) =>
      if IsImport(w, op) && AttemptOf(w, op).phase.Swapped? then ApplyFinalize(w, op, AttemptOf(w, op)) else w
    case Decide(op) =>
      if IsImport(w, op) && AttemptOf(w, op).phase.Finalized? then ApplyDecide(w, op, AttemptOf(w, op)) else w
    case Cleanup(op) =>
      if IsImport(w, op) && AttemptOf(w, op).phase.Cleaning? then ApplyCleanup(w, op, AttemptOf(w, op)) else w
    case Raise(op) => if op in w.ops then Fail(w, op) else w
    case LoseRun(op) =>
      if IsImport(w, op) && AttemptOf(w, op).phase.Booked? then SetOp(w, op, Failing(AttemptOf(w, op).req, None)) else w
    case RecordFailure(op, found, error) =>
      if op in w.ops && w.ops[op].Failing?
      then ApplyRecordFailure(w, op, found, error, w.ops[op].req.key, w.ops[op].run) else w
    case Vanish(op) => EndOp(w, op)
    case OpenActivation(op, id) => ApplyOpenActivation(w, op, id)
    case ReadCurrent(op, current) =>
      if op in w.ops && w.ops[op].Chosen? then ApplyReadCurrent(w, op, current, w.ops[op]) else w
    case Commit(op) => if op in w.ops then ApplyCommit(w, op) else w
    case OpenDeactivation(op, id) => ApplyOpenDeactivation(w, op, id)
    case OpenRemoval(op, id, force) => ApplyOpenRemoval(w, op, id, force)
    case DropTable(op) =>
      if op in w.ops && w.ops[op].Removing? then ApplyDropTable(w, op, w.ops[op].id, w.ops[op].target) else w
    case DeleteRelease(op) =>
      if op in w.ops && w.ops[op].Dropped? then ApplyDeleteRelease(w, op, w.ops[op].id) else w
    case OpenRevalidation(op, id) => ApplyOpenRevalidation(w, op, id)
    case InspectPartition(op) =>
      if op in w.ops && w.ops[op].Inspecting?
      then ApplyInspect(w, op, w.ops[op].id, w.ops[op].table, w.ops[op].expected) else w
    case WriteRevalidation(op) =>
      if op in w.ops && w.ops[op].Revalidating?
      then ApplyWriteRevalidation(w, op, w.ops[op].id, w.ops[op].status) else w
    case CleanStaging => w.(store := w.store.(staging := map[]))
  }

  /** A run: any sequence of steps, from any world. */
  function Exec(w: World, steps: seq<Step>): World
    decreases |steps|
  {
    if steps == [] then w else Exec(Apply(w, steps[0]), steps[1..])
  }

  lemma {:induction false} ExecAppend(w: World, xs: seq<Step>, ys: seq<Step>)
    ensures Exec(w, xs + ys) == Exec(Exec(w, xs), ys)
    decreases |xs|
  {
    if xs == [] {
      assert xs + ys == ys;
    } else {
      assert (xs + ys)[1..] == xs[1..] + ys;
      ExecAppend(Apply(w, xs[0]), xs[1..], ys);
    }
  }
}
