/** The importer as the code runs it: one call, its transactions in order, its
    retry loop, its failure handler. Each transaction is proved to be the protocol
    step it stands for, so what holds over runs holds of these calls.

    Models `skycat/ingestion/runner.py`. */
module Importer {
  import opened Wrappers
  import opened Validation
  import opened Registry
  import opened Protocol
  import opened Invariant
  import opened Guarantees
  import StagingTable

  /** What one Phase B2 attempt meets: nothing, a lock timeout or another error in
      front of its `at`-th statement. */
  datatype SwapFault = Clean | Timeout(at: nat) | Broken(at: nat)

  /** Everything outside the program that one import depends on. */
  datatype Faults = Faults(
    begin: bool,
    unread: bool,
    stage: bool,
    others: seq<Check>,
    build: bool,
    indexed: bool,
    swap: seq<SwapFault>,
    finalize: bool,
    decide: bool,
    activate: bool,
    cleanup: bool,
    recorder: bool,
    error: string)

  datatype Report = Report(
    parsed: nat,
    loaded: nat,
    rejected: nat,
    imported: nat,
    status: ValidationStatus,
    activated: bool)

  const B2_LOCK_MAX_ATTEMPTS := 3
  const B2_LOCK_RETRY_BACKOFF_S := 0.25

  function FaultAt(faults: seq<SwapFault>, i: nat): SwapFault {
    if i < |faults| then faults[i] else Clean
  }

  function Pow2(n: nat): nat {
    if n == 0 then 1 else 2 * Pow2(n - 1)
  }

  function Bound(maxAttempts: int): (n: nat)
    ensures n >= 1 && n >= maxAttempts && (n == 1 || n == maxAttempts)
  {
    if maxAttempts > 1 then maxAttempts else 1
  }

  /** The waits double; as shipped there are three attempts, and the two waits between them
      come to three quarters of a second. */
  lemma ShippedSchedule(n: nat)
    ensures Pow2(0) == 1 && Pow2(n + 1) == 2 * Pow2(n)
    ensures Bound(B2_LOCK_MAX_ATTEMPTS) == 3
    ensures B2_LOCK_RETRY_BACKOFF_S * (Pow2(Bound(B2_LOCK_MAX_ATTEMPTS) - 1) as real - 1.0) == 0.75
  {
    assert Pow2(2) == 4;
  }

  lemma ExecOne(w: World, steps: seq<Step>, s: Step)
    ensures Exec(w, steps + [s]) == Apply(Exec(w, steps), s)
  {
    ExecAppend(w, steps, [s]);
    assert Exec(Exec(w, steps), [s]) == Apply(Exec(w, steps), s);
  }

  /** Re-importing an ACTIVE release takes both `--replace` and `--force`. */
  predicate Refuses(r: Release, req: Request) {
    r.state == Active && !(req.replace && req.force)
  }

  /** What the skip path does about activation. */
  datatype SkipMove = Rest | Refuse | StepForward

  function MoveOnSkip(r: Release, req: Request): SkipMove {
    if r.state == Active || !req.activate then Rest
    else if r.validation == FailedValidation then Refuse
    else if !GateOpen(r.validation, req.allowWarnings) then Rest
    else StepForward
  }

  /** Who passes the gate: everything validated without a warning, and with warnings
      whoever was told to let them pass. */
  lemma GateMeans(status: ValidationStatus, allowWarnings: bool)
    requires Good(status)
    ensures GateOpen(status, allowWarnings) <==> status == Passed || allowWarnings
  {
  }

  lemma SkipMeans(r: Release, req: Request)
    ensures MoveOnSkip(r, req) == Refuse <==> r.state != Active && req.activate && r.validation == FailedValidation
    ensures MoveOnSkip(r, req) == StepForward <==>
              && r.state != Active
              && req.activate
              && r.validation != FailedValidation
              && (r.validation != PassedWithWarnings || req.allowWarnings)
  {
  }

  lemma ChosenCommits(w: World, op: nat, id: nat, owner: Owner, current: Option<nat>)
    requires op in w.ops && w.ops[op] == Chosen(id, owner) && id in w.store.releases
    requires IsCurrent(w.store.releases, w.store.releases[id].key.family, current)
    requires CommitActivation(w.store.releases, id, current).Some?
    ensures Apply(Apply(w, ReadCurrent(op, current)), Commit(op))
         == w.(store := w.store.(releases := StepUp(w.store.releases, id, current)),
               ops := if owner.Import? then w.ops[op := Importing(owner.attempt.(phase := Cleaning))]
                      else w.ops - {op})
  {
    hide StepUp;
    var v := Apply(w, ReadCurrent(op, current));
    assert v == SetOp(w, op, Superseding(id, current, owner));
    assert v.ops - {op} == w.ops - {op};
    assert owner.Import? ==>
        v.ops[op := Importing(owner.attempt.(phase := Cleaning))] == w.ops[op := Importing(owner.attempt.(phase := Cleaning))];
  }

  function SwappedAttempt(a: Attempt): Attempt
    requires a.phase.Built?
  {
    a.(phase := Swapped(a.phase.rejected, a.phase.imported, a.phase.status))
  }

  datatype Outcome = Raised | Skipped(activated: bool) | Imported(report: Report)

  predicate NoFaults(faults: Faults) {
    && !faults.begin && !faults.unread && !faults.stage && !faults.build && faults.swap == [] && !faults.finalize
    && !faults.decide && !faults.activate && !faults.cleanup && !faults.recorder
  }

  /** Does validation let this source through to production? */
  predicate SourcePasses(req: Request, faults: Faults) {
    var s := Stage(req.key.family, req.source.rows, faults.others);
    && Summarize(s.checks) != FailedValidation
    && Summarize(ProductionChecks(Unrejected(s.table), faults.indexed, req.expected)) != FailedValidation
  }

  /** The status a source that passes is finalized with. */
  function FinalStatus(req: Request, faults: Faults): ValidationStatus {
    var s := Stage(req.key.family, req.source.rows, faults.others);
    Summarize(s.checks + ProductionChecks(Unrejected(s.table), faults.indexed, req.expected))
  }

  /** What a successful import leaves behind: every row accounted for, the release
      row describing the source, the family parent serving exactly its acceptable
      rows, and an activation only through the gate. */
  ghost predicate IsImported(wasActive: bool, after: Store, id: nat, req: Request, faults: Faults, report: Report) {
    && SourcePasses(req, faults)
    && report.parsed == report.loaded == |req.source.rows|
    && report.parsed == report.imported + report.rejected
    && report.status == FinalStatus(req, faults)
    && id in after.releases
    && after.releases[id].key == req.key
    && Describes(after.releases[id], req.source)
    && after.releases[id].imported == Some(report.imported)
    && after.releases[id].rejected == Some(report.rejected)
    && after.releases[id].expected == req.expected
    && after.releases[id].validation == report.status
    && after.releases[id].failure.None?
    && after.releases[id].table == Some(Partition(req.key.family, id))
    && after.lastRun in after.runs
    && after.runs[after.lastRun] == Run(id, Succeeded, req.source.checksum)
    && (req.key in after.staging ==> req.keepStaging)
    && FamilyRows(after, req.key.family, id) == Accepted(req.source.rows)
    && (report.activated <==> after.releases[id].state == Active)
    && (report.activated <==> wasActive || (req.activate && (report.status == Passed || req.allowWarnings)))
  }

  lemma WhoEndsActive(wasActive: bool, after: Store, id: nat, req: Request, faults: Faults, report: Report)
    requires IsImported(wasActive, after, id, req, faults, report)
    ensures id in after.releases
    ensures after.releases[id].state == Active <==> wasActive || (req.activate && (report.status == Passed || req.allowWarnings))
  {
  }

  /** The calls that fail although nothing goes wrong: a refused replacement, a
      skip that may not activate, and a source that validation rejects. */
  predicate Doomed(was: Option<Release>, req: Request, faults: Faults) {
    if was.Some? && Unchanged(was.value, req) then MoveOnSkip(was.value, req) == Refuse
    else (was.Some? && Refuses(was.value, req)) || !SourcePasses(req, faults)
  }

  /** The failure recorder has noted the error on the release of this name, if there
      is one, and settled the run, if it was still running. */
  ghost predicate IsRecorded(before: Store, after: Store, key: Key, run: Option<nat>, error: string) {
    && after.releases.Keys == before.releases.Keys
    && (run.Some? && run.value in before.runs && before.runs[run.value].status == Running ==>
          run.value in after.runs && after.runs[run.value] == before.runs[run.value].(status := FailedRun))
    && (run.None? ==> after.runs == before.runs)
    && ((forall id :: id in before.releases ==> before.releases[id].key != key) ==> after.releases == before.releases)
    && ((exists id :: id in before.releases && before.releases[id].key == key) ==>
          exists id :: && id in before.releases && before.releases[id].key == key
                       && after.releases == before.releases[id := FailureRow(before.releases[id], error)])
  }

  /** What the invariant says of an attempt that has just swapped. */
  lemma SwappedFacts(w: World, op: nat)
    requires Inv(w) && IsImport(w, op) && AttemptOf(w, op).phase.Swapped?
    ensures var a := AttemptOf(w, op);
            Good(a.phase.status) && Tallies(a, a.phase.rejected, a.phase.imported)
  {
    OpIsOk(w, op);
  }

  /** The finalized row describes what was swapped in. */
  lemma FinalRowDescribes(r: Release, a: Attempt, state: ReleaseState)
    requires a.phase.Swapped? && Tallies(a, a.phase.rejected, a.phase.imported)
    ensures var row := FinalRow(r, a).(state := state);
            && row.key == r.key
            && row.state == state
            && row.imported == Some(a.phase.imported)
            && row.rejected == Some(a.phase.rejected)
            && row.expected == a.req.expected
            && row.validation == a.phase.status
            && row.failure.None?
            && row.table == Some(Partition(a.req.key.family, a.id))
            && Describes(row, a.req.source)
    ensures a.phase.imported + a.phase.rejected == |a.req.source.rows|
  {
  }

  lemma BeginFailing(w: World, op: nat, req: Request)
    requires op !in w.ops && !InFlight(w, req.key)
    ensures Exec(w, [BeginFails(op, req)]) == SetOp(w, op, Failing(req, None))
  {
    ExecOne(w, [], BeginFails(op, req));
  }

  lemma NewIdIsFresh(w: World)
    requires Inv(w)
    ensures w.store.lastRelease + 1 !in w.store.releases
  {
  }

  lemma ExecNone(w: World)
    ensures Exec(w, []) == w
  {
  }

  lemma InvOneActive(w: World)
    requires Inv(w)
    ensures OneActive(w.store.releases)
  {
  }

  /** Steps that end before any swap leave production and the registry alone. */
  lemma NothingReachesProduction(w: World, trace: seq<Step>)
    requires Inv(w) && forall s :: s in trace ==> BeforeSwap(s)
    ensures var v := Exec(w, trace);
            && Inv(v)
            && Production(v.store) == Production(w.store)
            && v.store.attached == w.store.attached
            && forall r :: r in w.store.releases ==>
                 r in v.store.releases && OnlyFailed(w.store.releases[r], v.store.releases[r])
  {
    hide Inv, Exec;
    Safety(w, trace);
    FailedAttemptsKeepProduction(w, trace);
    forall r | r in w.store.releases
      ensures r in Exec(w, trace).store.releases
      ensures OnlyFailed(w.store.releases[r], Exec(w, trace).store.releases[r])
    {
      FailedAttemptsKeepRows(w, trace, r);
    }
  }

  /** What a call reports once it has swapped, finalized and concluded. */
  lemma ImportSucceeded(w: World, a: Attempt, faults: Faults, loaded: nat, activated: bool, row: Release)
    requires Inv(w) && a.phase.Swapped? && a.id in w.store.releases
    requires Good(a.phase.status) && Tallies(a, a.phase.rejected, a.phase.imported)
    requires SourcePasses(a.req, faults) && a.phase.status == FinalStatus(a.req, faults) && loaded == |a.req.source.rows|
    requires row.key == a.req.key
    requires w.store.releases[a.id] == FinalRow(row, a).(state := if activated then Active else Ready)
    requires Partition(a.req.key.family, a.id) in w.last && w.last[Partition(a.req.key.family, a.id)] == a.req.source
    requires w.store.lastRun in w.store.runs && w.store.runs[w.store.lastRun] == Run(a.id, Succeeded, a.req.source.checksum)
    requires a.req.key in w.store.staging ==> a.req.keepStaging
    requires activated <==> a.wasActive || (a.req.activate && GateOpen(a.phase.status, a.req.allowWarnings))
    ensures IsImported(a.wasActive, w.store, a.id, a.req, faults,
                       Report(|a.req.source.rows|, loaded, a.phase.rejected, a.phase.imported, a.phase.status, activated))
  {
    hide Inv, SourcePasses, FinalStatus, FamilyRows;
    FinalRowDescribes(row, a, if activated then Active else Ready);
    GateMeans(a.phase.status, a.req.allowWarnings);
    ServesLast(w, a.req.key.family, a.id);
  }

  /** The recorder finds the release by its unique name. */
  lemma RecordedOn(w: World, after: Store, key: Key, run: Option<nat>, error: string, id: nat)
    requires Inv(w) && id in w.store.releases && w.store.releases[id].key == key
    requires IsRecorded(w.store, after, key, run, error)
    ensures id in after.releases && after.releases[id].failure == Some(error)
    ensures run.Some? && run.value in w.store.runs && w.store.runs[run.value].status == Running ==>
              run.value in after.runs && after.runs[run.value].status == FailedRun
    ensures run.None? ==> after.runs == w.store.runs
  {
  }

  class Catalog {
    var releases: map<nat, Release>
    var runs: map<nat, Run>
    var staging: map<Key, seq<StagedRow>>
    var tables: map<TableName, Table>
    var attached: set<TableName>
    var lastRelease: nat
    var lastRun: nat
    ghost var ops: map<nat, Op>
    ghost var torn: set<nat>
    ghost var dropped: set<nat>
    ghost var last: map<TableName, Source>

    ghost function Snapshot(): Store
      reads this
    {
      Store(releases, runs, staging, tables, attached, lastRelease, lastRun)
    }

    /** The protocol state this catalog is in. */
    ghost function World(): World
      reads this
    {
      Protocol.World(Snapshot(), ops, torn, dropped, last)
    }

    constructor ()
      ensures World() == GENESIS
    {
      releases, runs, staging, tables, attached := map[], map[], map[], map[], {};
      lastRelease, lastRun := 0, 0;
      ops, torn, dropped, last := map[], {}, {}, map[];
    }

    /******* Phase B2 *******/

    method DropExistingPartition(family: Family, id: nat)
      modifies this`tables, this`attached
      ensures tables == old(tables) - {Partition(family, id)}
      ensures attached == old(attached) - {Partition(family, id)}
    {
      var child := Partition(family, id);
      if child in attached {
        attached := attached - {child};
      }
      tables := tables - {child};
    }

    /** One transaction: a fault before its n-th statement rolls back the ones before it. */
    method SwapTransaction(family: Family, id: nat, fault: SwapFault)
      requires Incoming(family, id) in tables
      modifies this`tables, this`attached
      ensures fault.Clean? ==> Snapshot() == SwapTables(old(Snapshot()), family, id)
      ensures !fault.Clean? ==> Snapshot() == old(Snapshot())
    {
      var savedTables, savedAttached := tables, attached;
      var child, incoming := Partition(family, id), Incoming(family, id);
      if fault.Clean? || fault.at > 0 {
        DropExistingPartition(family, id);
      }
      if fault.Clean? || fault.at > 1 {
        tables := (tables - {incoming})[child := tables[incoming]];
      }
      if fault.Clean? || fault.at > 2 {
        attached := attached + {child};
      }
      if !fault.Clean? {
        tables, attached := savedTables, savedAttached;
      }
    }

    /** One attempt and what the protocol makes of it when no retry follows. */
    method LastAttempt(ghost op: nat, a: Attempt, fault: SwapFault) returns (ok: bool)
      requires op in ops && ops[op] == Importing(a) && a.phase.Built?
      requires Incoming(a.req.key.family, a.id) in tables
      modifies this`tables, this`attached, this`torn, this`dropped, this`last, this`ops
      ensures ok <==> fault.Clean?
      ensures World() == Apply(old(World()), if ok then Swap(op) else Raise(op))
      ensures !ok ==> op in ops && ops[op] == Failing(a.req, Some(a.run))
      ensures ok ==> op in ops && ops[op] == Importing(SwappedAttempt(a))
      ensures ok ==> a.id !in dropped && last == old(last)[Partition(a.req.key.family, a.id) := a.req.source]
    {
      hide SwapTables;
      SwapTransaction(a.req.key.family, a.id, fault);
      ok := fault.Clean?;
      if ok {
        torn, dropped := torn + {a.id}, dropped - {a.id};
        last := last[Partition(a.req.key.family, a.id) := a.req.source];
        ops := ops[op := Importing(SwappedAttempt(a))];
      } else {
        ops := ops[op := Failing(a.req, Some(a.run))];
      }
    }

    /** The retry loop. It makes at most `max(1, maxAttempts)` attempts; every
        attempt before the last timed out and left everything as it was; `n`
        attempts sleep `initialBackoff * (2^(n-1) - 1)` in all. */
    method SwapPartitionWithRetries(ghost op: nat, a: Attempt, faults: seq<SwapFault>,
                                    maxAttempts: int, initialBackoff: real)
      returns (ok: bool, attempts: nat, slept: real)
      requires op in ops && ops[op] == Importing(a) && a.phase.Built?
      requires Incoming(a.req.key.family, a.id) in tables
      modifies this`tables, this`attached, this`torn, this`dropped, this`last, this`ops
      ensures 1 <= attempts <= Bound(maxAttempts)
      ensures forall i :: 0 <= i < attempts - 1 ==> FaultAt(faults, i).Timeout?
      ensures ok <==> FaultAt(faults, attempts - 1).Clean?
      ensures FaultAt(faults, attempts - 1).Timeout? ==> attempts == Bound(maxAttempts)
      ensures slept == initialBackoff * (Pow2(attempts - 1) as real - 1.0)
      ensures World() == Apply(old(World()), if ok then Swap(op) else Raise(op))
      ensures !ok ==> op in ops && ops[op] == Failing(a.req, Some(a.run))
      ensures ok ==> op in ops && ops[op] == Importing(SwappedAttempt(a))
      ensures ok ==> a.id !in dropped && last == old(last)[Partition(a.req.key.family, a.id) := a.req.source]
    {
      hide FaultAt, Apply;
      var backoff := initialBackoff;
      attempts, slept := 1, 0.0;
      while FaultAt(faults, attempts - 1).Timeout? && attempts < Bound(maxAttempts)
        invariant 1 <= attempts <= Bound(maxAttempts)
        invariant forall i :: 0 <= i < attempts - 1 ==> FaultAt(faults, i).Timeout?
        invariant World() == old(World())
        invariant backoff == initialBackoff * Pow2(attempts - 1) as real
        invariant slept == initialBackoff * (Pow2(attempts - 1) as real - 1.0)
      {
        SwapTransaction(a.req.key.family, a.id, FaultAt(faults, attempts - 1));
        slept := slept + backoff;
        backoff := backoff * 2.0;
        attempts := attempts + 1;
      }
      ok := LastAttempt(op, a, FaultAt(faults, attempts - 1));
    }

    /******* Bookkeeping *******/

    method FindRelease(key: Key) returns (found: Option<nat>)
      ensures found.Some? ==> found.value in releases && releases[found.value].key == key
      ensures found.None? ==> forall id :: id in releases ==> releases[id].key != key
    {
      if id :| id in releases && releases[id].key == key {
        found := Some(id);
      } else {
        found := None;
      }
    }

    method FindActive(family: Family) returns (current: Option<nat>)
      ensures IsCurrent(releases, family, current)
    {
      if id :| id in releases && releases[id].state == Active && releases[id].key.family == family {
        current := Some(id);
      } else {
        current := None;
      }
    }

    /** The release row, if it is new, and the run row. */
    method Register(ghost op: nat, req: Request, id: nat, r: Release) returns (a: Attempt)
      requires op !in ops
      modifies this`releases, this`lastRelease, this`runs, this`lastRun, this`ops
      ensures World() == StartRun(old(World()), op, req, id, r)
      ensures a == Attempt(req, id, old(lastRun) + 1, r.state == Active, Booked) && a.run == lastRun
      ensures lastRun in runs && runs[lastRun] == Run(id, Running, req.source.checksum)
      ensures id in releases && releases[id] == r && op in ops && ops[op] == Importing(a)
    {
      releases := releases[id := r];
      lastRelease := if id > lastRelease then id else lastRelease;
      lastRun := lastRun + 1;
      runs := runs[lastRun := Run(id, Running, req.source.checksum)];
      a := Attempt(req, id, lastRun, r.state == Active, Booked);
      ops := ops[op := Importing(a)];
    }

    /** `get_or_create_release`, the idempotency test, the ACTIVE guard and the run row. */
    method Book(ghost op: nat, req: Request)
      returns (booked: Option<Attempt>, id: nat, was: Option<Release>)
      requires Inv(World()) && op !in ops && !InFlight(World(), req.key)
      modifies this
      ensures IsLookup(old(Snapshot()), req.key, id)
      ensures World() == Apply(old(World()), Begin(op, req, id))
      ensures was == if id in old(releases) then Some(old(releases)[id]) else None
      ensures booked.None? ==> Snapshot() == old(Snapshot()) && last == old(last)
      ensures booked.Some? <==> (was.None? || !(Unchanged(was.value, req) || Refuses(was.value, req)))
      ensures was.Some? && !Unchanged(was.value, req) && Refuses(was.value, req) ==>
                op in ops && ops[op] == Failing(req, None)
      ensures was.Some? && Unchanged(was.value, req) ==>
                match MoveOnSkip(was.value, req)
                   case Rest => op !in ops
                   case Refuse => op in ops && ops[op] == Failing(req, None)
                   case StepForward => op in ops && ops[op] == Chosen(id, Skip(req))
      ensures booked.Some? ==> op in ops && ops[op] == Importing(booked.value)
      ensures booked.Some? ==> (
                booked.value == Attempt(req, id, old(lastRun) + 1, was.Some? && was.value.state == Active, Booked))
      ensures booked.Some? ==> id in releases && releases[id].key == req.key
      ensures booked.Some? ==> (
                lastRun == old(lastRun) + 1 && lastRun in runs && runs[lastRun] == Run(id, Running, req.source.checksum))
      ensures booked.Some? ==> (booked.value.wasActive <==> releases[id].state == Active)
    {
      hide Inv, GateOpen, StartRun;
      NewIdIsFresh(World());
      booked := None;
      var found := FindRelease(req.key);
      id := if found.Some? then found.value else lastRelease + 1;
      was := if found.Some? then Some(releases[id]) else None;
      if found.Some? && Unchanged(releases[id], req) {
        var r := releases[id];
        if r.state != Active && req.activate {
          if r.validation == FailedValidation {
            ops := ops[op := Failing(req, None)];
          } else if GateOpen(r.validation, req.allowWarnings) {
            ops := ops[op := Chosen(id, Skip(req))];
          }
        }
        return;
      }
      if found.Some? && Refuses(releases[id], req) {
        ops := ops[op := Failing(req, None)];
        return;
      }
      var r := if found.Some? then releases[id] else NewRelease(req.key);
      var a := Register(op, req, id, r);
      booked := Some(a);
    }

    /******* Phases A and B1 *******/

    method PhaseA(ghost op: nat, a: Attempt, others: seq<Check>) returns (next: Option<Attempt>, loaded: nat)
      requires op in ops && ops[op] == Importing(a) && a.phase.Booked?
      modifies this`staging, this`ops
      ensures World() == Apply(old(World()), StageRows(op, others))
      ensures loaded == |a.req.source.rows|
      ensures next.None? ==> op in ops && ops[op] == Failing(a.req, Some(a.run))
      ensures var s := Stage(a.req.key.family, a.req.source.rows, others);
              && (next.Some? <==> Summarize(s.checks) != FailedValidation)
              && (next.Some? ==>
                    && next.value == a.(phase := Staged(s.rejected, s.checks))
                    && a.req.key in staging && staging[a.req.key] == s.table
                    && op in ops && ops[op] == Importing(next.value))
    {
      hide Stage, Summarize;
      var stage := new StagingTable.StageTable();
      var checks, rejected;
      loaded, checks, rejected := stage.Load(a.req.key.family, a.req.source.rows, others);
      staging := staging[a.req.key := stage.rows];
      if Summarize(checks) == FailedValidation {
        ops := ops[op := Failing(a.req, Some(a.run))];
        next := None;
      } else {
        next := Some(a.(phase := Staged(rejected, checks)));
        ops := ops[op := Importing(next.value)];
      }
    }

    /** The detached build; a failed validation rolls it back, the drop of a
        leftover build included. */
    method PhaseB1(ghost op: nat, a: Attempt, indexed: bool) returns (next: Option<Attempt>)
      requires op in ops && ops[op] == Importing(a) && a.phase.Staged? && a.req.key in staging
      modifies this`tables, this`ops
      ensures World() == Apply(old(World()), Build(op, indexed))
      ensures next.None? ==> op in ops && ops[op] == Failing(a.req, Some(a.run))
      ensures var rows := Unrejected(staging[a.req.key]);
              var prod := ProductionChecks(rows, indexed, a.req.expected);
              && (next.Some? <==> Summarize(prod) != FailedValidation)
              && (next.Some? ==>
                    && next.value == a.(phase := Built(a.phase.rejected, |rows|, Summarize(a.phase.checks + prod)))
                    && op in ops && ops[op] == Importing(next.value)
                    && Incoming(a.req.key.family, a.id) in tables)
    {
      hide Summarize, ProductionChecks, Unrejected;
      var saved := tables;
      var incoming := Incoming(a.req.key.family, a.id);
      tables := tables - {incoming};
      var rows := Unrejected(staging[a.req.key]);
      tables := tables[incoming := Table(rows, a.req.source.checksum, indexed)];
      var prod := ProductionChecks(rows, indexed, a.req.expected);
      if Summarize(prod) == FailedValidation {
        tables := saved;
        ops := ops[op := Failing(a.req, Some(a.run))];
        next := None;
      } else {
        assert tables == saved[incoming := Table(rows, a.req.source.checksum, indexed)];
        next := Some(a.(phase := Built(a.phase.rejected, |rows|, Summarize(a.phase.checks + prod))));
        ops := ops[op := Importing(next.value)];
      }
    }

    /******* Finalize, activation, cleanup, failure *******/

    method FinalizeRelease(ghost op: nat, a: Attempt) returns (ok: bool)
      requires op in ops && ops[op] == Importing(a) && a.phase.Swapped?
      modifies this`releases, this`runs, this`torn, this`ops
      ensures World() == Apply(old(World()), Finalize(op))
      ensures ok <==> FinalizeCommits(old(World()), a)
      ensures ok ==> releases == old(releases)[a.id := FinalRow(old(releases)[a.id], a)]
      ensures ok ==> runs == old(runs)[a.run := old(runs)[a.run].(status := Succeeded)]
      ensures ok ==> op in ops && ops[op] == Importing(a.(phase := Finalized(a.phase.status)))
    {
      ok := false;
      if a.id in releases && a.run in runs {
        var written := releases[a.id := FinalRow(releases[a.id], a)];
        if OneActive(written) {
          ok := true;
          releases := written;
          runs := runs[a.run := runs[a.run].(status := Succeeded)];
          torn := torn - {a.id};
          ops := ops[op := Importing(a.(phase := Finalized(a.phase.status)))];
        }
      }
      if !ok {
        ops := ops[op := Failing(a.req, Some(a.run))];
      }
    }

    /** `activate_release` after its state test: look for the active release, flush
        its step down, flush the step up. Run without interference neither flush
        meets the unique index. */
    method ActivateRelease(id: nat) returns (current: Option<nat>)
      requires id in releases && OneActive(releases)
      modifies this`releases
      ensures IsCurrent(old(releases), old(releases)[id].key.family, current)
      ensures releases == StepUp(old(releases), id, current)
      ensures CommitActivation(old(releases), id, current) == Some(releases)
    {
      current := FindActive(releases[id].key.family);
      SerialActivationSucceeds(releases, id, current);
      if current.Some? && current.value != id {
        releases := releases[current.value := releases[current.value].(state := Superseded)];
      }
      assert OneActive(releases);
      releases := releases[id := releases[id].(state := Active)];
    }

    /** The activation transaction of an import or of the command line. */
    method Activate(ghost op: nat, id: nat, ghost owner: Owner) returns (ghost current: Option<nat>)
      requires op in ops && ops[op] == Chosen(id, owner) && id in releases && OneActive(releases)
      modifies this`releases, this`ops
      ensures World() == Apply(Apply(old(World()), ReadCurrent(op, current)), Commit(op))
      ensures op in ops <==> owner.Import?
      ensures owner.Import? ==> ops[op] == Importing(owner.attempt.(phase := Cleaning))
      ensures id in releases && releases[id] == old(releases)[id].(state := Active)
    {
      current := ActivateRelease(id);
      ChosenCommits(old(World()), op, id, owner, current);
      if owner.Import? {
        ops := ops[op := Importing(owner.attempt.(phase := Cleaning))];
      } else {
        ops := ops - {op};
      }
    }

    method DropStaging(ghost op: nat, a: Attempt)
      requires op in ops && ops[op] == Importing(a) && a.phase.Cleaning?
      modifies this`staging, this`ops
      ensures World() == Apply(old(World()), Cleanup(op)) && op !in ops
      ensures a.req.key in staging ==> a.req.keepStaging
    {
      if !a.req.keepStaging {
        staging := staging - {a.req.key};
      }
      ops := ops - {op};
    }

    /** The failure recorder; its own failure leaves no trace. */
    method RecordFailure(ghost op: nat, req: Request, run: Option<nat>, error: string, broken: bool)
      returns (ghost s: Step)
      requires op in ops && ops[op] == Failing(req, run)
      modifies this`releases, this`runs, this`ops
      ensures World() == Apply(old(World()), s) && op !in ops
      ensures s.RecordFailure? || s.Vanish?
      ensures !broken ==> IsRecorded(old(Snapshot()), Snapshot(), req.key, run, error)
    {
      if broken {
        s := Vanish(op);
      } else {
        var found := FindRelease(req.key);
        s := Step.RecordFailure(op, found, error);
        if found.Some? {
          var r := releases[found.value];
          var built := r.table.Some? && IsBuilt(r.state);
          releases := releases[found.value := r.(state := if built then r.state else FailedImport, failure := Some(error))];
        }
        if run.Some? && run.value in runs && runs[run.value].status == Running {
          runs := runs[run.value := runs[run.value].(status := FailedRun)];
        }
      }
      ops := ops - {op};
    }

    /******* The whole import *******/

    /** A raise anywhere hands the attempt to the failure recorder. */
    ghost method RaiseHere(op: nat, req: Request, run: nat)
      requires op in ops && ops[op].Importing? && ops[op].attempt.req == req && ops[op].attempt.run == run
      modifies this`ops
      ensures World() == Apply(old(World()), Raise(op))
      ensures op in ops && ops[op] == Failing(req, Some(run))
    {
      ops := ops[op := Failing(req, Some(run))];
    }

    /** Phases A, B1 and B2. */
    method StageBuildSwap(ghost op: nat, a: Attempt, faults: Faults)
      returns (next: Option<Attempt>, loaded: nat, ghost trace: seq<Step>)
      requires op in ops && ops[op] == Importing(a) && a.phase.Booked?
      modifies this`staging, this`tables, this`attached, this`torn, this`dropped, this`last, this`ops
      ensures World() == Exec(old(World()), trace)
      ensures loaded == |a.req.source.rows| || next.None?
      ensures next.None? ==> op in ops && ops[op] == Failing(a.req, Some(a.run))
      ensures next.None? ==> forall s :: s in trace ==> BeforeSwap(s)
      ensures next.Some? ==>
                && op in ops && ops[op] == Importing(next.value)
                && next.value.phase.Swapped?
                && next.value == a.(phase := next.value.phase)
                && SourcePasses(a.req, faults)
                && next.value.phase.status == FinalStatus(a.req, faults)
                && Partition(a.req.key.family, a.id) in last
                && last[Partition(a.req.key.family, a.id)] == a.req.source
      ensures NoFaults(faults) && SourcePasses(a.req, faults) ==> next.Some?
    {
      hide Apply, Stage, ProductionChecks;
      next, trace, loaded := None, [], 0;
      if faults.stage {
        trace := [Raise(op)];
        RaiseHere(op, a.req, a.run);
        ExecOne(old(World()), [], Raise(op));
        return;
      }
      var staged;
      staged, loaded := PhaseA(op, a, faults.others);
      trace := [StageRows(op, faults.others)];
      ExecOne(old(World()), [], StageRows(op, faults.others));
      if staged.None? {
        return;
      }
      if faults.build {
        ExecOne(old(World()), trace, Raise(op));
        trace := trace + [Raise(op)];
        RaiseHere(op, a.req, a.run);
        return;
      }
      var built := PhaseB1(op, staged.value, faults.indexed);
      ExecOne(old(World()), trace, Build(op, faults.indexed));
      trace := trace + [Build(op, faults.indexed)];
      if built.None? {
        return;
      }
      var ok, attempts, slept :=
        SwapPartitionWithRetries(op, built.value, faults.swap, B2_LOCK_MAX_ATTEMPTS, B2_LOCK_RETRY_BACKOFF_S);
      ExecOne(old(World()), trace, if ok then Swap(op) else Raise(op));
      trace := trace + [if ok then Swap(op) else Raise(op)];
      if ok {
        next := Some(SwappedAttempt(built.value));
      }
    }

    /** After finalize: nothing to activate, an activation to run, or an error. */
    method DecideActivation(ghost op: nat, a: Attempt) returns (activates: bool)
      requires op in ops && ops[op] == Importing(a) && a.phase.Finalized? && a.phase.status != FailedValidation
      requires a.id in releases
      requires a.wasActive || releases[a.id].state == Ready
      modifies this`ops
      ensures World() == Apply(old(World()), Decide(op))
      ensures activates <==> !a.wasActive && a.req.activate && GateOpen(a.phase.status, a.req.allowWarnings)
      ensures op in ops
      ensures ops[op] == if activates then Chosen(a.id, Import(a)) else Importing(a.(phase := Cleaning))
    {
      activates := !a.wasActive && a.req.activate && GateOpen(a.phase.status, a.req.allowWarnings);
      ops := ops[op := if activates then Chosen(a.id, Import(a)) else Importing(a.(phase := Cleaning))];
    }

    ghost method RaiseChosen(op: nat, id: nat, owner: Owner)
      requires op in ops && ops[op] == Chosen(id, owner) && !owner.Cli?
      modifies this`ops
      ensures World() == Apply(old(World()), Raise(op))
      ensures op in ops
      ensures ops[op] == if owner.Skip? then Failing(owner.req, None)
                         else Failing(owner.attempt.req, Some(owner.attempt.run))
    {
      ops := Fail(World(), op).ops;
    }

    /** Finalize, the activation that may follow, and the staging cleanup. */
    method Conclude(ghost op: nat, a: Attempt, faults: Faults)
      returns (done: bool, activated: bool, ghost trace: seq<Step>)
      requires op in ops && ops[op] == Importing(a) && a.phase.Swapped? && a.phase.status != FailedValidation
      requires OneActive(releases) && a.id in releases && a.run in runs
      requires releases[a.id].key == a.req.key && (a.wasActive <==> releases[a.id].state == Active)
      modifies this`releases, this`runs, this`staging, this`torn, this`ops
      ensures World() == Exec(old(World()), trace)
      ensures !done ==> op in ops && ops[op] == Failing(a.req, Some(a.run))
      ensures done ==> op !in ops
      ensures done ==> a.id in releases
      ensures done ==> releases[a.id] == FinalRow(old(releases)[a.id], a).(state := if activated then Active else Ready)
      ensures done ==> (activated <==> a.wasActive || (a.req.activate && GateOpen(a.phase.status, a.req.allowWarnings)))
      ensures done ==> runs == old(runs)[a.run := old(runs)[a.run].(status := Succeeded)]
      ensures done ==> (a.req.key in staging ==> a.req.keepStaging)
      ensures NoFaults(faults) ==> done
    {
      hide Apply;
      done, activated, trace := false, false, [];
      ghost var start := old(World());
      if faults.finalize {
        ExecOne(start, trace, Raise(op));
        trace := trace + [Raise(op)];
        RaiseHere(op, a.req, a.run);
        return;
      }
      OneActiveAfter(releases, a.id, FinalRow(releases[a.id], a));
      var ok := FinalizeRelease(op, a);
      ExecOne(start, trace, Finalize(op));
      trace := trace + [Finalize(op)];
      var finalized := a.(phase := Finalized(a.phase.status));
      if faults.decide {
        ExecOne(start, trace, Raise(op));
        trace := trace + [Raise(op)];
        RaiseHere(op, a.req, a.run);
        return;
      }
      var activates := DecideActivation(op, finalized);
      ExecOne(start, trace, Decide(op));
      trace := trace + [Decide(op)];
      if activates {
        if faults.activate {
          ExecOne(start, trace, Raise(op));
          trace := trace + [Raise(op)];
          RaiseChosen(op, a.id, Import(finalized));
          return;
        }
        ghost var current := Activate(op, a.id, Import(finalized));
        ExecOne(start, trace, ReadCurrent(op, current));
        ExecOne(start, trace + [ReadCurrent(op, current)], Commit(op));
        trace := trace + [ReadCurrent(op, current)] + [Commit(op)];
      }
      activated := a.wasActive || activates;
      var cleaning := a.(phase := Cleaning);
      if faults.cleanup {
        ExecOne(start, trace, Raise(op));
        trace := trace + [Raise(op)];
        RaiseHere(op, a.req, a.run);
        return;
      }
      DropStaging(op, cleaning);
      ExecOne(start, trace, Cleanup(op));
      trace := trace + [Cleanup(op)];
      done := true;
    }

    /** The failure handler: record, then raise to the caller. */
    method HandleFailure(ghost op: nat, req: Request, run: Option<nat>, faults: Faults, ghost start: World, ghost soFar: seq<Step>)
      returns (ghost trace: seq<Step>)
      requires op in ops && ops[op] == Failing(req, run) && World() == Exec(start, soFar)
      modifies this`releases, this`runs, this`ops
      ensures World() == Exec(start, trace) && op !in ops
      ensures Inv(old(World())) ==> Inv(World())
      ensures |trace| == |soFar| + 1 && trace[..|soFar|] == soFar
      ensures BeforeSwap(trace[|soFar|])
      ensures !faults.recorder ==> IsRecorded(old(Snapshot()), Snapshot(), req.key, run, faults.error)
    {
      hide Apply, Inv;
      ghost var s := RecordFailure(op, req, run, faults.error, faults.recorder);
      if Inv(old(World())) {
        StepKeeps(old(World()), s);
      }
      ExecOne(start, soFar, s);
      trace := soFar + [s];
    }

    /** The unchanged-checksum path. */
    method SkipImport(ghost op: nat, req: Request, id: nat, was: Release, faults: Faults, ghost start: World, ghost soFar: seq<Step>)
      returns (outcome: Outcome, ghost trace: seq<Step>)
      requires id in releases && releases[id] == was && OneActive(releases) && World() == Exec(start, soFar)
      requires match MoveOnSkip(was, req)
               case Rest => op !in ops
               case Refuse => op in ops && ops[op] == Failing(req, None)
               case StepForward => op in ops && ops[op] == Chosen(id, Skip(req))
      modifies this`releases, this`runs, this`ops
      ensures World() == Exec(start, trace) && op !in ops
      ensures |soFar| <= |trace| && trace[..|soFar|] == soFar
      ensures outcome.Skipped? || outcome.Raised?
      ensures outcome.Raised? ==> forall s :: s in trace[|soFar|..] ==> BeforeSwap(s)
      ensures outcome.Skipped? ==>
                (outcome.activated <==>
                   || was.state == Active
                   || (req.activate && was.validation != FailedValidation
                       && (was.validation != PassedWithWarnings || req.allowWarnings)))
      ensures outcome.Skipped? ==> runs == old(runs) && id in releases
      ensures outcome.Skipped? ==> releases[id] == was.(state := if outcome.activated then Active else was.state)
      ensures MoveOnSkip(was, req) == Refuse ==> outcome.Raised?
      ensures MoveOnSkip(was, req) != Refuse && NoFaults(faults) ==> outcome.Skipped?
    {
      hide Apply, Exec, IsRecorded, GateOpen;
      SkipMeans(was, req);
      match MoveOnSkip(was, req) {
        case Rest =>
          outcome, trace := Skipped(was.state == Active), soFar;
        case Refuse =>
          trace := HandleFailure(op, req, None, faults, start, soFar);
          outcome := Raised;
        case StepForward =>
          if faults.activate {
            ExecOne(start, soFar, Raise(op));
            RaiseChosen(op, id, Skip(req));
            trace := HandleFailure(op, req, None, faults, start, soFar + [Raise(op)]);
            outcome := Raised;
          } else {
            ghost var current := Activate(op, id, Skip(req));
            ExecOne(start, soFar, ReadCurrent(op, current));
            ExecOne(start, soFar + [ReadCurrent(op, current)], Commit(op));
            trace := soFar + [ReadCurrent(op, current)] + [Commit(op)];
            outcome := Skipped(true);
          }
      }
    }

    /** From the booked run to the end of the attempt. */
    method RunImport(ghost op: nat, a: Attempt, faults: Faults, ghost start: World, ghost soFar: seq<Step>)
      returns (outcome: Outcome, ghost swapped: bool, ghost trace: seq<Step>)
      requires Inv(World()) && World() == Exec(start, soFar)
      requires op in ops && ops[op] == Importing(a) && a.phase.Booked?
      requires a.id in releases && releases[a.id].key == a.req.key
      requires a.run == lastRun && lastRun in runs && runs[lastRun] == Run(a.id, Running, a.req.source.checksum)
      requires a.wasActive <==> releases[a.id].state == Active
      modifies this
      ensures World() == Exec(start, trace) && Inv(World()) && op !in ops
      ensures |soFar| <= |trace| && trace[..|soFar|] == soFar
      ensures outcome.Raised? || outcome.Imported?
      ensures outcome.Raised? && !swapped ==> forall s :: s in trace[|soFar|..] ==> BeforeSwap(s)
      ensures outcome.Raised? && !swapped && !faults.recorder ==> IsFailed(a.id, faults.error, faults.unread)
      ensures outcome.Imported? ==> IsImported(a.wasActive, Snapshot(), a.id, a.req, faults, outcome.report)
      ensures NoFaults(faults) ==> (outcome.Raised? <==> !SourcePasses(a.req, faults))
    {
      hide Apply, Stage, ProductionChecks, Inv, Exec, FamilyRows, FinalRow, GateOpen, Describes, SourcePasses, FinalStatus,
        Tallies, BeforeSwap, IsImported, IsRecorded, RowOk, OnlyFailed, OneActive, SwappedAttempt, Catalog.IsFailed;
      outcome, swapped := Raised, false;
      ghost var here := World();
      ghost var more;
      var built, loaded;
      RowIsOk(here, a.id);
      if faults.unread {
        trace := LoseRunAndFail(op, a, faults, start, soFar);
        return;
      }
      built, loaded, more := StageBuildSwap(op, a, faults);
      ExecAppend(start, soFar, more);
      trace := soFar + more;
      Safety(here, more);
      ghost var there := World();
      if built.None? {
        trace := FailBeforeSwap(op, a, faults, start, trace);
        return;
      }
      swapped := true;
      outcome, trace := FinishImport(op, built.value, faults, loaded, start, trace);
    }

    /** From the swap to the end of the attempt. */
    method FinishImport(ghost op: nat, a: Attempt, faults: Faults, loaded: nat, ghost start: World, ghost soFar: seq<Step>)
      returns (outcome: Outcome, ghost trace: seq<Step>)
      requires Inv(World()) && World() == Exec(start, soFar)
      requires op in ops && ops[op] == Importing(a) && a.phase.Swapped?
      requires a.id in releases && releases[a.id].key == a.req.key && (a.wasActive <==> releases[a.id].state == Active)
      requires a.run == lastRun && lastRun in runs && runs[lastRun] == Run(a.id, Running, a.req.source.checksum)
      requires SourcePasses(a.req, faults) && a.phase.status == FinalStatus(a.req, faults) && loaded == |a.req.source.rows|
      requires Partition(a.req.key.family, a.id) in last && last[Partition(a.req.key.family, a.id)] == a.req.source
      modifies this`releases, this`runs, this`staging, this`torn, this`ops
      ensures World() == Exec(start, trace) && Inv(World()) && op !in ops
      ensures |soFar| <= |trace| && trace[..|soFar|] == soFar
      ensures outcome.Raised? || outcome.Imported?
      ensures outcome.Imported? ==> IsImported(a.wasActive, Snapshot(), a.id, a.req, faults, outcome.report)
      ensures NoFaults(faults) ==> outcome.Imported?
    {
      hide Apply, Inv, Exec, FinalRow, GateOpen, SourcePasses, FinalStatus, Tallies, IsImported, IsRecorded, OneActive;
      ghost var here := World();
      InvOneActive(here);
      SwappedFacts(here, op);
      var done, activated;
      ghost var more;
      done, activated, more := Conclude(op, a, faults);
      ExecAppend(start, soFar, more);
      trace := soFar + more;
      Safety(here, more);
      if !done {
        trace := HandleFailure(op, a.req, Some(a.run), faults, start, trace);
        return Raised, trace;
      }
      ImportSucceeded(World(), a, faults, loaded, activated, here.store.releases[a.id]);
      outcome := Imported(Report(|a.req.source.rows|, loaded, a.phase.rejected, a.phase.imported, a.phase.status, activated));
    }

    /** The release names the error, and the attempt's own run, the latest, is FAILED;
        or RUNNING for good, when the handler never learned its id. */
    ghost predicate IsFailed(id: nat, error: string, unread: bool)
      reads this
    {
      && id in releases && releases[id].failure == Some(error)
      && lastRun in runs && runs[lastRun].status == if unread then Running else FailedRun
    }

    /** A raise between the booking and the swap. */
    method FailBeforeSwap(ghost op: nat, a: Attempt, faults: Faults, ghost start: World, ghost soFar: seq<Step>)
      returns (ghost trace: seq<Step>)
      requires Inv(World()) && World() == Exec(start, soFar)
      requires op in ops && ops[op] == Failing(a.req, Some(a.run))
      requires a.id in releases && releases[a.id].key == a.req.key
      requires a.run == lastRun && lastRun in runs && runs[lastRun].status == Running
      modifies this`releases, this`runs, this`ops
      ensures World() == Exec(start, trace) && Inv(World()) && op !in ops
      ensures |trace| == |soFar| + 1 && trace[..|soFar|] == soFar && BeforeSwap(trace[|soFar|])
      ensures !faults.recorder ==> IsFailed(a.id, faults.error, false)
    {
      hide Inv, Exec, IsRecorded, BeforeSwap;
      ghost var before := World();
      trace := HandleFailure(op, a.req, Some(a.run), faults, start, soFar);
      if !faults.recorder {
        RecordedOn(before, Snapshot(), a.req.key, Some(a.run), faults.error, a.id);
      }
    }

    /** The commit of the bookings went through and reading the run's id back failed. */
    method LoseRunAndFail(ghost op: nat, a: Attempt, faults: Faults, ghost start: World, ghost soFar: seq<Step>)
      returns (ghost trace: seq<Step>)
      requires Inv(World()) && World() == Exec(start, soFar)
      requires op in ops && ops[op] == Importing(a) && a.phase.Booked?
      requires a.id in releases && releases[a.id].key == a.req.key
      requires lastRun in runs && runs[lastRun].status == Running
      modifies this`releases, this`runs, this`ops
      ensures World() == Exec(start, trace) && Inv(World()) && op !in ops
      ensures |soFar| <= |trace| && trace[..|soFar|] == soFar
      ensures forall s :: s in trace[|soFar|..] ==> BeforeSwap(s)
      ensures !faults.recorder ==> IsFailed(a.id, faults.error, true)
    {
      hide Inv, Exec, IsRecorded;
      StepKeeps(World(), LoseRun(op));
      ExecOne(start, soFar, LoseRun(op));
      ops := ops[op := Failing(a.req, None)];
      ghost var before := World();
      trace := HandleFailure(op, a.req, None, faults, start, soFar + [LoseRun(op)]);
      if !faults.recorder {
        RecordedOn(before, Snapshot(), a.req.key, None, faults.error, a.id);
      }
    }

    /** The session failed before the attempt was registered. */
    method FailToBegin(ghost op: nat, req: Request, faults: Faults) returns (ghost trace: seq<Step>)
      requires Inv(World()) && op !in ops && !InFlight(World(), req.key)
      modifies this`releases, this`runs, this`ops
      ensures World() == Exec(old(World()), trace) && op !in ops
      ensures forall s :: s in trace ==> BeforeSwap(s)
    {
      hide Inv, Apply, Exec, InFlight;
      ghost var start := World();
      ops := ops[op := Failing(req, None)];
      BeginFailing(start, op, req);
      trace := HandleFailure(op, req, None, faults, start, [BeginFails(op, req)]);
    }

    /** `import_release`. Whatever it meets it is a run of the protocol. If it
        raises before its swap commits, production and every release row are as
        they were, failure notes aside; if nothing goes wrong around it, it raises
        exactly when the request is refused or the source fails validation. */
    method ImportRelease(ghost op: nat, req: Request, faults: Faults)
      returns (outcome: Outcome, id: nat, was: Option<Release>, ghost swapped: bool, ghost trace: seq<Step>)
      requires Inv(World()) && op !in ops && !InFlight(World(), req.key)
      modifies this
      ensures World() == Exec(old(World()), trace) && Inv(World()) && op !in ops
      ensures !faults.begin ==> IsLookup(old(Snapshot()), req.key, id)
      ensures was == if id in old(releases) then Some(old(releases)[id]) else None
      ensures outcome.Raised? && !swapped ==>
                && Production(Snapshot()) == old(Production(Snapshot()))
                && attached == old(attached)
                && forall r :: r in old(releases) ==> r in releases && OnlyFailed(old(releases)[r], releases[r])
      ensures outcome.Raised? && !swapped && !faults.recorder && lastRun != old(lastRun) ==>
                IsFailed(id, faults.error, faults.unread)
      ensures outcome.Skipped? ==>
                && was.Some? && Unchanged(was.value, req)
                && tables == old(tables) && attached == old(attached)
                && staging == old(staging) && runs == old(runs) && last == old(last)
                && id in releases
                && releases[id] == was.value.(state := if outcome.activated then Active else was.value.state)
                && (outcome.activated <==>
                      || was.value.state == Active
                      || (req.activate && was.value.validation != FailedValidation
                          && (was.value.validation != PassedWithWarnings || req.allowWarnings)))
      ensures outcome.Imported? ==>
                IsImported(was.Some? && was.value.state == Active, Snapshot(), id, req, faults, outcome.report)
      ensures outcome.Imported? ==>
                && id in releases
                && (releases[id].state == Active <==>
                      || (was.Some? && was.value.state == Active)
                      || (req.activate && (outcome.report.status == Passed || req.allowWarnings)))
      ensures NoFaults(faults) ==> (outcome.Raised? <==> Doomed(was, req, faults))
    {
      hide Inv, Apply, IsImported, SourcePasses, Exec, Production, InFlight, IsLookup, IsRecorded, OnlyFailed, GateOpen, Unchanged, Refuses,
        Catalog.IsFailed;
      ghost var start := World();
      swapped := false;
      if faults.begin {
        id, was := 0, if 0 in releases then Some(releases[0]) else None;
        trace := FailToBegin(op, req, faults);
        NothingReachesProduction(start, trace);
        outcome := Raised;
        return;
      }
      var booked;
      booked, id, was := Book(op, req);
      ghost var first := [Begin(op, req, id)];
      ExecOne(start, [], Begin(op, req, id));
      ExecNone(start);
      assert [] + first == first;
      if booked.None? {
        Safety(start, first);
        if was.Some? && Unchanged(was.value, req) {
          InvOneActive(World());
          outcome, trace := SkipImport(op, req, id, was.value, faults, start, first);
        } else {
          trace := HandleFailure(op, req, None, faults, start, first);
          outcome := Raised;
        }
        Safety(start, trace);
      } else {
        Safety(start, first);
        outcome, swapped, trace := RunImport(op, booked.value, faults, start, first);
        if outcome.Imported? {
          WhoEndsActive(booked.value.wasActive, Snapshot(), id, req, faults, outcome.report);
        }
      }
      if outcome.Raised? && !swapped {
        assert trace == first + trace[1..];
        NothingReachesProduction(start, trace);
      }
    }
  }
}
