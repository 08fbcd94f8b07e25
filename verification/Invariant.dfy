/** What every step of the protocol keeps, and so what holds in every committed
    state of every interleaving. */
module Invariant {
  import opened Wrappers
  import opened Validation
  import opened Registry
  import opened Protocol

  /******* The invariant *******/

  function OpRelease(op: Op): Option<nat> {
    match op
    case Importing(a) => Some(a.id)
    case Failing(_, _) => None
    case _ => Some(op.id)
  }

  function OpRun(op: Op): Option<nat> {
    match op
    case Importing(a) => Some(a.run)
    case Failing(_, run) => run
    case Chosen(_, Import(a)) => Some(a.run)
    case Superseding(_, _, Import(a)) => Some(a.run)
    case _ => None
  }

  /** The release an unfinished import works on. */
  function OpImport(op: Op): Option<nat> {
    match op
    case Importing(a) => Some(a.id)
    case Chosen(_, Import(a)) => Some(a.id)
    case Superseding(_, _, Import(a)) => Some(a.id)
    case _ => None
  }

  predicate OpFresh(w: World, op: Op) {
    && (OpRelease(op).Some? ==> OpRelease(op).value <= w.store.lastRelease)
    && (OpRun(op).Some? ==> OpRun(op).value <= w.store.lastRun)
  }

  ghost predicate StoreFresh(store: Store) {
    && (forall id :: id in store.releases ==> id <= store.lastRelease)
    && (forall r :: r in store.runs ==> r <= store.lastRun)
  }

  ghost predicate KeysUnique(releases: map<nat, Release>) {
    forall a, b | a in releases && b in releases :: releases[a].key == releases[b].key ==> a == b
  }

  /** `production_table` is set exactly when the state says the release is built,
      and then it names the release's own partition. */
  predicate RowOk(id: nat, r: Release) {
    && (r.table.Some? <==> IsBuilt(r.state))
    && (r.table.Some? ==> r.table.value == Partition(r.key.family, id) && r.checksum.Some? && r.imported.Some?)
  }

  ghost predicate RowsOk(releases: map<nat, Release>) {
    forall id :: id in releases ==> RowOk(id, releases[id])
  }

  /** The table a source becomes once it is built, indexed and validated. */
  function BuiltTable(source: Source): Table {
    Table(Accepted(source.rows), source.checksum, true)
  }

  /** The production schema holds, for each partition, one whole build of the last
      source swapped in, and no partition that is not attached. */
  ghost predicate OnDisk(w: World) {
    && w.store.attached == w.last.Keys
    && (forall t :: t in w.last ==> t.Partition? && t in w.store.tables && w.store.tables[t] == BuiltTable(w.last[t]))
    && (forall t :: t in w.store.tables && t.Partition? ==> t in w.last)
  }

  /** Does the row describe a partition built from `source`? */
  predicate Describes(r: Release, source: Source) {
    && r.checksum == Some(source.checksum)
    && r.parsed == Some(|source.rows|)
    && r.imported == Some(|Accepted(source.rows)|)
    && r.rejected == Some(|source.rows| - |Accepted(source.rows)|)
  }

  /** A row's table is on disk unless a removal dropped it, and the row describes it
      unless an import swapped it and has not finalized. */
  ghost predicate Agrees(w: World) {
    forall id :: id in w.store.releases && w.store.releases[id].table.Some? && id !in w.dropped ==>
      var t := w.store.releases[id].table.value;
      t in w.last && (id !in w.torn ==> Describes(w.store.releases[id], w.last[t]))
  }

  predicate Tallies(a: Attempt, rejected: nat, imported: nat) {
    imported == |Accepted(a.req.source.rows)| && imported + rejected == |a.req.source.rows|
  }

  predicate BuiltIfPresent(w: World, id: nat) {
    id in w.store.releases ==> w.store.releases[id].table.Some?
  }

  predicate PhaseOk(w: World, a: Attempt) {
    var family := a.req.key.family;
    match a.phase
    case Booked => true
    case Staged(rejected, checks) =>
      && Summarize(checks) != FailedValidation
      && Tallies(a, rejected, |Accepted(a.req.source.rows)|)
      && (a.req.key in w.store.staging ==> Unrejected(w.store.staging[a.req.key]) == Accepted(a.req.source.rows))
    case Built(rejected, imported, status) =>
      && Good(status)
      && Tallies(a, rejected, imported)
      && (Incoming(family, a.id) in w.store.tables ==>
            w.store.tables[Incoming(family, a.id)] == BuiltTable(a.req.source))
    case Swapped(rejected, imported, status) =>
      && Good(status)
      && Tallies(a, rejected, imported)
      && a.id in w.torn
      && (a.id !in w.dropped ==>
            Partition(family, a.id) in w.last && w.last[Partition(family, a.id)] == a.req.source)
    case Finalized(status) => Good(status) && BuiltIfPresent(w, a.id)
    case Cleaning => true
  }

  predicate AttemptOk(w: World, a: Attempt) {
    && (a.id in w.store.releases ==> w.store.releases[a.id].key == a.req.key)
    && (a.run in w.store.runs ==> w.store.runs[a.run].releaseId == a.id)
    && (a.run in w.store.runs && (a.phase.Booked? || a.phase.Staged? || a.phase.Built? || a.phase.Swapped?) ==>
          w.store.runs[a.run].status == Running)
    && PhaseOk(w, a)
  }

  predicate OwnerOk(w: World, id: nat, owner: Owner) {
    owner.Import? ==>
      && owner.attempt.id == id
      && (id in w.store.releases ==> w.store.releases[id].key == owner.attempt.req.key)
      && (owner.attempt.run in w.store.runs ==> w.store.runs[owner.attempt.run].releaseId == id)
  }

  predicate OpOk(w: World, op: Op) {
    match op
    case Importing(a) => AttemptOk(w, a)
    case Failing(_, _) => true
    case Chosen(id, owner) => BuiltIfPresent(w, id) && OwnerOk(w, id, owner)
    case Superseding(id, current, owner) =>
      && BuiltIfPresent(w, id)
      && OwnerOk(w, id, owner)
      && (current.Some? ==> current.value <= w.store.lastRelease && BuiltIfPresent(w, current.value))
      && (current.Some? && current.value in w.store.releases && id in w.store.releases ==>
            w.store.releases[current.value].key.family == w.store.releases[id].key.family)
    case Deactivating(id) => BuiltIfPresent(w, id)
    case Removing(id, target) => target.Some? ==> target.value.Partition? && target.value.id == id
    case Dropped(_) => true
    case Inspecting(_, _, _) => true
    case Revalidating(_, _) => true
  }

  ghost predicate OpsOk(w: World) {
    forall o :: o in w.ops ==> OpFresh(w, w.ops[o]) && OpOk(w, w.ops[o])
  }

  predicate Distinct(o: Op, p: Op) {
    && (OpKey(o).Some? ==> OpKey(o) != OpKey(p))
    && (OpRun(o).Some? ==> OpRun(o) != OpRun(p))
    && (OpImport(o).Some? ==> OpImport(o) != OpImport(p))
  }

  /** At most one import of a release is in flight. */
  ghost predicate Apart(ops: map<nat, Op>) {
    forall o, p | o in ops && p in ops && o != p :: Distinct(ops[o], ops[p])
  }

  /** The part of the invariant that does not speak of operations in flight. */
  ghost predicate Core(w: World) {
    && StoreFresh(w.store)
    && KeysUnique(w.store.releases)
    && OneActive(w.store.releases)
    && RowsOk(w.store.releases)
    && OnDisk(w)
    && Agrees(w)
  }

  ghost predicate Inv(w: World) {
    Core(w) && OpsOk(w) && Apart(w.ops)
  }

  /******* How a step affects the operations it does not belong to *******/

  /** From `w` to `v` nothing changes that an import other than one with this key,
      release or run depends on. */
  ghost predicate Compatible(w: World, v: World, key: Option<Key>, id: Option<nat>, run: Option<nat>) {
    && w.store.lastRelease <= v.store.lastRelease
    && w.store.lastRun <= v.store.lastRun
    && (forall r :: r in v.store.releases && r <= w.store.lastRelease ==>
          && r in w.store.releases
          && v.store.releases[r].key == w.store.releases[r].key
          && (w.store.releases[r].table.Some? ==> v.store.releases[r].table.Some?))
    && (forall r :: r in v.store.runs && r <= w.store.lastRun ==>
          && r in w.store.runs
          && v.store.runs[r].releaseId == w.store.runs[r].releaseId
          && (run != Some(r) ==> v.store.runs[r] == w.store.runs[r]))
    && (forall k :: k in v.store.staging && key != Some(k) ==>
          k in w.store.staging && v.store.staging[k] == w.store.staging[k])
    && (forall t :: t in v.store.tables && t.Incoming? && id != Some(t.id) ==>
          t in w.store.tables && v.store.tables[t] == w.store.tables[t])
    && (forall r :: r in w.torn && id != Some(r) ==> r in v.torn)
    && (forall r :: r in w.dropped && id != Some(r) ==> r in v.dropped)
    && (forall t :: t in w.last && id != Some(t.id) && t.id !in v.dropped ==> t in v.last && v.last[t] == w.last[t])
  }

  predicate Avoids(op: Op, key: Option<Key>, id: Option<nat>, run: Option<nat>) {
    op.Importing? ==> key != Some(op.attempt.req.key) && id != Some(op.attempt.id) && run != Some(op.attempt.run)
  }

  lemma OpSurvives(w: World, v: World, op: Op, key: Option<Key>, id: Option<nat>, run: Option<nat>)
    requires Compatible(w, v, key, id, run) && Avoids(op, key, id, run)
    requires OpFresh(w, op) && OpOk(w, op)
    ensures OpFresh(v, op) && OpOk(v, op)
  {
    match op
    case Importing(a) =>
      assert a.id in v.store.releases ==> a.id in w.store.releases;
    case Chosen(id, owner) =>
    case Superseding(id, current, owner) =>
    case _ =>
  }

  /** An operation leaves, the store changes, and perhaps an operation enters. */
  lemma Leave(w: World, v: World, op: nat, key: Option<Key>, id: Option<nat>, run: Option<nat>)
    requires Inv(w) && Core(v) && v.ops == w.ops - {op}
    requires Compatible(w, v, key, id, run)
    requires forall p :: p in v.ops ==> Avoids(w.ops[p], key, id, run)
    ensures Inv(v)
  {
    forall p | p in v.ops ensures OpFresh(v, v.ops[p]) && OpOk(v, v.ops[p]) {
      OpSurvives(w, v, w.ops[p], key, id, run);
    }
  }

  lemma Enter(v: World, op: nat, o: Op)
    requires Inv(v) && op !in v.ops
    requires OpFresh(v, o) && OpOk(v, o)
    requires forall p :: p in v.ops ==> Distinct(o, v.ops[p]) && Distinct(v.ops[p], o)
    ensures Inv(SetOp(v, op, o))
  {
    var u := SetOp(v, op, o);
    assert Core(u);
    forall p | p in u.ops ensures OpFresh(u, u.ops[p]) && OpOk(u, u.ops[p]) {
      assert p != op ==> OpFresh(v, v.ops[p]) && OpOk(v, v.ops[p]);
      OpSurvives(v, u, u.ops[p], None, None, None);
    }
  }

  /** `o` holds no name, run or release that `was` did not hold. */
  predicate Inherits(o: Op, was: Op) {
    && (OpKey(o).None? || OpKey(o) == OpKey(was))
    && (OpRun(o).None? || OpRun(o) == OpRun(was))
    && (OpImport(o).None? || OpImport(o) == OpImport(was))
  }

  lemma InheritsDistinct(o: Op, was: Op, p: Op)
    requires Inherits(o, was) && Distinct(was, p) && Distinct(p, was)
    ensures Distinct(o, p) && Distinct(p, o)
  {
  }

  lemma ApartAfter(ops: map<nat, Op>, op: nat, o: Op)
    requires Apart(ops) && op in ops && Inherits(o, ops[op])
    ensures Apart(ops[op := o])
  {
    forall p | p in ops && p != op ensures Distinct(o, ops[p]) && Distinct(ops[p], o) {
      InheritsDistinct(o, ops[op], ops[p]);
    }
  }

  /** An operation is replaced by its own continuation. */
  lemma Continue(w: World, op: nat, o: Op)
    requires Inv(w) && op in w.ops
    requires OpFresh(w, o) && OpOk(w, o) && Inherits(o, w.ops[op])
    ensures Inv(SetOp(w, op, o))
  {
    var u := SetOp(w, op, o);
    ApartAfter(w.ops, op, o);
    assert Core(u);
    forall p | p in u.ops ensures OpFresh(u, u.ops[p]) && OpOk(u, u.ops[p]) {
      OpSurvives(w, u, u.ops[p], None, None, None);
    }
  }

  /** The store changes and an operation is replaced by its own continuation. */
  lemma Advance(w: World, v: World, op: nat, o: Op, key: Option<Key>, id: Option<nat>, run: Option<nat>)
    requires Inv(w) && op in w.ops && Core(v) && v.ops == w.ops[op := o]
    requires Compatible(w, v, key, id, run)
    requires forall p :: p in w.ops && p != op ==> Avoids(w.ops[p], key, id, run)
    requires OpFresh(v, o) && OpOk(v, o) && Inherits(o, w.ops[op])
    ensures Inv(v)
  {
    ApartAfter(w.ops, op, o);
    forall p | p in v.ops ensures OpFresh(v, v.ops[p]) && OpOk(v, v.ops[p]) {
      if p != op {
        OpSurvives(w, v, w.ops[p], key, id, run);
      }
    }
  }

  /******* Each step keeps it *******/

  lemma EndKeeps(w: World, op: nat)
    requires Inv(w)
    ensures Inv(EndOp(w, op))
  {
    Leave(w, EndOp(w, op), op, None, None, None);
  }

  lemma FailKeeps(w: World, op: nat)
    requires Inv(w) && op in w.ops
    ensures Inv(Fail(w, op))
  {
    EndKeeps(w, op);
    match w.ops[op]
    case Importing(a) => Continue(w, op, Failing(a.req, Some(a.run)));
    case Chosen(_, Skip(req)) => Continue(w, op, Failing(req, None));
    case Chosen(_, Import(a)) => Continue(w, op, Failing(a.req, Some(a.run)));
    case Superseding(_, _, Skip(req)) => Continue(w, op, Failing(req, None));
    case Superseding(_, _, Import(a)) => Continue(w, op, Failing(a.req, Some(a.run)));
    case _ =>
  }

  lemma LoseRunKeeps(w: World, op: nat)
    requires Inv(w) && IsImport(w, op)
    ensures Inv(SetOp(w, op, Failing(AttemptOf(w, op).req, None)))
  {
    Continue(w, op, Failing(AttemptOf(w, op).req, None));
  }

  lemma RowIsOk(w: World, id: nat)
    requires Inv(w) && id in w.store.releases
    ensures RowOk(id, w.store.releases[id]) && id <= w.store.lastRelease
    ensures OneActive(w.store.releases)
  {
  }

  lemma OpIsOk(w: World, op: nat)
    requires Inv(w) && op in w.ops
    ensures OpFresh(w, w.ops[op]) && OpOk(w, w.ops[op])
  {
  }

  lemma OthersAvoid(w: World, op: nat)
    requires Inv(w) && IsImport(w, op)
    ensures var a := AttemptOf(w, op);
            forall p :: p in w.ops && p != op ==> Avoids(w.ops[p], Some(a.req.key), Some(a.id), Some(a.run))
  {
    forall p | p in w.ops && p != op ensures Distinct(w.ops[op], w.ops[p]) {
    }
  }

  /** One registry row is written and nothing else that the core speaks of. */
  lemma PutRow(w: World, v: World, id: nat, r: Release)
    requires Core(w) && StoreFresh(v.store)
    requires v.store.releases == w.store.releases[id := r]
    requires v.store.tables == w.store.tables && v.store.attached == w.store.attached
    requires v.last == w.last && v.dropped == w.dropped && w.torn <= v.torn + {id}
    requires if id in w.store.releases then r.key == w.store.releases[id].key
             else forall x :: x in w.store.releases ==> w.store.releases[x].key != r.key
    requires OneActive(v.store.releases) && RowOk(id, r)
    requires r.table.Some? && id !in v.dropped ==>
               r.table.value in w.last && (id !in v.torn ==> Describes(r, w.last[r.table.value]))
    ensures Core(v)
  {
    forall x | x in v.store.releases ensures x == id || v.store.releases[x] == w.store.releases[x] {
    }
  }

  lemma OneActiveAfter(releases: map<nat, Release>, id: nat, r: Release)
    requires OneActive(releases)
    requires r.state == Active ==> id in releases && releases[id].state == Active && releases[id].key == r.key
    ensures OneActive(releases[id := r])
  {
  }

  lemma StartRunCore(w: World, op: nat, req: Request, id: nat, r: Release)
    requires Inv(w) && IsLookup(w.store, req.key, id)
    requires if id in w.store.releases then r == w.store.releases[id] else r == NewRelease(req.key)
    ensures var v := StartRun(w, op, req, id, r).(ops := w.ops - {op});
            Core(v) && Compatible(w, v, None, None, None)
  {
    var v := StartRun(w, op, req, id, r).(ops := w.ops - {op});
    OneActiveAfter(w.store.releases, id, r);
    assert id in w.store.releases ==> RowOk(id, w.store.releases[id]);
    PutRow(w, v, id, r);
  }

  lemma StartRunDistinct(w: World, req: Request, a: Attempt, p: Op)
    requires OpFresh(w, p) && OpOk(w, p) && OpKey(p) != Some(req.key)
    requires a.req == req && IsLookup(w.store, req.key, a.id) && a.run == w.store.lastRun + 1
    ensures Distinct(Importing(a), p) && Distinct(p, Importing(a))
  {
  }

  lemma StartRunLeaves(w: World, op: nat, req: Request, id: nat, r: Release)
    requires Inv(w) && op !in w.ops && IsLookup(w.store, req.key, id)
    requires if id in w.store.releases then r == w.store.releases[id] else r == NewRelease(req.key)
    ensures Inv(StartRun(w, op, req, id, r).(ops := w.ops - {op}))
  {
    StartRunCore(w, op, req, id, r);
    Leave(w, StartRun(w, op, req, id, r).(ops := w.ops - {op}), op, None, None, None);
  }

  lemma StartRunKeeps(w: World, op: nat, req: Request, id: nat, r: Release)
    requires Inv(w) && op !in w.ops && !InFlight(w, req.key) && IsLookup(w.store, req.key, id)
    requires if id in w.store.releases then r == w.store.releases[id] else r == NewRelease(req.key)
    ensures Inv(StartRun(w, op, req, id, r))
  {
    hide Core;
    var u := StartRun(w, op, req, id, r);
    var v := u.(ops := w.ops - {op});
    var a := u.ops[op].attempt;
    StartRunLeaves(w, op, req, id, r);
    forall p | p in v.ops ensures Distinct(Importing(a), v.ops[p]) && Distinct(v.ops[p], Importing(a)) {
      StartRunDistinct(w, req, a, w.ops[p]);
    }
    assert OpFresh(v, Importing(a)) && OpOk(v, Importing(a));
    Enter(v, op, Importing(a));
    assert SetOp(v, op, Importing(a)) == u;
  }

  lemma BeginKeeps(w: World, op: nat, req: Request, id: nat)
    requires Inv(w)
    ensures Inv(ApplyBegin(w, op, req, id))
  {
    if op in w.ops || InFlight(w, req.key) || !IsLookup(w.store, req.key, id) {
    } else if id !in w.store.releases {
      StartRunKeeps(w, op, req, id, NewRelease(req.key));
    } else {
      var r := w.store.releases[id];
      StartRunKeeps(w, op, req, id, r);
      Enter(w, op, Failing(req, None));
      if Unchanged(r, req) {
        Enter(w, op, Chosen(id, Skip(req)));
      }
    }
  }

  lemma StageKeeps(w: World, op: nat, others: seq<Check>)
    requires Inv(w) && IsImport(w, op) && AttemptOf(w, op).phase.Booked?
    ensures Inv(ApplyStage(w, op, AttemptOf(w, op), others))
  {
    var a := AttemptOf(w, op);
    var s := Stage(a.req.key.family, a.req.source.rows, others);
    var v := ApplyStage(w, op, a, others);
    OthersAvoid(w, op);
    assert Core(v);
    if Summarize(s.checks) != FailedValidation {
      StageConserves(a.req.key.family, a.req.source.rows, others);
    }
    Advance(w, v, op, v.ops[op], Some(a.req.key), Some(a.id), Some(a.run));
  }

  lemma ProductionPassed(rows: seq<Row>, gist: bool, expected: Option<nat>)
    requires Summarize(ProductionChecks(rows, gist, expected)) != FailedValidation
    ensures gist && |rows| > 0
  {
    var checks := ProductionChecks(rows, gist, expected);
    assert checks[0] in checks && checks[|checks| - 1] in checks;
  }

  lemma BuildKeeps(w: World, op: nat, indexed: bool)
    requires Inv(w) && IsImport(w, op) && AttemptOf(w, op).phase.Staged?
    ensures Inv(ApplyBuild(w, op, AttemptOf(w, op), indexed))
  {
    var a := AttemptOf(w, op);
    FailKeeps(w, op);
    if a.req.key in w.store.staging {
      var rows := Unrejected(w.store.staging[a.req.key]);
      var prod := ProductionChecks(rows, indexed, a.req.expected);
      if Summarize(prod) != FailedValidation {
        ProductionPassed(rows, indexed, a.req.expected);
        SummarizeAppend(a.phase.checks, prod);
        var v := ApplyBuild(w, op, a, indexed);
        OthersAvoid(w, op);
        assert Core(v);
        OpIsOk(w, op);
        Advance(w, v, op, v.ops[op], Some(a.req.key), Some(a.id), Some(a.run));
      }
    }
  }

  lemma SwapCore(w: World, op: nat)
    requires Inv(w) && IsImport(w, op) && AttemptOf(w, op).phase.Built?
    requires Incoming(AttemptOf(w, op).req.key.family, AttemptOf(w, op).id) in w.store.tables
    ensures Core(ApplySwap(w, op, AttemptOf(w, op)))
  {
    var a := AttemptOf(w, op);
    var v := ApplySwap(w, op, a);
    OpIsOk(w, op);
    assert OnDisk(v);
    assert Agrees(v);
  }

  lemma SwapCompatible(w: World, op: nat)
    requires IsImport(w, op) && AttemptOf(w, op).phase.Built?
    requires Incoming(AttemptOf(w, op).req.key.family, AttemptOf(w, op).id) in w.store.tables
    ensures var a := AttemptOf(w, op);
            Compatible(w, ApplySwap(w, op, a), Some(a.req.key), Some(a.id), Some(a.run))
  {
  }

  lemma SwapKeeps(w: World, op: nat)
    requires Inv(w) && IsImport(w, op) && AttemptOf(w, op).phase.Built?
    ensures Inv(ApplySwap(w, op, AttemptOf(w, op)))
  {
    hide Core, Compatible;
    var a := AttemptOf(w, op);
    FailKeeps(w, op);
    if Incoming(a.req.key.family, a.id) in w.store.tables {
      var v := ApplySwap(w, op, a);
      SwapCore(w, op);
      OthersAvoid(w, op);
      OpIsOk(w, op);
      assert OpFresh(v, v.ops[op]) && OpOk(v, v.ops[op]);
      SwapCompatible(w, op);
      Advance(w, v, op, v.ops[op], Some(a.req.key), Some(a.id), Some(a.run));
    }
  }

  predicate FinalizeCommits(w: World, a: Attempt)
    requires a.phase.Swapped?
  {
    && a.id in w.store.releases
    && a.run in w.store.runs
    && OneActive(w.store.releases[a.id := FinalRow(w.store.releases[a.id], a)])
  }

  lemma FinalizeCore(w: World, op: nat)
    requires Inv(w) && IsImport(w, op) && AttemptOf(w, op).phase.Swapped?
    requires FinalizeCommits(w, AttemptOf(w, op))
    ensures Core(ApplyFinalize(w, op, AttemptOf(w, op)))
  {
    var a := AttemptOf(w, op);
    OpIsOk(w, op);
    PutRow(w, ApplyFinalize(w, op, a), a.id, FinalRow(w.store.releases[a.id], a));
  }

  lemma FinalizeCompatible(w: World, op: nat)
    requires Inv(w) && IsImport(w, op) && AttemptOf(w, op).phase.Swapped?
    requires FinalizeCommits(w, AttemptOf(w, op))
    ensures var a := AttemptOf(w, op);
            Compatible(w, ApplyFinalize(w, op, a), Some(a.req.key), Some(a.id), Some(a.run))
  {
    hide Core;
    OpIsOk(w, op);
  }

  lemma FinalizeContinues(w: World, op: nat)
    requires Inv(w) && IsImport(w, op) && AttemptOf(w, op).phase.Swapped?
    requires FinalizeCommits(w, AttemptOf(w, op))
    ensures var v := ApplyFinalize(w, op, AttemptOf(w, op));
            OpFresh(v, v.ops[op]) && OpOk(v, v.ops[op])
  {
    hide Core;
    OpIsOk(w, op);
  }

  lemma FinalizeKeeps(w: World, op: nat)
    requires Inv(w) && IsImport(w, op) && AttemptOf(w, op).phase.Swapped?
    ensures Inv(ApplyFinalize(w, op, AttemptOf(w, op)))
  {
    hide Core, Compatible;
    var a := AttemptOf(w, op);
    var v := ApplyFinalize(w, op, a);
    if FinalizeCommits(w, a) {
      FinalizeCore(w, op);
      FinalizeCompatible(w, op);
      FinalizeContinues(w, op);
      OthersAvoid(w, op);
      Advance(w, v, op, v.ops[op], Some(a.req.key), Some(a.id), Some(a.run));
    } else {
      FailKeeps(w, op);
      assert v == Fail(w, op);
    }
  }

  lemma DecideKeeps(w: World, op: nat)
    requires Inv(w) && IsImport(w, op) && AttemptOf(w, op).phase.Finalized?
    ensures Inv(ApplyDecide(w, op, AttemptOf(w, op)))
  {
    hide Core;
    var a := AttemptOf(w, op);
    OpIsOk(w, op);
    FailKeeps(w, op);
    Continue(w, op, Importing(a.(phase := Cleaning)));
    if a.id in w.store.releases && w.store.releases[a.id].state in {Ready, Superseded} {
      RowIsOk(w, a.id);
      Continue(w, op, Chosen(a.id, Import(a)));
    }
  }

  lemma CleanupKeeps(w: World, op: nat)
    requires Inv(w) && IsImport(w, op)
    ensures Inv(ApplyCleanup(w, op, AttemptOf(w, op)))
  {
    var v := ApplyCleanup(w, op, AttemptOf(w, op));
    assert Core(v);
    Leave(w, v, op, None, None, None);
  }

  /** Registry writes that keep every key and move built releases only among the
      built states. */
  ghost predicate StatesOnly(w: World, v: World) {
    && v == w.(store := w.store.(releases := v.store.releases), ops := v.ops)
    && v.store.releases.Keys == w.store.releases.Keys
    && (forall id :: id in w.store.releases ==>
          && v.store.releases[id] == w.store.releases[id].(state := v.store.releases[id].state)
          && (IsBuilt(v.store.releases[id].state) <==> IsBuilt(w.store.releases[id].state)))
  }

  lemma StatesOnlyKeeps(w: World, v: World)
    requires Core(w) && StatesOnly(w, v) && OneActive(v.store.releases)
    ensures Core(v) && Compatible(w, v, None, None, None)
  {
    assert forall id :: id in v.store.releases ==> RowOk(id, w.store.releases[id]) && RowOk(id, v.store.releases[id]);
  }

  lemma StepUpStates(releases: map<nat, Release>, id: nat, current: Option<nat>)
    requires id in releases && IsBuilt(releases[id].state)
    requires current.Some? ==> current.value in releases && IsBuilt(releases[current.value].state)
    ensures var up := StepUp(releases, id, current);
            && up.Keys == releases.Keys
            && (forall x :: x in releases ==>
                  && up[x] == releases[x].(state := up[x].state)
                  && (IsBuilt(up[x].state) <==> IsBuilt(releases[x].state)))
  {
  }

  lemma SupersedingIsBuilt(w: World, op: nat)
    requires Inv(w) && op in w.ops && w.ops[op].Superseding?
    ensures var o := w.ops[op];
            && (o.id in w.store.releases ==> IsBuilt(w.store.releases[o.id].state))
            && (o.current.Some? && o.current.value in w.store.releases ==>
                  IsBuilt(w.store.releases[o.current.value].state))
  {
    var o := w.ops[op];
    OpIsOk(w, op);
    if o.id in w.store.releases {
      RowIsOk(w, o.id);
    }
    if o.current.Some? && o.current.value in w.store.releases {
      RowIsOk(w, o.current.value);
    }
  }

  lemma ActivationStates(w: World, op: nat)
    requires Inv(w) && op in w.ops && w.ops[op].Superseding?
    requires CommitActivation(w.store.releases, w.ops[op].id, w.ops[op].current).Some?
    ensures StatesOnly(w, ApplyCommit(w, op))
  {
    hide Inv, StepUp;
    SupersedingIsBuilt(w, op);
    StepUpStates(w.store.releases, w.ops[op].id, w.ops[op].current);
  }

  /** An import whose activation committed goes on to its cleanup. */
  lemma ActivationContinues(w: World, v: World, o: Op)
    requires o.Superseding? && o.owner.Import? && OpFresh(w, o) && OpOk(w, o)
    requires StatesOnly(w, v)
    ensures var next := Importing(o.owner.attempt.(phase := Cleaning));
            OpFresh(v, next) && OpOk(v, next) && Inherits(next, o)
  {
  }

  lemma ActivationKeeps(w: World, op: nat)
    requires Inv(w) && op in w.ops && w.ops[op].Superseding?
    requires CommitActivation(w.store.releases, w.ops[op].id, w.ops[op].current).Some?
    ensures Inv(ApplyCommit(w, op))
  {
    hide Core;
    var o := w.ops[op];
    var v := ApplyCommit(w, op);
    ActivationStates(w, op);
    StatesOnlyKeeps(w, v);
    if o.owner.Import? {
      ActivationContinues(w, v, o);
      Advance(w, v, op, Importing(o.owner.attempt.(phase := Cleaning)), None, None, None);
    } else {
      Leave(w, v, op, None, None, None);
    }
  }

  lemma CommitKeeps(w: World, op: nat)
    requires Inv(w) && op in w.ops
    ensures Inv(ApplyCommit(w, op))
  {
    hide Core;
    var v := ApplyCommit(w, op);
    match w.ops[op]
    case Superseding(id, current, owner) =>
      if CommitActivation(w.store.releases, id, current).Some? {
        ActivationKeeps(w, op);
      } else {
        FailKeeps(w, op);
      }
    case Deactivating(id) =>
      FailKeeps(w, op);
      if id in w.store.releases {
        OpIsOk(w, op);
        RowIsOk(w, id);
        OneActiveAfter(w.store.releases, id, v.store.releases[id]);
        StatesOnlyKeeps(w, v);
        Leave(w, v, op, None, None, None);
      }
    case _ =>
  }

  lemma OpenKeeps(w: World, op: nat, id: nat, o: Op)
    requires Inv(w) && op !in w.ops && id in w.store.releases
    requires || (o == Chosen(id, Cli) && w.store.releases[id].state in {Ready, Superseded})
             || (o == Deactivating(id) && w.store.releases[id].state == Active)
             || o == Removing(id, w.store.releases[id].table)
             || (o.Inspecting? && o.id == id)
    ensures Inv(SetOp(w, op, o))
  {
    hide Core;
    RowIsOk(w, id);
    Enter(w, op, o);
  }

  lemma ReadCurrentKeeps(w: World, op: nat, current: Option<nat>)
    requires Inv(w)
    ensures Inv(Apply(w, ReadCurrent(op, current)))
  {
    hide Core;
    var v := Apply(w, ReadCurrent(op, current));
    if v != w {
      OpIsOk(w, op);
      RowIsOk(w, w.ops[op].id);
      if current.Some? {
        RowIsOk(w, current.value);
      }
      Continue(w, op, v.ops[op]);
    }
  }

  lemma RecordFailureCore(w: World, op: nat, found: Option<nat>, error: string)
    requires Inv(w)
    ensures Core(Apply(w, RecordFailure(op, found, error)))
  {
    var v := Apply(w, RecordFailure(op, found, error));
    if v != w && found.Some? {
      var r := w.store.releases[found.value];
      assert RowOk(found.value, r);
      OneActiveAfter(w.store.releases, found.value, FailureRow(r, error));
      PutRow(w, v, found.value, FailureRow(r, error));
    }
  }

  lemma RecordFailureCompatible(w: World, op: nat, found: Option<nat>, error: string)
    ensures var v := Apply(w, RecordFailure(op, found, error));
            v != w ==> Compatible(w, v, None, None, w.ops[op].run)
  {
  }

  lemma RecordFailureKeeps(w: World, op: nat, found: Option<nat>, error: string)
    requires Inv(w)
    ensures Inv(Apply(w, RecordFailure(op, found, error)))
  {
    hide Core, Compatible;
    var v := Apply(w, RecordFailure(op, found, error));
    if v != w {
      RecordFailureCore(w, op, found, error);
      RecordFailureCompatible(w, op, found, error);
      var run := w.ops[op].run;
      forall p | p in v.ops ensures Avoids(w.ops[p], None, None, run) {
        assert Distinct(w.ops[p], w.ops[op]);
      }
      Leave(w, v, op, None, None, run);
    }
  }

  lemma DropTableCore(w: World, op: nat)
    requires Inv(w)
    ensures Core(Apply(w, DropTable(op)))
  {
    hide OpOk, Apart, OneActive, KeysUnique, Describes, BuiltTable;
    var v := Apply(w, DropTable(op));
    if v != w {
      if w.ops[op].target.Some? {
        DropTargetOk(w, op);
      }
      assert OnDisk(v);
      forall id | id in v.store.releases ensures RowOk(id, w.store.releases[id]) {
        RowIsOk(w, id);
      }
      assert Agrees(v);
    }
  }

  lemma DropTargetOk(w: World, op: nat)
    requires Inv(w) && op in w.ops && w.ops[op].Removing? && w.ops[op].target.Some?
    ensures w.ops[op].target.value.Partition? && w.ops[op].target.value.id == w.ops[op].id
  {
    OpIsOk(w, op);
  }

  lemma DropTableKeeps(w: World, op: nat)
    requires Inv(w)
    ensures Inv(Apply(w, DropTable(op)))
  {
    hide Core;
    var v := Apply(w, DropTable(op));
    if v != w {
      OpIsOk(w, op);
      DropTableCore(w, op);
      Advance(w, v, op, v.ops[op], None, None, None);
    }
  }

  lemma DeleteReleaseKeeps(w: World, op: nat)
    requires Inv(w)
    ensures Inv(Apply(w, DeleteRelease(op)))
  {
    var v := Apply(w, DeleteRelease(op));
    if v != w {
      assert Core(v);
      Leave(w, v, op, None, None, None);
    }
  }

  lemma InspectKeeps(w: World, op: nat)
    requires Inv(w) && op in w.ops && w.ops[op].Inspecting?
    ensures Inv(Apply(w, InspectPartition(op)))
  {
    var v := Apply(w, InspectPartition(op));
    if w.ops[op].table in w.store.tables {
      OpIsOk(w, op);
      Continue(w, op, v.ops[op]);
    } else {
      EndKeeps(w, op);
    }
  }

  lemma WriteRevalidationCore(w: World, op: nat)
    requires Inv(w)
    ensures Core(Apply(w, WriteRevalidation(op)))
  {
    var v := Apply(w, WriteRevalidation(op));
    if v != w && w.ops[op].id in w.store.releases {
      var id := w.ops[op].id;
      var r := w.store.releases[id].(validation := w.ops[op].status);
      RowIsOk(w, id);
      OneActiveAfter(w.store.releases, id, r);
      PutRow(w, v, id, r);
    }
  }

  lemma WriteRevalidationCompatible(w: World, op: nat)
    ensures Compatible(w, Apply(w, WriteRevalidation(op)), None, None, None)
  {
  }

  lemma WriteRevalidationKeeps(w: World, op: nat)
    requires Inv(w)
    ensures Inv(Apply(w, WriteRevalidation(op)))
  {
    hide Core, Compatible, OpOk;
    var v := Apply(w, WriteRevalidation(op));
    if v != w {
      WriteRevalidationCore(w, op);
      WriteRevalidationCompatible(w, op);
      Leave(w, v, op, None, None, None);
    }
  }

  lemma CleanStagingKeeps(w: World)
    requires Inv(w)
    ensures Inv(Apply(w, CleanStaging))
  {
    var v := Apply(w, CleanStaging);
    assert Core(v);
    forall p | p in v.ops ensures OpFresh(v, v.ops[p]) && OpOk(v, v.ops[p]) {
      OpSurvives(w, v, w.ops[p], None, None, None);
    }
  }

  lemma StepKeeps(w: World, s: Step)
    requires Inv(w)
    ensures Inv(Apply(w, s))
  {
    hide Inv;
    match s
    case Begin(op, req, id) => BeginKeeps(w, op, req, id);
    case StageRows(op, others) => if IsImport(w, op) && AttemptOf(w, op).phase.Booked? { StageKeeps(w, op, others); }
    case Build(op, indexed) => if IsImport(w, op) && AttemptOf(w, op).phase.Staged? { BuildKeeps(w, op, indexed); }
    case LockTimeout(op, _) => if op in w.ops { FailKeeps(w, op); }
    case Swap(op) => if IsImport(w, op) && AttemptOf(w, op).phase.Built? { SwapKeeps(w, op); }
    case Finalize(op) => if IsImport(w, op) && AttemptOf(w, op).phase.Swapped? { FinalizeKeeps(w, op); }
    case Decide(op) => if IsImport(w, op) && AttemptOf(w, op).phase.Finalized? { DecideKeeps(w, op); }
    case Cleanup(op) => if IsImport(w, op) { CleanupKeeps(w, op); }
    case Raise(op) => if op in w.ops { FailKeeps(w, op); }
    case LoseRun(op) => if IsImport(w, op) { LoseRunKeeps(w, op); }
    case Vanish(op) => EndKeeps(w, op);
    case RecordFailure(op, found, error) => RecordFailureKeeps(w, op, found, error);
    case ReadCurrent(op, current) => ReadCurrentKeeps(w, op, current);
    case Commit(op) => if op in w.ops { CommitKeeps(w, op); }
    case DropTable(op) => DropTableKeeps(w, op);
    case DeleteRelease(op) => DeleteReleaseKeeps(w, op);
    case InspectPartition(op) => if op in w.ops && w.ops[op].Inspecting? { InspectKeeps(w, op); }
    case WriteRevalidation(op) => WriteRevalidationKeeps(w, op);
    case CleanStaging => CleanStagingKeeps(w);
    case BeginFails(op, req) => if Apply(w, s) != w { Enter(w, op, Failing(req, None)); }
    case OpenActivation(op, id) => if Apply(w, s) != w { OpenKeeps(w, op, id, Chosen(id, Cli)); }
    case OpenDeactivation(op, id) => if Apply(w, s) != w { OpenKeeps(w, op, id, Deactivating(id)); }
    case OpenRemoval(op, id, _) => if Apply(w, s) != w { OpenKeeps(w, op, id, Removing(id, w.store.releases[id].table)); }
    case OpenRevalidation(op, id) => if Apply(w, s) != w { OpenKeeps(w, op, id, Apply(w, s).ops[op]); }
  }

  /** Every committed state of every run satisfies the invariant. */
  lemma {:induction false} Safety(w: World, steps: seq<Step>)
    requires Inv(w)
    ensures Inv(Exec(w, steps))
    decreases |steps|
  {
    if steps != [] {
      StepKeeps(w, steps[0]);
      Safety(Apply(w, steps[0]), steps[1..]);
    }
  }
}
