/** What the steps of a run say of its last state: which swap or drop a partition owes
    its contents to, and which commit a release owes its validation status to. */
module History {
  import opened Wrappers
  import opened Validation
  import opened Registry
  import opened Protocol
  import opened Invariant
  import opened Guarantees

  /******* When readers find nothing *******/

  function SwapAt(w: World, steps: seq<Step>, m: nat, t: TableName): Option<Source>
    requires m < |steps|
  {
    SwapsInto(Exec(w, steps[..m]), steps[m], t)
  }

  predicate EverSwapped(w: World, steps: seq<Step>, t: TableName) {
    exists m: nat :: m < |steps| && SwapAt(w, steps, m, t).Some?
  }

  /** A removal dropped this table and nothing has been swapped into it since. */
  predicate DroppedSince(w: World, steps: seq<Step>, t: TableName) {
    exists m: nat :: m < |steps| && DropAt(w, steps, m, t)
                && forall n: nat :: m < n < |steps| ==> SwapAt(w, steps, n, t).None?
  }

  lemma EverSwappedLater(w: World, steps: seq<Step>, k: nat, t: TableName)
    requires k <= |steps| && EverSwapped(w, steps[..k], t)
    ensures EverSwapped(w, steps, t)
  {
    var m: nat :| m < k && SwapAt(w, steps[..k], m, t).Some?;
    assert steps[..k][..m] == steps[..m];
    assert SwapAt(w, steps, m, t).Some?;
  }

  lemma EverSwappedStep(w: World, steps: seq<Step>, t: TableName)
    requires steps != []
    ensures var last := |steps| - 1;
            EverSwapped(w, steps, t) <==> EverSwapped(w, steps[..last], t) || SwapAt(w, steps, last, t).Some?
  {
    hide Exec, SwapsInto;
    var last := |steps| - 1;
    if EverSwapped(w, steps, t) && SwapAt(w, steps, last, t).None? {
      var m: nat :| m < |steps| && SwapAt(w, steps, m, t).Some?;
      assert steps[..last][..m] == steps[..m];
      assert SwapAt(w, steps[..last], m, t).Some?;
    }
    if EverSwapped(w, steps[..last], t) {
      EverSwappedLater(w, steps, last, t);
    }
  }

  predicate DropAt(w: World, steps: seq<Step>, m: nat, t: TableName)
    requires m < |steps|
  {
    DropsTable(Exec(w, steps[..m]), steps[m], t)
  }

  lemma DroppedSinceStep(w: World, steps: seq<Step>, t: TableName)
    requires steps != []
    ensures var last := |steps| - 1;
            DroppedSince(w, steps, t)
            <==> DropAt(w, steps, last, t) || (DroppedSince(w, steps[..last], t) && SwapAt(w, steps, last, t).None?)
  {
    hide Exec, SwapsInto, DropsTable;
    var last := |steps| - 1;
    var init := steps[..last];
    forall m: nat | m < last
      ensures SwapAt(w, init, m, t) == SwapAt(w, steps, m, t) && DropAt(w, init, m, t) == DropAt(w, steps, m, t)
    {
      assert init[..m] == steps[..m];
    }
  }

  /** There is no source behind a table exactly when none was ever swapped in, or a
      drop came after the last one. */
  lemma {:induction false} NoSourceExactly(w: World, steps: seq<Step>, t: TableName)
    ensures LastSource(w, steps, t).None? <==> !EverSwapped(w, steps, t) || DroppedSince(w, steps, t)
    decreases |steps|
  {
    hide Exec, EverSwapped, DroppedSince;
    if steps == [] {
      NothingYet(w, t);
    } else {
      NoSourceExactly(w, steps[..|steps| - 1], t);
      EverSwappedStep(w, steps, t);
      DroppedSinceStep(w, steps, t);
    }
  }

  lemma NothingYet(w: World, t: TableName)
    ensures !EverSwapped(w, [], t)
  {
  }

  /******* A named table has been swapped in *******/

  lemma StepUpMovesStates(releases: map<nat, Release>, id: nat, current: Option<nat>)
    requires id in releases
    ensures var up := StepUp(releases, id, current);
            && up.Keys == releases.Keys
            && forall c :: c in up ==> up[c].validation == releases[c].validation && up[c].table == releases[c].table
  {
  }

  lemma CommitMovesStates(w: World, op: nat, id: nat)
    ensures var v := Apply(w, Commit(op));
            && v.store.releases.Keys == w.store.releases.Keys
            && (id in w.store.releases ==>
                  && v.store.releases[id].validation == w.store.releases[id].validation
                  && v.store.releases[id].table == w.store.releases[id].table)
  {
    hide OneActive, StepUp;
    if op in w.ops && w.ops[op].Superseding? && w.ops[op].id in w.store.releases {
      StepUpMovesStates(w.store.releases, w.ops[op].id, w.ops[op].current);
    }
  }

  /** A row that names a table, and an attempt that has swapped, come from a swap. */
  lemma SwapEvidence(w: World, s: Step, id: nat)
    requires id in Apply(w, s).store.releases && Apply(w, s).store.releases[id].table.Some?
    ensures var t := Apply(w, s).store.releases[id].table;
            || (id in w.store.releases && w.store.releases[id].table == t)
            || (s.Finalize? && IsImport(w, s.op) && AttemptOf(w, s.op).phase.Swapped?
                && t == Some(Partition(AttemptOf(w, s.op).req.key.family, AttemptOf(w, s.op).id)))
  {
    if s.Finalize? {
      if IsImport(w, s.op) && AttemptOf(w, s.op).phase.Swapped? {
        hide Apply, FinalizeCommits;
        Continuity.FinalizeWrites(w, s.op);
      }
    } else if s.Commit? {
      hide Apply;
      CommitMovesStates(w, s.op, id);
    } else if !Continuity.WritesRegistry(s) {
      hide Apply;
      Continuity.QuietStep(w, s);
    } else {
      hide OneActive, InFlight, GateOpen, Unchanged, FailureRuns, FinalRow, StepUp;
    }
  }

  predicate HasSwapped(w: World, op: nat, t: TableName) {
    IsImport(w, op) && AttemptOf(w, op).phase.Swapped? && t == Partition(AttemptOf(w, op).req.key.family, AttemptOf(w, op).id)
  }

  lemma HasSwappedStep(w: World, s: Step, op: nat, t: TableName)
    requires HasSwapped(Apply(w, s), op, t)
    ensures HasSwapped(w, op, t) || SwapsInto(w, s, t).Some?
  {
    hide Summarize, Stage, ProductionChecks, RangeChecks, CommitActivation, CommitDeactivation, OneActive, GateOpen,
      Unchanged, InFlight, IsLookup, FinalRow, FailureRow, FailureRuns, IsCurrent;
  }

  lemma {:induction false} NamedWasSwapped(steps: seq<Step>)
    ensures var w := Exec(GENESIS, steps);
            && (forall id :: id in w.store.releases && w.store.releases[id].table.Some? ==>
                  EverSwapped(GENESIS, steps, w.store.releases[id].table.value))
            && (forall op, t :: HasSwapped(w, op, t) ==> EverSwapped(GENESIS, steps, t))
    decreases |steps|
  {
    hide Apply, EverSwapped, SwapsInto;
    if steps != [] {
      var last := |steps| - 1;
      var init := steps[..last];
      var w := Exec(GENESIS, init);
      var s := steps[last];
      NamedWasSwapped(init);
      ExecAppend(GENESIS, init, [s]);
      assert steps == init + [s];
      assert Exec(w, [s]) == Apply(w, s);
      forall t ensures EverSwapped(GENESIS, steps, t) <==> EverSwapped(GENESIS, init, t) || SwapsInto(w, s, t).Some? {
        EverSwappedStep(GENESIS, steps, t);
      }
      forall op, t | HasSwapped(Apply(w, s), op, t) ensures EverSwapped(GENESIS, steps, t) {
        HasSwappedStep(w, s, op, t);
      }
      forall id | id in Apply(w, s).store.releases && Apply(w, s).store.releases[id].table.Some?
        ensures EverSwapped(GENESIS, steps, Apply(w, s).store.releases[id].table.value)
      {
        SwapEvidence(w, s, id);
        if s.Finalize? && IsImport(w, s.op) && AttemptOf(w, s.op).phase.Swapped? {
          assert HasSwapped(w, s.op, Partition(AttemptOf(w, s.op).req.key.family, AttemptOf(w, s.op).id));
        }
      }
    }
  }

  /******* Who wrote the validation status *******/

  datatype Verdict = Unvalidated | ByImport(status: ValidationStatus) | ByRevalidation(status: ValidationStatus)

  function StatusBy(v: Verdict): ValidationStatus {
    if v.Unvalidated? then NotRun else v.status
  }

  function WritesVerdict(w: World, s: Step, id: nat): Option<Verdict> {
    match s
    case Finalize(op) =>
      if IsImport(w, op) && AttemptOf(w, op).phase.Swapped? && AttemptOf(w, op).id == id && FinalizeCommits(w, AttemptOf(w, op))
      then Some(ByImport(AttemptOf(w, op).phase.status)) else None
    case WriteRevalidation(op) =>
      if op in w.ops && w.ops[op].Revalidating? && w.ops[op].id == id && id in w.store.releases
      then Some(ByRevalidation(w.ops[op].status)) else None
    case _ => None
  }

  /** The last commit over a run that judged this release, since its row was created. */
  function LastVerdict(w: World, steps: seq<Step>, id: nat): Verdict {
    if steps == [] then Unvalidated
    else
      var before := Exec(w, steps[..|steps| - 1]);
      var s := steps[|steps| - 1];
      if id !in before.store.releases || id !in Apply(before, s).store.releases then Unvalidated
      else if WritesVerdict(before, s, id).Some? then WritesVerdict(before, s, id).value
      else LastVerdict(w, steps[..|steps| - 1], id)
  }

  lemma VerdictStep(w: World, s: Step, id: nat)
    requires id in Apply(w, s).store.releases
    ensures Apply(w, s).store.releases[id].validation
         == if id !in w.store.releases then NotRun
            else if WritesVerdict(w, s, id).Some? then StatusBy(WritesVerdict(w, s, id).value)
            else w.store.releases[id].validation
  {
    if s.Commit? {
      hide Apply;
      CommitMovesStates(w, s.op, id);
    } else if s.Finalize? {
      if IsImport(w, s.op) && AttemptOf(w, s.op).phase.Swapped? {
        hide Apply, FinalizeCommits;
        Continuity.FinalizeWrites(w, s.op);
      }
    } else if !Continuity.WritesRegistry(s) {
      hide Apply;
      Continuity.QuietStep(w, s);
    } else {
      hide OneActive, InFlight, GateOpen, Unchanged;
    }
  }

  /** Over any run the stored validation status is the one the last finalize of the
      release gave it, until a revalidation of it commits; then it is the
      revalidation's, until the next finalize. */
  lemma {:induction false} ValidationIsLastVerdict(steps: seq<Step>, id: nat)
    requires id in Exec(GENESIS, steps).store.releases
    ensures Exec(GENESIS, steps).store.releases[id].validation == StatusBy(LastVerdict(GENESIS, steps, id))
  {
    hide Apply, WritesVerdict;
    if steps != [] {
      var init := steps[..|steps| - 1];
      var s := steps[|steps| - 1];
      var w := Exec(GENESIS, init);
      ExecAppend(GENESIS, init, [s]);
      assert steps == init + [s];
      assert Exec(w, [s]) == Apply(w, s);
      VerdictStep(w, s, id);
      if id in w.store.releases {
        ValidationIsLastVerdict(init, id);
      }
    }
  }
}
