/** Active continuity: which steps can leave a family without its active release,
    and the discipline under which no run ever does. */
module Continuity {
  import opened Wrappers
  import opened Validation
  import opened Registry
  import opened Protocol
  import opened Invariant

  predicate IsActiveIn(w: World, id: nat, family: Family) {
    id in w.store.releases && w.store.releases[id].state == Active && w.store.releases[id].key.family == family
  }

  /** The three commits that take the active release away: a deactivation, the
      deletion of a row that is active when it is deleted, and the finalize of an
      import that read its release as inactive although it is active now. */
  predicate Breaks(w: World, s: Step, family: Family) {
    match s
    case Commit(op) => op in w.ops && w.ops[op].Deactivating? && IsActiveIn(w, w.ops[op].id, family)
    case DeleteRelease(op) => op in w.ops && w.ops[op].Dropped? && IsActiveIn(w, w.ops[op].id, family)
    case Finalize(op) =>
      && IsImport(w, op)
      && AttemptOf(w, op).phase.Swapped?
      && FinalizeCommits(w, AttemptOf(w, op))
      && !AttemptOf(w, op).wasActive
      && IsActiveIn(w, AttemptOf(w, op).id, family)
    case _ => false
  }

  lemma ActiveWitness(w: World, id: nat, family: Family)
    requires IsActiveIn(w, id, family)
    ensures HasActive(w.store.releases, family)
  {
  }

  lemma StepUpRows(releases: map<nat, Release>, id: nat, current: Option<nat>)
    requires id in releases
    ensures var up := StepUp(releases, id, current);
            && up.Keys == releases.Keys
            && up[id].state == Active
            && (forall c :: c in up ==> up[c].key == releases[c].key)
            && (forall c :: c in up && c != id && current != Some(c) ==> up[c] == releases[c])
  {
  }

  lemma ActivationContinuity(w: World, op: nat, id: nat, family: Family)
    requires Inv(w) && IsActiveIn(w, id, family) && op in w.ops && w.ops[op].Superseding?
    ensures HasActive(ApplyCommit(w, op).store.releases, family)
  {
    hide Inv, StepUp;
    var v := ApplyCommit(w, op);
    var o := w.ops[op];
    if CommitActivation(w.store.releases, o.id, o.current).Some? {
      OpIsOk(w, op);
      StepUpRows(w.store.releases, o.id, o.current);
      ActiveWitness(v, if w.store.releases[o.id].key.family == family then o.id else id, family);
    } else {
      ActiveWitness(v, id, family);
    }
  }

  lemma CommitContinuity(w: World, op: nat, id: nat, family: Family)
    requires Inv(w) && IsActiveIn(w, id, family)
    ensures HasActive(Apply(w, Commit(op)).store.releases, family) <==> !Breaks(w, Commit(op), family)
  {
    hide Core, OpOk;
    var v := Apply(w, Commit(op));
    RowIsOk(w, id);
    if op in w.ops && w.ops[op].Superseding? {
      ActivationContinuity(w, op, id, family);
    } else if Breaks(w, Commit(op), family) {
      forall c | c in v.store.releases && v.store.releases[c].key.family == family
        ensures v.store.releases[c].state != Active
      {
      }
    } else {
      ActiveWitness(v, id, family);
    }
  }

  predicate WritesRegistry(s: Step) {
    s.Commit? || s.Begin? || s.Finalize? || s.RecordFailure? || s.DeleteRelease? || s.WriteRevalidation?
  }

  lemma QuietStep(w: World, s: Step)
    requires !WritesRegistry(s)
    ensures Apply(w, s).store.releases == w.store.releases
  {
  }

  /** The registry writes of `s` reach one row: the others survive as they were. */
  predicate OnlyRow(w: World, v: World, id: Option<nat>) {
    forall c :: c in v.store.releases && id != Some(c) ==>
      c in w.store.releases && v.store.releases[c] == w.store.releases[c]
  }

  function WrittenRow(w: World, s: Step): Option<nat> {
    match s
    case Begin(_, _, id) => Some(id)
    case Finalize(op) => if IsImport(w, op) then Some(AttemptOf(w, op).id) else None
    case RecordFailure(_, found, _) => found
    case DeleteRelease(op) => if op in w.ops && w.ops[op].Dropped? then Some(w.ops[op].id) else None
    case WriteRevalidation(op) => if op in w.ops && w.ops[op].Revalidating? then Some(w.ops[op].id) else None
    case _ => None
  }

  lemma WritesOneRow(w: World, s: Step)
    requires WritesRegistry(s) && !s.Commit?
    ensures OnlyRow(w, Apply(w, s), WrittenRow(w, s))
    ensures forall c :: c in w.store.releases && WrittenRow(w, s) != Some(c) ==> c in Apply(w, s).store.releases
  {
  }

  lemma FailWritesNothing(w: World, op: nat)
    requires op in w.ops
    ensures Fail(w, op).store == w.store
  {
  }

  lemma FinalizeWrites(w: World, op: nat)
    requires IsImport(w, op) && AttemptOf(w, op).phase.Swapped?
    ensures var a := AttemptOf(w, op);
            Apply(w, Finalize(op)).store.releases
            == if FinalizeCommits(w, a) then w.store.releases[a.id := FinalRow(w.store.releases[a.id], a)]
               else w.store.releases
  {
    FailWritesNothing(w, op);
  }

  lemma DeleteWrites(w: World, op: nat)
    requires op in w.ops && w.ops[op].Dropped?
    ensures Apply(w, DeleteRelease(op)).store.releases == w.store.releases - {w.ops[op].id}
  {
  }

  /** What a single-row write does to a row that is active. */
  lemma ActiveRowAfter(w: World, s: Step, id: nat, family: Family)
    requires Inv(w) && IsActiveIn(w, id, family)
    requires WritesRegistry(s) && !s.Commit?
    ensures IsActiveIn(Apply(w, s), id, family) <==> !Breaks(w, s, family)
  {
    hide Inv, OneActive, FailureRuns, InFlight, GateOpen, StepUp;
    RowIsOk(w, id);
    if s.Finalize? {
      if IsImport(w, s.op) && AttemptOf(w, s.op).phase.Swapped? {
        hide Apply;
        FinalizeWrites(w, s.op);
      }
    } else if s.DeleteRelease? {
      if s.op in w.ops && w.ops[s.op].Dropped? {
        hide Apply;
        DeleteWrites(w, s.op);
      }
    }
  }

  lemma RegistryContinuity(w: World, s: Step, id: nat, family: Family)
    requires Inv(w) && IsActiveIn(w, id, family)
    requires WritesRegistry(s) && !s.Commit?
    ensures HasActive(Apply(w, s).store.releases, family) <==> !Breaks(w, s, family)
  {
    hide Core, Apply;
    var v := Apply(w, s);
    RowIsOk(w, id);
    ActiveRowAfter(w, s, id, family);
    WritesOneRow(w, s);
    if Breaks(w, s, family) {
      assert WrittenRow(w, s) == Some(id);
      forall c | c in v.store.releases && v.store.releases[c].key.family == family
        ensures v.store.releases[c].state != Active
      {
      }
    } else {
      ActiveWitness(v, id, family);
    }
  }

  /** From a state whose family has an active release, a step leaves it without one
      exactly when the step is one of the three. */
  lemma StepContinuity(w: World, s: Step, family: Family)
    requires Inv(w) && HasActive(w.store.releases, family)
    ensures HasActive(Apply(w, s).store.releases, family) <==> !Breaks(w, s, family)
  {
    hide Inv, Apply;
    var id :| id in w.store.releases && w.store.releases[id].state == Active
              && w.store.releases[id].key.family == family;
    if s.Commit? {
      CommitContinuity(w, s.op, id, family);
    } else if WritesRegistry(s) {
      RegistryContinuity(w, s, id, family);
    } else {
      QuietStep(w, s);
    }
  }

  /******* Disciplined runs *******/

  /** The release an operation relies on staying inactive: one being removed
      without force, or one whose import read it as inactive and has not finalized. */
  function Relies(op: Op): Option<nat> {
    match op
    case Removing(id, _) => Some(id)
    case Dropped(id) => Some(id)
    case Importing(a) =>
      if !a.wasActive && !a.phase.Finalized? && !a.phase.Cleaning? then Some(a.id) else None
    case _ => None
  }

  ghost predicate Disciplined(w: World, family: Family) {
    forall o :: o in w.ops ==>
      && (Relies(w.ops[o]).Some? ==> !IsActiveIn(w, Relies(w.ops[o]).value, family))
      && (w.ops[o].Deactivating? && w.ops[o].id in w.store.releases ==>
            w.store.releases[w.ops[o].id].key.family != family)
  }

  /** What operators must refrain from in this family: deactivating, forcing a removal,
      and committing an activation of a release while its own import or removal is in
      flight. */
  predicate Careful(w: World, s: Step, family: Family) {
    match s
    case OpenDeactivation(_, id) => id in w.store.releases ==> w.store.releases[id].key.family != family
    case OpenRemoval(_, id, force) => id in w.store.releases && w.store.releases[id].key.family == family ==> !force
    case Commit(op) =>
      op in w.ops && w.ops[op].Superseding? && w.ops[op].id in w.store.releases
      && w.store.releases[w.ops[op].id].key.family == family ==>
        forall o :: o in w.ops ==> Relies(w.ops[o]) != Some(w.ops[op].id)
    case _ => true
  }

  lemma DisciplinedNeverBreaks(w: World, s: Step, family: Family)
    requires Disciplined(w, family)
    ensures !Breaks(w, s, family)
  {
  }

  lemma CommitActivates(w: World, op: nat, id: nat, family: Family)
    requires !IsActiveIn(w, id, family)
    ensures IsActiveIn(Apply(w, Commit(op)), id, family) <==> Activates(w, Commit(op), id, family)
  {
    hide OneActive;
  }

  /** The two commits that make a release active: an activation of it, and the finalize
      of an import that read it as active and found it deactivated meanwhile. */
  predicate Activates(w: World, s: Step, id: nat, family: Family) {
    && id in w.store.releases
    && w.store.releases[id].key.family == family
    && match s
       case Commit(op) =>
         && op in w.ops
         && w.ops[op].Superseding?
         && w.ops[op].id == id
         && CommitActivation(w.store.releases, id, w.ops[op].current).Some?
       case Finalize(op) =>
         && IsImport(w, op)
         && AttemptOf(w, op).phase.Swapped?
         && AttemptOf(w, op).id == id
         && AttemptOf(w, op).wasActive
         && FinalizeCommits(w, AttemptOf(w, op))
       case _ => false
  }

  lemma RowWriteActivates(w: World, s: Step, id: nat, family: Family)
    requires Inv(w) && WritesRegistry(s) && !s.Commit? && !IsActiveIn(w, id, family)
    ensures IsActiveIn(Apply(w, s), id, family) <==> Activates(w, s, id, family)
  {
    hide Inv, OneActive, InFlight, GateOpen, Unchanged;
    if s.Finalize? {
      if IsImport(w, s.op) && AttemptOf(w, s.op).phase.Swapped? {
        hide Apply, FinalizeCommits;
        FinalizeWrites(w, s.op);
      }
    } else if s.DeleteRelease? {
      if s.op in w.ops && w.ops[s.op].Dropped? {
        hide Apply;
        DeleteWrites(w, s.op);
      }
    }
  }

  /** In every interleaving a release becomes active by one of these two commits and
      no other. */
  lemma NewlyActive(w: World, s: Step, id: nat, family: Family)
    requires Inv(w) && !IsActiveIn(w, id, family)
    ensures IsActiveIn(Apply(w, s), id, family) <==> Activates(w, s, id, family)
  {
    hide Inv, Apply;
    if s.Commit? {
      CommitActivates(w, s.op, id, family);
    } else if WritesRegistry(s) {
      RowWriteActivates(w, s, id, family);
    } else {
      QuietStep(w, s);
    }
  }

  /** While the family has an active release the second of them meets the index: only
      an activation makes another release active. */
  lemma OnlyActivationTakesOver(w: World, s: Step, id: nat, family: Family)
    requires Inv(w) && HasActive(w.store.releases, family)
    requires !IsActiveIn(w, id, family) && IsActiveIn(Apply(w, s), id, family)
    ensures s.Commit? && s.op in w.ops && w.ops[s.op].Superseding? && w.ops[s.op].id == id
  {
    hide Inv, Apply;
    NewlyActive(w, s, id, family);
    if s.Finalize? {
      var c :| c in w.store.releases && w.store.releases[c].state == Active && w.store.releases[c].key.family == family;
      FinalizeMeetsIndex(w, s.op, id, c, family);
    }
  }

  lemma TwoActive(releases: map<nat, Release>, id: nat, r: Release, c: nat)
    requires c in releases && c != id && releases[c].state == r.state == Active
    requires releases[c].key.family == r.key.family
    ensures !OneActive(releases[id := r])
  {
    var after := releases[id := r];
    assert after[c] == releases[c] && after[id] == r;
  }

  lemma FinalizeMeetsIndex(w: World, op: nat, id: nat, c: nat, family: Family)
    requires IsActiveIn(w, c, family) && !IsActiveIn(w, id, family)
    ensures !Activates(w, Finalize(op), id, family)
  {
    if id in w.store.releases && IsImport(w, op) {
      var a := AttemptOf(w, op);
      var r := w.store.releases[id];
      if r.key.family == family && a.phase.Swapped? && a.id == id && a.wasActive {
        TwoActive(w.store.releases, id, FinalRow(r, a), c);
      }
    }
  }

  /** The index aborts a finalize, whose two rows are there, exactly when the import had
      read its release as active and another release of the family is active by now. */
  lemma FinalizeAborts(w: World, op: nat)
    requires Inv(w) && IsImport(w, op) && AttemptOf(w, op).phase.Swapped?
    requires AttemptOf(w, op).id in w.store.releases && AttemptOf(w, op).run in w.store.runs
    ensures var a := AttemptOf(w, op);
            !FinalizeCommits(w, a) <==> a.wasActive && exists c :: c != a.id && IsActiveIn(w, c, a.req.key.family)
  {
    hide Core, OpOk;
    var a := AttemptOf(w, op);
    var r := w.store.releases[a.id];
    OpIsOk(w, op);
    RowIsOk(w, a.id);
    AttemptKey(w, op);
    if a.wasActive {
      if c :| c != a.id && IsActiveIn(w, c, a.req.key.family) {
        TwoActive(w.store.releases, a.id, FinalRow(r, a), c);
      } else {
        forall c | c in w.store.releases && c != a.id && w.store.releases[c].state == Active
          ensures w.store.releases[c].key.family != r.key.family
        {
          assert !IsActiveIn(w, c, a.req.key.family);
        }
        NoOtherActive(w.store.releases, a.id, FinalRow(r, a));
      }
    } else {
      OneActiveAfter(w.store.releases, a.id, FinalRow(r, a));
    }
  }

  lemma NoOtherActive(releases: map<nat, Release>, id: nat, r: Release)
    requires OneActive(releases)
    requires forall c :: c in releases && c != id && releases[c].state == Active ==> releases[c].key.family != r.key.family
    ensures OneActive(releases[id := r])
  {
  }

  lemma AttemptKey(w: World, op: nat)
    requires IsImport(w, op) && OpOk(w, w.ops[op]) && AttemptOf(w, op).id in w.store.releases
    ensures w.store.releases[AttemptOf(w, op).id].key == AttemptOf(w, op).req.key
  {
  }

  lemma OtherOpsStay(w: World, s: Step, o: nat)
    requires o in Apply(w, s).ops && (s.CleanStaging? || o != s.op)
    ensures o in w.ops && Apply(w, s).ops[o] == w.ops[o]
  {
  }

  /** A step that makes its operation rely on a release found it inactive. */
  lemma OwnRelies(w: World, s: Step, family: Family)
    requires Careful(w, s, family) && !s.CleanStaging? && s.op in Apply(w, s).ops
    ensures var p := Apply(w, s).ops[s.op];
            && (Relies(p).Some? ==>
                  || (s.op in w.ops && Relies(w.ops[s.op]) == Relies(p))
                  || !IsActiveIn(w, Relies(p).value, family))
            && (p.Deactivating? ==>
                  || (s.op in w.ops && w.ops[s.op] == p)
                  || (p.id in w.store.releases && w.store.releases[p.id].key.family != family))
  {
    hide Summarize, Stage, ProductionChecks, RangeChecks, CommitActivation, CommitDeactivation, FinalRow, FailureRow, OneActive;
  }

  lemma NewlyRelies(w: World, s: Step, o: nat, family: Family)
    requires Inv(w) && Careful(w, s, family) && Disciplined(w, family)
    requires o in Apply(w, s).ops
    ensures var p := Apply(w, s).ops[o];
            && (Relies(p).Some? ==> !IsActiveIn(w, Relies(p).value, family))
            && (p.Deactivating? ==>
                  && p.id <= w.store.lastRelease
                  && (p.id in w.store.releases ==> w.store.releases[p.id].key.family != family))
  {
    hide Core, OpOk, Apply;
    if s.CleanStaging? || o != s.op {
      OtherOpsStay(w, s, o);
      OpIsOk(w, o);
    } else {
      OwnRelies(w, s, family);
      var p := Apply(w, s).ops[o];
      if o in w.ops {
        OpIsOk(w, o);
      }
      if p.Deactivating? && p.id in w.store.releases {
        RowIsOk(w, p.id);
      }
    }
  }

  /** Is this import yet to finalize a release it read as active? */
  predicate Awaits(op: Op, family: Family) {
    && op.Importing?
    && op.attempt.wasActive && !op.attempt.phase.Finalized? && !op.attempt.phase.Cleaning?
    && op.attempt.req.key.family == family
  }

  /** While the family has no active release, no import waits to restore one. */
  ghost predicate NoneWaiting(w: World, family: Family) {
    HasActive(w.store.releases, family) || forall o :: o in w.ops ==> !Awaits(w.ops[o], family)
  }

  /** In such a state only an activation commit makes a release active. */
  lemma OnlyActivation(w: World, s: Step, id: nat, family: Family)
    requires Inv(w) && NoneWaiting(w, family)
    requires !IsActiveIn(w, id, family) && IsActiveIn(Apply(w, s), id, family)
    ensures s.Commit? && s.op in w.ops && w.ops[s.op].Superseding? && w.ops[s.op].id == id
  {
    hide Core, OpOk, Apply;
    if HasActive(w.store.releases, family) {
      OnlyActivationTakesOver(w, s, id, family);
    } else {
      NewlyActive(w, s, id, family);
      if s.Finalize? {
        OpIsOk(w, s.op);
        FinalizeAwaits(w, s.op, id, family);
      }
    }
  }

  lemma FinalizeAwaits(w: World, op: nat, id: nat, family: Family)
    requires op in w.ops && OpOk(w, w.ops[op]) && Activates(w, Finalize(op), id, family)
    ensures Awaits(w.ops[op], family)
  {
  }

  lemma AwaitsBefore(w: World, s: Step, o: nat, family: Family)
    requires o in Apply(w, s).ops && Awaits(Apply(w, s).ops[o], family)
    ensures (o in w.ops && Awaits(w.ops[o], family)) || HasActive(w.store.releases, family)
  {
    hide Summarize, Stage, ProductionChecks, RangeChecks, CommitActivation, CommitDeactivation, FinalRow, FailureRow, OneActive,
      GateOpen, Unchanged, InFlight;
  }

  lemma WaitingKeeps(w: World, s: Step, family: Family)
    requires Inv(w) && NoneWaiting(w, family) && Disciplined(w, family)
    ensures NoneWaiting(Apply(w, s), family)
  {
    hide Inv, Apply, Disciplined;
    var v := Apply(w, s);
    if HasActive(w.store.releases, family) {
      DisciplinedNeverBreaks(w, s, family);
      StepContinuity(w, s, family);
    } else {
      forall o | o in v.ops ensures !Awaits(v.ops[o], family) {
        if Awaits(v.ops[o], family) {
          AwaitsBefore(w, s, o, family);
        }
      }
    }
  }

  lemma DisciplineKeeps(w: World, s: Step, family: Family)
    requires Inv(w) && NoneWaiting(w, family)
    requires Disciplined(w, family) && Careful(w, s, family)
    ensures Disciplined(Apply(w, s), family)
  {
    hide Inv, Apply, NoneWaiting;
    var v := Apply(w, s);
    forall o | o in v.ops && Relies(v.ops[o]).Some? ensures !IsActiveIn(v, Relies(v.ops[o]).value, family) {
      NewlyRelies(w, s, o, family);
      var id := Relies(v.ops[o]).value;
      if IsActiveIn(v, id, family) {
        OnlyActivation(w, s, id, family);
        CommitKeysStay(w, s.op);
        CommitRelies(w, s.op, o);
        assert false;
      }
    }
    forall o | o in v.ops && v.ops[o].Deactivating? && v.ops[o].id in v.store.releases
      ensures v.store.releases[v.ops[o].id].key.family != family
    {
      NewlyRelies(w, s, o, family);
      KeysStay(w, s, v.ops[o].id);
    }
  }

  /** An activation commit starts no operation that relies on anything. */
  lemma CommitRelies(w: World, op: nat, o: nat)
    requires o in Apply(w, Commit(op)).ops && Relies(Apply(w, Commit(op)).ops[o]).Some?
    ensures o in w.ops && Relies(w.ops[o]) == Relies(Apply(w, Commit(op)).ops[o])
  {
  }

  lemma WrittenRowKey(w: World, s: Step, id: nat)
    requires Inv(w) && WritesRegistry(s) && !s.Commit? && WrittenRow(w, s) == Some(id)
    requires id in Apply(w, s).store.releases
    ensures id in w.store.releases ==> Apply(w, s).store.releases[id].key == w.store.releases[id].key
    ensures id !in w.store.releases ==> id > w.store.lastRelease
  {
    hide Core;
    if IsImport(w, s.op) {
      OpIsOk(w, s.op);
    }
  }

  lemma CommitKeysStay(w: World, op: nat)
    ensures var v := Apply(w, Commit(op));
            && v.store.releases.Keys == w.store.releases.Keys
            && forall c :: c in w.store.releases ==> v.store.releases[c].key == w.store.releases[c].key
  {
    hide StepUp;
    if op in w.ops && w.ops[op].Superseding? && w.ops[op].id in w.store.releases {
      StepUpRows(w.store.releases, w.ops[op].id, w.ops[op].current);
    }
  }

  lemma KeysStay(w: World, s: Step, id: nat)
    requires Inv(w) && id in Apply(w, s).store.releases
    ensures id in w.store.releases ==> Apply(w, s).store.releases[id].key == w.store.releases[id].key
    ensures id !in w.store.releases ==> id > w.store.lastRelease
  {
    hide Inv, Apply;
    if s.Commit? {
      CommitKeysStay(w, s.op);
    } else if !WritesRegistry(s) {
      QuietStep(w, s);
    } else {
      WritesOneRow(w, s);
      if WrittenRow(w, s) == Some(id) {
        WrittenRowKey(w, s, id);
      }
    }
  }

  ghost predicate CarefulRun(w: World, steps: seq<Step>, family: Family)
    decreases |steps|
  {
    steps == [] || (Careful(w, steps[0], family) && CarefulRun(Apply(w, steps[0]), steps[1..], family))
  }

  /** From a state in which nothing in flight is about to break the family. */
  lemma {:induction false} ContinuesFrom(w: World, steps: seq<Step>, k: nat, m: nat, family: Family)
    requires Inv(w) && Disciplined(w, family) && NoneWaiting(w, family)
    requires CarefulRun(w, steps, family) && k <= m <= |steps|
    requires HasActive(Exec(w, steps[..k]).store.releases, family)
    ensures HasActive(Exec(w, steps[..m]).store.releases, family)
    decreases |steps|
  {
    hide Inv, Apply, Disciplined, Careful, NoneWaiting, HasActive;
    if m > 0 {
      var s := steps[0];
      StepKeeps(w, s);
      DisciplineKeeps(w, s, family);
      WaitingKeeps(w, s, family);
      if k == 0 {
        assert Exec(w, steps[..0]) == w;
        DisciplinedNeverBreaks(w, s, family);
        StepContinuity(w, s, family);
        assert steps[1..][..0] == [];
        ContinuesFrom(Apply(w, s), steps[1..], 0, m - 1, family);
      } else {
        assert steps[..k][1..] == steps[1..][..k - 1];
        ContinuesFrom(Apply(w, s), steps[1..], k - 1, m - 1, family);
      }
      assert steps[..m][1..] == steps[1..][..m - 1];
    }
  }

  /** Once a family has an active release, every later state of a careful run has one:
      across imports that succeed, fail, crash or replace the active release,
      activations, unforced removals and revalidations, interleaved in any way and
      whatever was in flight when the release was first activated. */
  lemma ActiveContinuity(steps: seq<Step>, k: nat, m: nat, family: Family)
    requires CarefulRun(GENESIS, steps, family) && k <= m <= |steps|
    requires HasActive(Exec(GENESIS, steps[..k]).store.releases, family)
    ensures HasActive(Exec(GENESIS, steps[..m]).store.releases, family)
  {
    ContinuesFrom(GENESIS, steps, k, m, family);
  }
}
