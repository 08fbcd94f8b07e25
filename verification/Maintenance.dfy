/** The lifecycle and maintenance commands, each run without interference: their
    transactions in order, proved to be runs of the protocol, with what they leave.

    Models `skycat/registry/releases.py:99-139` and
    `skycat/ingestion/maintenance.py:75-202`. */
module Maintenance {
  import opened Wrappers
  import opened Validation
  import opened Registry
  import opened Protocol
  import opened Invariant
  import opened Importer

  lemma ExecTwo(w: World, s: Step, t: Step)
    ensures Exec(w, [s, t]) == Apply(Apply(w, s), t)
  {
    ExecAppend(w, [s], [t]);
    ExecOne(w, [], s);
    assert [s] + [t] == [s, t] && [] + [s] == [s];
    assert Exec(Apply(w, s), [t]) == Apply(Apply(w, s), t);
  }

  lemma ExecThree(w: World, s: Step, t: Step, u: Step)
    ensures Exec(w, [s, t, u]) == Apply(Apply(Apply(w, s), t), u)
  {
    ExecTwo(Apply(w, s), t, u);
    assert [s, t, u][1..] == [t, u];
  }

  /******* Activation *******/

  lemma ActivationRun(w: World, op: nat, id: nat, current: Option<nat>)
    requires OneActive(w.store.releases) && op !in w.ops && id in w.store.releases
    requires w.store.releases[id].state in {Ready, Superseded}
    requires IsCurrent(w.store.releases, w.store.releases[id].key.family, current)
    ensures Exec(w, [OpenActivation(op, id), ReadCurrent(op, current), Commit(op)])
         == w.(store := w.store.(releases := StepUp(w.store.releases, id, current)))
  {
    hide StepUp;
    var v := Apply(w, OpenActivation(op, id));
    ExecThree(w, OpenActivation(op, id), ReadCurrent(op, current), Commit(op));
    SerialActivationSucceeds(w.store.releases, id, current);
    ChosenCommits(v, op, id, Cli, current);
    assert v.ops - {op} == w.ops;
  }

  /** Activation succeeds exactly for a built release, and then that release is its
      family's one active release and the one it replaced is SUPERSEDED, not lost. */
  method ActivateCommand(catalog: Catalog, ghost op: nat, id: nat)
    returns (ok: bool, ghost trace: seq<Step>)
    requires Inv(catalog.World()) && op !in catalog.ops && id in catalog.releases
    modifies catalog`releases
    ensures catalog.World() == Exec(old(catalog.World()), trace) && Inv(catalog.World())
    ensures ok <==> IsBuilt(old(catalog.releases)[id].state)
    ensures !ok ==> catalog.releases == old(catalog.releases)
    ensures ok ==> forall r :: r in old(catalog.releases) ==>
              && r in catalog.releases
              && catalog.releases[r] == old(catalog.releases)[r].(state := catalog.releases[r].state)
              && (old(catalog.releases)[r].key.family != old(catalog.releases)[id].key.family ==>
                    catalog.releases[r] == old(catalog.releases)[r])
              && (old(catalog.releases)[r].key.family == old(catalog.releases)[id].key.family ==>
                    catalog.releases[r].state
                    == if r == id then Active
                       else if old(catalog.releases)[r].state == Active then Superseded
                       else old(catalog.releases)[r].state)
  {
    hide Inv, Exec, Apply;
    InvOneActive(catalog.World());
    ghost var start := catalog.World();
    trace := [];
    ExecNone(start);
    var r := catalog.releases[id];
    if r.state == Active {
      ok := true;
    } else if r.state in {Ready, Superseded} {
      ok := true;
      var current := catalog.ActivateRelease(id);
      trace := [OpenActivation(op, id), ReadCurrent(op, current), Commit(op)];
      ActivationRun(start, op, id, current);
    } else {
      ok := false;
    }
    Safety(start, trace);
  }

  /******* Deactivation *******/

  lemma DeactivationRun(w: World, op: nat, id: nat)
    requires op !in w.ops && id in w.store.releases && w.store.releases[id].state == Active
    ensures Exec(w, [OpenDeactivation(op, id), Commit(op)])
         == w.(store := w.store.(releases := w.store.releases[id := w.store.releases[id].(state := Superseded)]))
  {
    ExecTwo(w, OpenDeactivation(op, id), Commit(op));
    assert w.ops[op := Deactivating(id)] - {op} == w.ops;
  }

  method DeactivateCommand(catalog: Catalog, ghost op: nat, id: nat) returns (ghost trace: seq<Step>)
    requires Inv(catalog.World()) && op !in catalog.ops && id in catalog.releases
    modifies catalog`releases
    ensures catalog.World() == Exec(old(catalog.World()), trace) && Inv(catalog.World())
    ensures var r := old(catalog.releases)[id];
            catalog.releases == old(catalog.releases)[id := r.(state := if r.state == Active then Superseded else r.state)]
  {
    hide Inv, Exec, Apply;
    ghost var start := catalog.World();
    trace := [];
    ExecNone(start);
    if catalog.releases[id].state == Active {
      trace := [OpenDeactivation(op, id), Commit(op)];
      DeactivationRun(start, op, id);
      catalog.releases := catalog.releases[id := catalog.releases[id].(state := Superseded)];
    }
    Safety(start, trace);
  }

  /******* Removal *******/

  /** The world with a release gone: row, runs, and the table it named. */
  function Removed(w: World, id: nat): World
    requires id in w.store.releases
  {
    var target := w.store.releases[id].table;
    var gone := if target.Some? then {target.value} else {};
    w.(store := w.store.(
         releases := w.store.releases - {id},
         runs := map r | r in w.store.runs && w.store.runs[r].releaseId != id :: w.store.runs[r],
         tables := w.store.tables - gone,
         attached := w.store.attached - gone),
       dropped := if target.Some? then w.dropped + {id} else w.dropped,
       last := w.last - gone)
  }

  lemma DropAndDelete(w: World, op: nat, id: nat)
    requires op in w.ops && id in w.store.releases && w.ops[op] == Removing(id, w.store.releases[id].table)
    ensures Apply(Apply(w, DropTable(op)), DeleteRelease(op)) == EndOp(Removed(w, id), op)
  {
    assert w.ops[op := Dropped(id)] - {op} == w.ops - {op};
    assert w.store.tables - {} == w.store.tables;
  }

  lemma RemovalRun(w: World, op: nat, id: nat, force: bool)
    requires op !in w.ops && id in w.store.releases && (w.store.releases[id].state != Active || force)
    ensures Exec(w, [OpenRemoval(op, id, force), DropTable(op), DeleteRelease(op)]) == Removed(w, id)
  {
    var v := SetOp(w, op, Removing(id, w.store.releases[id].table));
    ExecThree(w, OpenRemoval(op, id, force), DropTable(op), DeleteRelease(op));
    assert Apply(w, OpenRemoval(op, id, force)) == v;
    hide Apply;
    DropAndDelete(v, op, id);
    assert v.ops - {op} == w.ops;
  }

  /** After a removal the family parent holds nothing for the release, provided its
      row named a table: a partition whose import died before finalize stays. Every
      other release keeps its rows: no other partition bears the name. */
  lemma RemovalReach(w: World, id: nat)
    requires Inv(w) && id in w.store.releases
    ensures var v := Removed(w, id);
            && id !in v.store.releases
            && FamilyRows(v.store, w.store.releases[id].key.family, id)
               == (if w.store.releases[id].table.Some? then []
                   else FamilyRows(w.store, w.store.releases[id].key.family, id))
            && forall family, r :: r != id ==> FamilyRows(v.store, family, r) == FamilyRows(w.store, family, r)
  {
  }

  /** An active release is removed only by force; a removal leaves nothing of the
      release behind and touches no other. */
  method RemoveRelease(catalog: Catalog, ghost op: nat, id: nat, force: bool)
    returns (ok: bool, ghost trace: seq<Step>)
    requires Inv(catalog.World()) && op !in catalog.ops && id in catalog.releases
    modifies catalog`releases, catalog`runs, catalog`tables, catalog`attached, catalog`dropped, catalog`last
    ensures catalog.World() == Exec(old(catalog.World()), trace) && Inv(catalog.World())
    ensures ok <==> (old(catalog.releases)[id].state == Active ==> force)
    ensures catalog.World() == if ok then Removed(old(catalog.World()), id) else old(catalog.World())
  {
    hide Inv, Exec, Apply;
    ghost var start := catalog.World();
    trace := [];
    ExecNone(start);
    ok := catalog.releases[id].state != Active || force;
    if ok {
      var target := catalog.releases[id].table;
      if target.Some? {
        if target.value in catalog.attached {
          catalog.attached := catalog.attached - {target.value};
        }
        catalog.tables := catalog.tables - {target.value};
        catalog.dropped, catalog.last := catalog.dropped + {id}, catalog.last - {target.value};
      }
      catalog.releases := catalog.releases - {id};
      catalog.runs := map r | r in catalog.runs && catalog.runs[r].releaseId != id :: catalog.runs[r];
      trace := [OpenRemoval(op, id, force), DropTable(op), DeleteRelease(op)];
      RemovalRun(start, op, id, force);
    }
    Safety(start, trace);
  }

  /******* Revalidation *******/

  lemma InspectionRun(w: World, op: nat, id: nat)
    requires op !in w.ops && id in w.store.releases
    requires w.store.releases[id].table.Some? && w.store.releases[id].table.value in w.store.tables
    ensures var r := w.store.releases[id];
            var t := w.store.tables[r.table.value];
            var status := Summarize(ProductionChecks(t.rows, t.gist, r.expected) + RangeChecks(t.rows));
            Apply(Apply(w, OpenRevalidation(op, id)), InspectPartition(op)) == SetOp(w, op, Revalidating(id, status))
  {
    hide Summarize, ProductionChecks, RangeChecks;
    var r := w.store.releases[id];
    var v := Apply(w, OpenRevalidation(op, id));
    assert v == SetOp(w, op, Inspecting(id, r.table.value, r.expected));
    var u := Apply(v, InspectPartition(op));
    assert u.ops == w.ops[op := u.ops[op]];
  }

  lemma RevalidationCloses(w: World, op: nat, id: nat, status: ValidationStatus)
    requires op in w.ops && w.ops[op] == Revalidating(id, status) && id in w.store.releases
    ensures Apply(w, WriteRevalidation(op))
         == EndOp(w.(store := w.store.(releases := w.store.releases[id := w.store.releases[id].(validation := status)])), op)
  {
  }

  function Revalidation(op: nat, id: nat): seq<Step> {
    [OpenRevalidation(op, id), InspectPartition(op), WriteRevalidation(op)]
  }

  lemma RevalidationRun(w: World, op: nat, id: nat)
    requires op !in w.ops && id in w.store.releases
    requires w.store.releases[id].table.Some? && w.store.releases[id].table.value in w.store.tables
    ensures var r := w.store.releases[id];
            var t := w.store.tables[r.table.value];
            var status := Summarize(ProductionChecks(t.rows, t.gist, r.expected) + RangeChecks(t.rows));
            Exec(w, Revalidation(op, id))
            == w.(store := w.store.(releases := w.store.releases[id := r.(validation := status)]))
  {
    hide Apply, Exec, Summarize, ProductionChecks, RangeChecks;
    ExecThree(w, OpenRevalidation(op, id), InspectPartition(op), WriteRevalidation(op));
    InspectionRun(w, op, id);
    var v := Apply(Apply(w, OpenRevalidation(op, id)), InspectPartition(op));
    RevalidationCloses(v, op, id, v.ops[op].status);
    assert v.ops - {op} == w.ops;
  }

  /** On a partition an import built, the added range checks find nothing. */
  lemma RevalidationStatus(w: World, id: nat)
    requires Inv(w) && id in w.store.releases && id !in w.torn && id !in w.dropped
    requires w.store.releases[id].table.Some?
    ensures var r := w.store.releases[id];
            && r.table.value in w.store.tables
            && var t := w.store.tables[r.table.value];
            Summarize(ProductionChecks(t.rows, t.gist, r.expected) + RangeChecks(t.rows))
            == Summarize(ProductionChecks(t.rows, true, r.expected))
  {
    RowIsOk(w, id);
    var t := w.store.releases[id].table.value;
    RevalidationPasses(w.last[t].rows, true, w.store.releases[id].expected);
  }

  /** A release held back for staging warnings: once it has been revalidated, the same
      import request activates it, with no word from the operator, exactly when the
      production checks alone raise no warning. */
  lemma RevalidationOpensGate(w: World, op: nat, id: nat, req: Request)
    requires Inv(w) && op !in w.ops && id in w.store.releases && id !in w.torn && id !in w.dropped
    requires var r := w.store.releases[id]; r.table.Some? && r.state != Active && r.validation == PassedWithWarnings
    requires req.activate && !req.allowWarnings
    ensures var r := w.store.releases[id];
            var v := Exec(w, Revalidation(op, id));
            && id in v.store.releases
            && r.table.value in w.store.tables
            && MoveOnSkip(r, req) == Rest
            && (MoveOnSkip(v.store.releases[id], req) == StepForward
                <==> Summarize(ProductionChecks(w.store.tables[r.table.value].rows, true, r.expected)) == Passed)
  {
    hide Inv, Exec, ProductionChecks, RangeChecks;
    RevalidationStatus(w, id);
    RevalidationRun(w, op, id);
  }

  /** Writes the status of the production checks alone: the verdict of staging
      validation, warnings included, is overwritten. */
  method RevalidateRelease(catalog: Catalog, ghost op: nat, id: nat)
    returns (status: Option<ValidationStatus>, ghost trace: seq<Step>)
    requires Inv(catalog.World()) && op !in catalog.ops && id in catalog.releases
    modifies catalog`releases
    ensures catalog.World() == Exec(old(catalog.World()), trace) && Inv(catalog.World())
    ensures status.None? ==> catalog.releases == old(catalog.releases)
    ensures status.Some? ==>
                && id in catalog.releases
                && catalog.releases == old(catalog.releases)[id := old(catalog.releases)[id].(validation := status.value)]
    ensures id !in catalog.torn && id !in catalog.dropped ==> (
              && (status.Some? <==> IsBuilt(old(catalog.releases)[id].state))
              && (status.Some? ==>
                    var r := old(catalog.releases)[id];
                    && r.table.Some?
                    && r.table.value in catalog.tables
                    && status.value == Summarize(ProductionChecks(catalog.tables[r.table.value].rows, true, r.expected))))
  {
    hide Inv, Exec, Apply, Summarize, ProductionChecks, RangeChecks;
    ghost var start := catalog.World();
    trace, status := [], None;
    ExecNone(start);
    RowIsOk(start, id);
    var r := catalog.releases[id];
    if r.table.Some? && id !in catalog.torn && id !in catalog.dropped {
      RevalidationStatus(start, id);
    }
    if r.table.Some? && r.table.value in catalog.tables {
      var t := catalog.tables[r.table.value];
      var checks := ProductionChecks(t.rows, t.gist, r.expected);
      checks := checks + RangeChecks(t.rows);
      status := Some(Summarize(checks));
      RevalidationRun(start, op, id);
      trace := Revalidation(op, id);
      catalog.releases := catalog.releases[id := r.(validation := status.value)];
    }
    Safety(start, trace);
  }
}
