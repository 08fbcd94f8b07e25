# Catalog ingestion, registry and queries: a verified model

skycat keeps astronomical catalogs in a PostgreSQL store. An import stages a source
tree, validates it, builds a detached table, swaps it in as a partition, finalizes a
registry row and perhaps activates the release; activations, removals and
revalidations write the same rows, and cached readers query them, all at once and any
of them may fail at any step. This project models that store and proves what the code
promises about it.

## How it is laid out

| file | what it holds |
|---|---|
| `Validation.dfy`, `StagingTable.dfy`, `Verdicts.dfy` | row rejection, checks and their summary; Phase A statement by statement; which sources pass, said of their rows |
| `Registry.dfy` | release rows, the unique index as a commit guard, activation |
| `Protocol.dfy` | the state machine: 24 kinds of step, one per committed transaction, relied-on read or failure; any number of operations interleave |
| `Invariant.dfy` | the invariant, kept by every step, hence true in every state of every run |
| `Guarantees.dfy`, `Continuity.dfy`, `History.dfy`, `Soundness.dfy` | what follows for runs: agreement with disk, frames, honest skips, active continuity, which steps of a run its last state goes back to, and that nothing served is empty or failed |
| `Runs.dfy`, `Races.dfy`, `Torn.dfy`, `Gate.dfy`, `StaleReads.dfy` | runs from the empty catalog, with shipped releases, in which the code falls short |
| `Importer.dfy`, `Maintenance.dfy` | the same transactions as imperative code on a `Catalog` object, each call proved to be a run of the protocol |
| `Reader.dfy` | the TTL-cached reader: its methods, and threads interleaved with all writers |
| `Cone.dfy`, `Crossmatch.dfy` | statement building, the answer as filter, sort and cut; merge and stable sort |
| `Parsers.dfy`, `FixedWidth.dfy`, `Sexagesimal.dfy`, `Records.dfy` | the five parsers, byte layouts, positions; what a line of each format says, by its bytes, words and cells |
| `Manifest.dfy`, `Naming.dfy` | source discovery and the manifest text; table names |
| `Pipeline.dfy` | parsing and importing put together |
| `Wrappers.dfy`, `Sequences.dfy`, `Ordering.dfy`, `PythonText.dfy` | shared vocabulary |

A world of the protocol carries three history variables: `torn`, the releases whose
swap committed and whose finalize has not (yet or ever); `dropped`, those whose
partition a removal dropped while the row was still there; and `last`, the last source
swapped into each partition. `LastIsLastSource` ties `last` to the steps of the run.
The standing assumption is that at most one import of a release is in flight, one that has
only its failure left to record not counted: two would share staging and incoming names,
and the code takes no lock against it.

## Where the code falls short

Each of these is proved; where a promise of the documentation fails, the exact condition
under which it holds is proved beside it.

- Activating a release while its own import is in flight loses the family's active
  release (`Races.ActivationDuringImportLosesActive`); so can a removal without
  `--force` that races an activation (`Races.UnforcedRemovalDropsActive`).
  `Continuity.StepContinuity` says exactly which commits do this.
- Deactivating a release while its own forced replacement is in flight is undone by the
  finalize, past the gate (`Races.FinalizeUndoesDeactivation`). `Continuity.NewlyActive`
  says exactly which commits make a release active.
- An invalidation is undone by a reader thread caught between its registry read and its
  cache write (`StaleReads.InvalidationUndone`), and by nothing else
  (`Reader.InvalidationSticks`).
- The same thread makes a release that was deactivated a cache hit a whole TTL later,
  where `skycat/client.py:10-11` promises a new one within the TTL
  (`StaleReads.OldAnswerServedLate`); `Reader.PickedUpExactly` is the exact condition.
- `invalidate` reaches only the spelling it is given
  (`StaleReads.InvalidationMissesSpelling`): it clears a family exactly when nothing is
  cached under another (`Reader.InvalidationIsPerSpelling`).
- Between the two transactions of a forced removal a query's recheck passes and its
  SELECT answers nothing (`StaleReads.RemovalMidwayAnswersEmpty`), where
  `docs/operations/runbook.md:83-86` promises an error.
  `Reader.EmptyOnlyAfterDrop` says exactly when a default query finds no partition.
- Removing a release whose row names no table leaves attached whatever partition an
  import that died before finalize had swapped in (`Races.RemovalLeavesPartition`,
  `Maintenance.RemovalReach`).
- A failure between the commit of the bookings and the read of the run's id leaves the
  run RUNNING for good (`Races.LostRunIsLeftRunning`, `Guarantees.OrphanStaysRunning`).
- Revalidation replaces the stored status by that of the production checks alone
  (`History.ValidationIsLastVerdict`), so an import request that was held back for
  staging warnings activates the release without `--allow-warnings`, where
  `docs/operations/runbook.md:65-69` promises that warnings block it
  (`Gate.RevalidationForgetsWarnings`); `Maintenance.RevalidationOpensGate` is the exact
  condition.
- Activating another release of the family while a forced replacement of the active one
  is in flight makes its finalize abort at the unique index, exactly as
  `Continuity.FinalizeAborts` says: the row goes on claiming the old source while the new
  one's rows are served, and an import of the old source is skipped as unchanged
  (`Torn.AbortedFinalizeMisleads`).
- An infinite count, or a superscript digit as VSX variability flag, raises out of the
  parser and ends the import, where other bad lines are counted as malformed
  (`Parsers.RaisesExactly`).
- A newline in a file's name lets two different trees share one manifest text
  (`Manifest.NewlineInPathCollides`). Trees of newline-free names never do
  (`Manifest.ManifestIsInjective`), and which trees share theirs with some other one,
  newlines allowed, is exact in `Manifest.SharesTextExactly`.
- `skycat/registry/releases.py:4` says a release activates only from READY; the code,
  and the model, also accept SUPERSEDED.

## Model

| member | source | states |
|---|---|---|
| `Invariant.StepKeeps` | skycat/ingestion/runner.py:456-867 | every committed transaction, failure, crash and concurrent writer keeps the invariant: names and ids unique, one ACTIVE per family, `production_table` set exactly for built releases, each partition one whole build of the last source swapped in, rows describing it, and every operation in flight consistent with the store |
| `Invariant.Safety` | skycat/ingestion/runner.py:456-867 | the invariant holds after any interleaved sequence of steps |
| `Guarantees.RegistryAgreesWithDisk` | skycat/ingestion/runner.py:719-805 | in every reachable state `production_table` is set iff the state is READY, ACTIVE or SUPERSEDED; unless a removal is half done that partition is attached; and outside the swap-to-finalize window as well it came from the recorded checksum and holds the recorded number of rows |
| `Guarantees.OneActivePerFamily` | skycat/models/registry.py:89-94 | at most one ACTIVE release per family in every committed state of every interleaving |
| `Registry.ActivationAborts` | skycat/models/registry.py:89-94 | the index aborts an activation iff a row it updates is gone or the family holds an active release it did not see |
| `Registry.SerialActivationSucceeds` | skycat/registry/releases.py:115-131 | without interference neither flush of an activation meets the index, and the chosen release ends as the only active one |
| `Guarantees.LastIsLastSource` | skycat/ingestion/runner.py:719-731 | the history variable is the last source swapped into a partition over the run and not dropped since |
| `Guarantees.ParentHoldsLastSource` | skycat/ingestion/runner.py:567-731 | over any run the family parent holds for a release exactly the acceptable rows of the last source whose swap committed, none before the first swap or after the drop |
| `Guarantees.ProductionFrame` | skycat/ingestion/runner.py:620-731 | no step but a committing swap and a removal's drop changes any partition or what is attached |
| `Guarantees.SwapFrame` | skycat/ingestion/runner.py:216-232 | a swap touches its own partition and no other |
| `Guarantees.FailureFrame` | skycat/ingestion/runner.py:351-373 | up to its swap an attempt rewrites no existing release row, except that the recorder notes the error and, only when nothing was built, sets FAILED |
| `Guarantees.FailedAttemptsKeepRows` | skycat/ingestion/runner.py:846-867 | any number of interleaved attempts that never reach their swap leave every release row as it was, failure notes aside |
| `Guarantees.FailedAttemptsKeepProduction` | skycat/ingestion/runner.py:846-867 | and leave every partition and attachment as it was |
| `Guarantees.RunsSettleOnce` | skycat/ingestion/runner.py:361-373 | over any run of the protocol an ingestion run leaves RUNNING at most once |
| `Guarantees.OrphanStaysRunning` | skycat/ingestion/runner.py:361-373 | a run that no operation owns is never written again while its release exists |
| `Guarantees.LosingOrphans` | skycat/ingestion/runner.py:555-557 | a crash of an import, or a failure before it reads its run's id, leaves the run with no owner |
| `History.NoSourceExactly` | skycat/ingestion/runner.py:719-731 | nothing is behind a table iff nothing was ever swapped in or a removal dropped it after the last swap |
| `History.NamedWasSwapped` | skycat/ingestion/runner.py:750-780 | over any run a table that a release row names has been swapped in |
| `History.ValidationIsLastVerdict` | skycat/ingestion/maintenance.py:185-199 | over any run the stored status is the last finalize's until a revalidation commits, then the revalidation's until the next finalize |
| `Soundness.BuiltMeansValidated` | skycat/registry/releases.py:103-113 | over every run no release row carries a failed validation, and one that is active or can be activated was validated, has its table and serves rows; so, as docs/reference/architecture.md:147 says, failed and incomplete releases never activate |
| `Soundness.SkipNeverRefuses` | skycat/ingestion/runner.py:490-492 | the skip path's "validation failed" branch is dead in every reachable state, so with nothing going wrong around it an import raises iff it is refused or its source fails validation |
| `Soundness.NoRowsExactly` | skycat/ingestion/runner.py:674-702 | over every run the parent holds no row for a release iff no partition of it is attached |
| `Guarantees.FinalizedMayActivate` | skycat/ingestion/runner.py:807-824 | in every interleaving a finalized attempt has passed validation, so its "validation failed" branch is dead; it fails to decide only if its release was removed, and turns to activation iff the release is there and not active, activation was asked, it was not active at the start, and it passed without warnings or warnings were allowed |
| `Guarantees.SkipIsHonest` | skycat/ingestion/runner.py:469-515 | when the unchanged-checksum path is taken the attached partition is a whole build of a source with that checksum, and the call writes nothing |
| `Guarantees.ClaimStands` | skycat/ingestion/runner.py:475-480 | a release stops claiming a checksum exactly when another source is finalized for it or its row is deleted |
| `Guarantees.SkipPersists` | skycat/ingestion/runner.py:475-480 | until one of those two commits, every later import of the same source without replace takes the skip path |
| `Continuity.StepContinuity` | skycat/ingestion/runner.py:773-824 | a family with an active release loses it iff the step is one of three commits: a deactivation, the deletion of a row that is active then, the finalize of an import that read its now active release as inactive |
| `Continuity.NewlyActive` | skycat/ingestion/runner.py:776-824 | in every interleaving a release becomes active by exactly two commits: an activation of it, and the finalize of an import that had read it as active and found it deactivated |
| `Continuity.OnlyActivationTakesOver` | skycat/registry/releases.py:123-131 | while the family has an active release only an activation commit makes another one active |
| `Continuity.ActiveContinuity` | skycat/ingestion/runner.py:517-521 | over every run from the empty catalog in which nobody, in this family, deactivates, forces a removal or activates a release under import or removal: once there is an active release every later state has one, whatever was in flight at its first activation |
| `Continuity.FinalizeAborts` | skycat/ingestion/runner.py:773-805 | the index aborts a finalize whose rows are there iff the import had read its release as active and another of the family is active by then |
| `Races.ActivationDuringImportLosesActive` | skycat/ingestion/runner.py:776-780 | a run from the empty catalog, with the shipped VSX release, that loses the active release although nobody deactivated or removed anything |
| `Races.UnforcedRemovalDropsActive` | skycat/ingestion/maintenance.py:94-128 | a run, with the shipped VSX release, in which a removal without force deletes the active release and its partition |
| `Races.FinalizeUndoesDeactivation` | skycat/ingestion/runner.py:776-780 | a run in which a finalize makes a deactivated release active again, its warnings never allowed |
| `Races.RemovalLeavesPartition` | skycat/ingestion/maintenance.py:98-128 | a run in which a removal succeeds and the partition, with its rows, stays in the family parent |
| `Races.LostRunIsLeftRunning` | skycat/ingestion/runner.py:555-557 | a run in which the recorder notes the failure and the booked run is left RUNNING with no operation to settle it |
| `Torn.AbortedFinalizeMisleads` | skycat/ingestion/runner.py:773-805 | a run, with the two shipped Landolt releases, that ends with the old checksum over the new rows and the old source skipped as unchanged |
| `Gate.RevalidationForgetsWarnings` | skycat/ingestion/runner.py:490-505 | a run, with the shipped Landolt 1992 release, that ends READY with staging warnings; the request repeated does nothing; after a revalidation the same request activates |
| `StaleReads.InvalidationUndone` | skycat/client.py:136-153 | a run in which, after an invalidation, the cache holds a release that is no longer active |
| `StaleReads.OldAnswerServedLate` | skycat/client.py:136-145 | a run in which a query a full TTL after the deactivation is given the deactivated release |
| `StaleReads.InvalidationMissesSpelling` | skycat/client.py:147-153 | a run in which a release cached under "VSX" is still served after "vsx" was invalidated |
| `StaleReads.RemovalMidwayAnswersEmpty` | skycat/ingestion/maintenance.py:102-128 | a run in which a default query passes its recheck and answers nothing, between the two transactions of a removal |
| `Runs.ImportRun` | skycat/ingestion/runner.py:456-829 | for every request whose source passes and that does not activate, the clean import from the empty catalog ends in one stated world |
| `Validation.SummarizeAppend` | skycat/validation/common.py:39-44 | the summary of two lists of checks is the worse of their summaries |
| `Validation.RejectionIsFirstMatch` | skycat/validation/common.py:55-87 | the guarded updates give each row the first reason that applies; per-reason counts sum to the rejected count; re-running changes nothing |
| `Validation.MarkCommonIdempotent` | skycat/validation/common.py:55-87 | re-running the pass over any table it has marked changes nothing |
| `Validation.StageConserves` | skycat/ingestion/runner.py:567-615 | whenever Phase A passes, production receives exactly the acceptable rows and parsed = imported + rejected, for Stetson because its later, uncounted rejection pass must then be empty |
| `Validation.RevalidationPasses` | skycat/ingestion/maintenance.py:159-182 | every row a runner puts in production has an id and valid coordinates, so the range checks of a revalidation find nothing and never change its status |
| `Verdicts.AcceptableExactly` | skycat/validation/common.py:55-87 | a row reaches production iff it has an id and a position on the sphere |
| `Verdicts.RangeFailsExactly` | skycat/ingestion/maintenance.py:159-182 | the range checks of a revalidation fail a partition iff it holds a row off the sphere, and never warn |
| `Verdicts.CommonChecksMean` | skycat/validation/common.py:51-97 | the five checks recorded about any rows, with their levels, said of the rows: ids, ranges, at most a fifth rejected, something left |
| `Verdicts.ProductionChecksMean` | skycat/validation/common.py:121-142 | the checks recorded about a built table: rows, index, and nine tenths, rounded down, of a number expected that is not 0 |
| `Verdicts.StagingFailsExactly` | skycat/ingestion/runner.py:595-615 | staging fails iff a row has no id, an otherwise good Stetson row has no cluster, or a critical check of the family's own fails |
| `Verdicts.SourcePassesExactly` | skycat/ingestion/runner.py:567-702 | a source passes iff every row has an id, every good Stetson row a cluster, some row is good, the index was built and no critical check of the family's own fails |
| `Verdicts.DoomedExactly` | skycat/ingestion/runner.py:481-702 | with nothing going wrong around it an import of a new source raises iff it would replace an active release without both flags or its source does not pass, said of its rows |
| `Verdicts.StatusExactly` | skycat/ingestion/runner.py:599-702 | a source that passes does so with warnings iff some row is out of range, a warning of the family's own fails, or fewer rows are built than nine tenths of those expected, rounded down |
| `StagingTable.StageTable.CopyRows` | skycat/ingestion/copy_loader.py:54-75 | the loop stages every row once, unmarked and in order, and counts them |
| `StagingTable.StageTable.ValidateCommon` | skycat/validation/common.py:51-97 | the updates in sequence mark the table as specified; each check, though counted between updates, agrees with the finished table; valid + rejected = rows |
| `StagingTable.StageTable.Load` | skycat/ingestion/runner.py:567-607 | Phase A, the families' passes included, computes the specified table, checks and rejected count |
| `Importer.Catalog.DropExistingPartition` | skycat/ingestion/runner.py:158-175 | the partition is gone from schema and parent whether or not it was attached; nothing else moves |
| `Importer.Catalog.SwapTransaction` | skycat/ingestion/runner.py:218-232 | a swap that meets no fault swaps; one that meets a fault before any statement leaves every table and attachment as it was |
| `Importer.Catalog.SwapPartitionWithRetries` | skycat/ingestion/runner.py:216-264 | at most max(1, max_attempts) attempts, all but the last timed out; n attempts sleep b(2^(n-1) - 1); it succeeds iff the last attempt met no fault, and then is the protocol's swap, otherwise a raise that changes no table |
| `Importer.ShippedSchedule` | skycat/ingestion/runner.py:94-95 | as shipped, three attempts and three quarters of a second of waiting between them |
| `Importer.Catalog.Book` | skycat/ingestion/runner.py:458-556 | lookup or creation, skip test, ACTIVE guard and run row in the order of the code, with the state each exit leaves; the call is the protocol's first step |
| `Importer.Catalog.LoseRunAndFail` | skycat/ingestion/runner.py:555-557 | a failure between that commit and the read of the run's id is recorded on the release and leaves the run RUNNING |
| `Importer.Catalog.PhaseA` | skycat/ingestion/runner.py:566-615 | staging commits even when its validation fails, and the attempt goes on iff it did not fail |
| `Importer.Catalog.PhaseB1` | skycat/ingestion/runner.py:648-702 | the build replaces a leftover one and commits iff production validation does not fail; otherwise even the dropped leftover is restored |
| `Importer.Catalog.FinalizeRelease` | skycat/ingestion/runner.py:750-805 | release and run rows are written together, or not at all when a row is gone or the index forbids it |
| `Importer.Catalog.ActivateRelease` | skycat/registry/releases.py:115-131 | the two flushes in order commit exactly the specified activation and never meet the index |
| `Importer.Catalog.RecordFailure` | skycat/ingestion/runner.py:309-373 | the error is noted on the release of this name and a running run is failed; a broken recorder changes nothing |
| `Importer.Catalog.SkipImport` | skycat/ingestion/runner.py:481-515 | a skip ends active iff the release was active, or activation was asked and its stored validation neither failed nor, unless warnings are allowed, warned; it raises where the request asks to activate a failed one, and writes only the state of releases |
| `Importer.Catalog.RunImport` | skycat/ingestion/runner.py:559-867 | from the booked run to its end the attempt is a run of the protocol; without outside faults it raises iff validation fails the source; a failure before the swap leaves the error on the release and a FAILED run, or a RUNNING one if its id was never read |
| `Importer.Catalog.ImportRelease` | skycat/ingestion/runner.py:456-867 | whatever faults it meets: a raise before the swap leaves production and registry as they were; a skip changes no table and no run; a success leaves parsed = loaded = imported + rejected, a row describing the source, a SUCCEEDED run and exactly the acceptable rows served, and its release is active iff it was before, or activation was asked and it passed without warnings or with warnings allowed; with no faults it raises iff refused or invalid |
| `Maintenance.ActivateCommand` | skycat/registry/releases.py:99-131 | activation succeeds iff the release is built; then it is its family's only active release, the previous one is SUPERSEDED, every other row is unchanged |
| `Maintenance.DeactivateCommand` | skycat/registry/releases.py:134-139 | an active release becomes SUPERSEDED and keeps the rest of its row; any other is left as it is, and no other row changes |
| `Maintenance.RemoveRelease` | skycat/ingestion/maintenance.py:90-128 | an active release is removed only by force; removal is the protocol's run of its two transactions and keeps the invariant |
| `Maintenance.RemovalReach` | skycat/ingestion/maintenance.py:98-128 | the parent then serves nothing for the release iff its row named a table (else what it served before), and every other release's rows stay |
| `Maintenance.RevalidationStatus` | skycat/ingestion/maintenance.py:155-183 | on a settled release the status is that of the production checks with the index present: the range checks cannot fail |
| `Maintenance.RevalidationOpensGate` | skycat/ingestion/runner.py:490-505 | a request held back for staging warnings activates the release after a revalidation iff the production checks alone raise no warning |
| `Maintenance.RevalidateRelease` | skycat/ingestion/maintenance.py:134-202 | works iff the release is built, rewrites nothing but the validation status, and gives it that value |
| `Reader.RecheckIsExact` | skycat/query/cone.py:220-249 | a default query's recheck succeeds iff the registry holds the release, under the names cached, as the family's active one, and no other release of the family is active then |
| `Reader.ResolveIsExact` | skycat/query/cone.py:277-297 | a lookup succeeds iff the family is known and a built release was found, for a default query the active one; it carries the registry's names, and an immediate recheck accepts it |
| `Reader.NamedLookup` | skycat/registry/releases.py:57-70 | a lookup by name finds a release of the family whose registry name or version is that up to case; a release by its own name when no other is called so; and nothing iff none is |
| `Reader.LowerExactly` | skycat/registry/releases.py:64-68 | two names are one up to case iff they agree letter by letter but for the case of A to Z |
| `Reader.FamiliesExactly` | skycat/registry/catalog_defs.py:190-191 | the four families are known by their slugs in any case, and nothing else is |
| `Reader.ShippedVersions` | skycat/registry/catalog_defs.py:69-174 | the versions the six shipped releases are registered with |
| `Reader.NamedRecheckIsExact` | skycat/query/cone.py:220-249 | the recheck of a query by name succeeds iff the registry holds the release, built, under the names it was found by |
| `Reader.ReadersChangeNothing` | skycat/client.py:128-160 | with any threads interleaved the catalog goes through exactly the writers' steps |
| `Reader.Origins` | skycat/client.py:128-145 | every cache entry was read from the registry as active before it was published and expires one TTL after that; every query in progress has the origin its phase promises |
| `Reader.CachedWasActive` | skycat/client.py:128-145 | whatever the cache holds was its family's active release when it was looked up, before it was published, and expires one TTL after that |
| `Reader.DefaultQueryUsesActive` | skycat/query/cone.py:341-355 | however stale the cache, a default query that reaches its SELECT uses a release the registry held as ACTIVE with its partition and names at that query's own recheck, or at its own lookup when it has no reader |
| `Reader.QueryUsesAsked` | skycat/client.py:155-160 | over any run of threads and writers, what reaches its SELECT was asked for: a built release, at the query's own recheck, of the family asked for; by default active, by name called so up to case |
| `Reader.AnswersAreWhole` | skycat/ingestion/runner.py:220-232 | every answer is drawn from one whole import, the last swapped in when the SELECT ran, or from nothing once the partition is dropped |
| `Reader.InvalidationSticks` | skycat/client.py:136-153 | after invalidating, everything ever cached for the family was read afterwards, iff no thread was then between its registry read and its cache write |
| `Reader.OldAnswerReturns` | skycat/client.py:136-145 | such a thread puts its old answer back after the invalidation |
| `Reader.PickedUpWithinTtl` | skycat/client.py:128-145 | once a TTL has passed since any moment, cache hits were published after it, and read after it too unless a thread was between read and write at that moment |
| `Reader.PickedUpExactly` | skycat/client.py:128-145 | every cache hit from one TTL after a moment on was read after it, whatever happens, iff no thread is at that moment between read and write (or the TTL is not positive) |
| `Reader.OldAnswerOutlivesTtl` | skycat/client.py:136-145 | such a thread can make its old answer a cache hit a whole TTL later |
| `Reader.EmptyOnlyAfterDrop` | skycat/query/cone.py:341-372 | a default query is answered from no rows iff a removal dropped the partition before its SELECT and after the last swap; that is also when the SELECT finds no partition |
| `Reader.InvalidationIsPerSpelling` | skycat/client.py:147-153 | invalidating one spelling clears a family from the cache iff nothing of it is cached under another |
| `Reader.CatalogReader.ActiveRelease` | skycat/client.py:128-145 | an unexpired entry is returned and the cache left alone; otherwise the registry answers, and only a successful answer is cached, for one TTL from the later clock reading |
| `Reader.CatalogReader.InvalidateCache` | skycat/client.py:147-153 | the named entry, or every entry, is gone, so the next lookup misses; every other entry is as it was |
| `Reader.CatalogReader.Query` | skycat/client.py:155-201 | over three snapshots with anything between them, a default query answers only with the rows of a release that the second held as active, a query by name only with those of one called so up to case, and with no release if none is called so; it reports a vanished, mismatched or inactive release by default only for a cached one that is not held |
| `Cone.BuildStatement` | skycat/query/cone.py:333-370 | a statement is built iff the request is acceptable (centre, limit, magnitude column, each filter's column, operator and value type, a numeric order column), and its conditions keep exactly the rows the request wants, NULL and NaN included |
| `Cone.ConeServesLastImport` | skycat/query/cone.py:350-372 | over any run, a cone search on a release returns the filter, sort and cut of the acceptable rows parsed from the last source swapped in for it |
| `Cone.DefaultConeIsCurrent` | skycat/query/cone.py:341-372 | the same through a shared cached reader: the release was active at the query's recheck and the answer comes from the one import served when the SELECT ran |
| `Cone.AnswersAreWanted` | skycat/query/cone.py:350-372 | over any run, every row answered was parsed from the import being served, has an id and a position on the sphere, lies in the radius and meets every condition; and as many of the rows that do are answered as there are, or the limit |
| `Cone.NearestAreKept` | skycat/query/cone.py:367-370 | over any run and without an order asked for, separations ascend and no wanted row left out is nearer than one kept |
| `Cone.BrightestAreKept` | skycat/query/cone.py:149-167 | over any run and under an order asked for, values ascend, numbers before NaNs before NULLs, ties by separation, and no wanted row left out belongs before one kept |
| `Cone.ComparisonsMean` | skycat/query/cone.py:36-44 | what each of the six comparisons means of numbers, strings, flags and NaNs, and that NULL meets none |
| `Cone.CellsMean` | skycat/query/cone.py:350-366 | what stands in a row's position, id, cluster and other columns, NULL where there is nothing |
| `Cone.ComparableExactly` | skycat/query/cone.py:60-90 | which values a column of each type may be compared with |
| `Cone.BoundsMean` | skycat/query/cone.py:359-366 | a named magnitude keeps a row iff its value is there and within the bounds; with none or an empty name the bounds do not apply |
| `Cone.AnswerExists` | skycat/query/cone.py:352-372 | some answer meets the description of any statement over any rows |
| `Crossmatch.CollectInputs` | skycat/query/crossmatch.py:95-123 | fails iff some coordinate is not a number, naming the first; otherwise usable inputs and the ids of the others are kept in order, none lost |
| `Crossmatch.MergeSkipped` | skycat/query/crossmatch.py:160-171 | the result holds the statement's rows and one unmatched row for each skipped input, sorted by id, each id's rows in the order they had with the unmatched ones behind; with nothing skipped the statement's own order stands |
| `Crossmatch.MergeKeepsOrder` | skycat/query/crossmatch.py:148-170 | any such merge of ordered rows is sorted on (`input_id`, separation, NULLS LAST) |
| `Crossmatch.CrossmatchCorrect` | skycat/query/crossmatch.py:132-171 | the result is exactly what the inputs are owed: min(k, candidates) nearest rows in the radius or one unmatched row for a usable input, one unmatched row for any other, duplicates included; and it is in order |
| `Crossmatch.BatchCrossmatch` | skycat/query/crossmatch.py:67-171 | the call returns that result iff every coordinate is a number, for every tie-breaking of the database |
| `Crossmatch.OwedMeans` | skycat/query/crossmatch.py:130-171 | an input on the sphere is owed the catalog rows in its radius, all or k, each at its distance, nearest first, none twice that is there once, none left out that is nearer; any other input, or one with nothing in its radius, one unmatched row |
| `Crossmatch.OrderMeans` | skycat/query/crossmatch.py:148-170 | results stand by id letter by letter, for one id by separation, unmatched rows last |
| `Crossmatch.CrossmatchServesLastImport` | skycat/query/crossmatch.py:139-149 | over any run, the matches are those owed from the acceptable rows of the last source swapped in for the release |
| `Crossmatch.DefaultCrossmatchIsCurrent` | skycat/query/crossmatch.py:70-171 | the same through a shared cached reader: the release was active at the recheck and the candidates come from the one import served when the statement ran |
| `Crossmatch.SqlAnswerExists` | skycat/query/crossmatch.py:132-149 | for any catalog and inputs some answer meets the description of the statement |
| `Manifest.ManifestReadsBack` | skycat/ingestion/discovery.py:72-78 | reading the text by lines, and each line from its right end, recovers the entries iff no path holds a newline, colons and negative times included |
| `Manifest.ManifestIsInjective` | skycat/ingestion/discovery.py:72-78 | newline-free entry lists with the same text are the same |
| `Manifest.SharesTextExactly` | skycat/ingestion/discovery.py:72-78 | a list of files shares its text with some other list iff it holds two files or more, or its one file's name begins with a manifest line and a newline |
| `Manifest.EveryTreeHasADouble` | skycat/ingestion/discovery.py:72-78 | every listing of two files or more, in path order, has the text of another such listing |
| `Manifest.NewlineJoinsLines` | skycat/ingestion/discovery.py:74-77 | for any two files there is a third, with a newline in its name, that has the manifest text of both |
| `Manifest.NewlineInPathCollides` | skycat/ingestion/discovery.py:74-77 | two different trees, of names the shipped DR10 release matches, have one manifest text |
| `Manifest.Scan` | skycat/ingestion/discovery.py:94-111 | finds each regular file some pattern matches, once |
| `Manifest.ComputeManifest` | skycat/ingestion/discovery.py:72-78 | feeds the hash the manifest text, line by line in path order |
| `Manifest.ManifestIdentifiesTree` | skycat/ingestion/discovery.py:72-78 | two scans of newline-free names have the same manifest text iff they are of the same files with the same sizes and the same times to the second, in whatever order they list them |
| `Manifest.SecondsAre` | skycat/ingestion/discovery.py:76 | two times are the same second iff they have one floor from the epoch on, mirrored before it; the second on either side of the epoch is one |
| `Manifest.ManifestInPathOrder` | skycat/ingestion/discovery.py:74-77 | the text is one line per file, with its size and the second it was modified, in strict path order |
| `Manifest.ManifestIgnoresOverlap` | skycat/ingestion/discovery.py:94-111 | patterns matching the same files give the same manifest text, whatever their order and overlap |
| `Manifest.ComputeContent` | skycat/ingestion/discovery.py:81-91 | the content stream does not depend on the chunk size |
| `Naming.NamesNeverCollide` | skycat/ingestion/runner.py:154-155 | partition and incoming table names of different releases or families differ |
| `Naming.NamesRead` | skycat/ingestion/runner.py:154-155 | how a release's tables are called |
| `Naming.NoNameIsAParent` | skycat/ingestion/runner.py:623-625 | none of them is a family's parent table |
| `FixedWidth.LayoutsOk` | skycat/ingestion/parsers/landolt.py:126-159 | in the three layouts fields are ordered and disjoint, the sign byte lies in none, and the length guard ends with the position |
| `FixedWidth.GuardCoversPosition` | skycat/ingestion/parsers/landolt.py:87-89 | a line passes the guard iff it holds every byte of every position field, and then its sign byte |
| `FixedWidth.RecordRoundTrip` | skycat/ingestion/parsers/landolt.py:49-51 | rendering trimmed, fitting fields anywhere in their ranges and slicing the line returns every field |
| `FixedWidth.RenderSliceRoundTrip` | skycat/ingestion/parsers/vsx.py:46-48 | the same field by field, and the sign is at the sign byte |
| `Sexagesimal.RaIsMonotone` | skycat/ingestion/parsers/landolt.py:68-74 | on in-range fields right ascension is in [0, 360), strictly monotone in (h, m, s) and injective |
| `Sexagesimal.DecIsSigned` | skycat/ingestion/parsers/landolt.py:71-77 | on in-range fields declination is in [-90, 90], negates under the sign even for 00 degrees, and is injective except at zero |
| `Sexagesimal.UnitsAdd` | skycat/ingestion/parsers/landolt.py:74-76 | what an hour, a degree, a minute and a second each add, from zero, under either sign |
| `Sexagesimal.FieldsExactly` | skycat/ingestion/parsers/landolt.py:66-77 | fields are in range iff minutes and seconds are sixtieths and the position they make is on the sphere |
| `Sexagesimal.CoordsExactly` | skycat/ingestion/parsers/landolt.py:66-77 | a position is read iff its six fields are, each coordinate finite iff its seconds are |
| `Sexagesimal.RoutinesAgree` | skycat/ingestion/parsers/stetson.py:57-66 | the Stetson and Landolt routines give the same position, or the same error, for the same fields |
| `Sexagesimal.InRangeIsAccepted` | skycat/ingestion/parsers/landolt.py:66-77 | a position with in-range fields is never rejected for its coordinates |
| `Parsers.OnlyTheseAreSkipped` | skycat/ingestion/parsers/apass.py:128-156 | which lines go uncounted, format by format: blank lines, DR6 comments, and in DR10 `APASS` lines and a non-digit first line |
| `Parsers.SpacesAreMalformedInDr6` | skycat/ingestion/parsers/apass.py:61-67 | a blank DR6 line is skipped only if it is empty; whitespace counts as malformed |
| `Parsers.RaisesExactly` | skycat/ingestion/parsers/base.py:65-75 | a line neither skipped nor malformed raises iff a count is spelled as an infinity or its VSX flag is a superscript digit; otherwise it yields a row |
| `Parsers.SuperscriptFlagRaises` | skycat/ingestion/parsers/vsx.py:76-77 | an otherwise good VSX record with a superscript two as flag raises |
| `Parsers.InfiniteCountRaises` | skycat/ingestion/parsers/base.py:69-75 | an otherwise good Landolt record with `inf` observations raises |
| `Parsers.NullExactly` | skycat/ingestion/parsers/base.py:47-62 | a cell is NULL iff it is blank, unreadable or, in a sentinel column, from 90 up; otherwise it is the number read |
| `Parsers.ValuesComeFromCells` | skycat/ingestion/parsers/apass.py:75-125 | a parsed row has exactly the columns of its format's table, each read from the cell it names |
| `Records.ColumnsAsDocumented` | skycat/ingestion/parsers/vsx.py:3-31 | a parsed row has exactly the columns its format documents, each read from its documented bytes, word or cell |
| `Records.KindsMean` | skycat/ingestion/parsers/base.py:47-75 | how each kind of column is read: numbers as `float` reads them, magnitudes below 90, counts as integers or floats cut toward zero, text stripped, anything else NULL |
| `Records.Dr6Line` | skycat/ingestion/parsers/apass.py:59-91 | what a DR6 line of any words in any spacing comes to: skipped, malformed, raising, or the star its first word names at the position of its second and fourth, accepted iff that is on the sphere |
| `Records.Dr10Line` | skycat/ingestion/parsers/apass.py:145-190 | the same for DR10, with its headers, its twenty-nine words and its eight counts |
| `Records.VsxLine` | skycat/ingestion/parsers/vsx.py:58-77 | what any VSX line comes to, by its bytes: the star of its OID at its RAdeg and DEdeg, or how it fails |
| `Records.VsxRecord` | skycat/ingestion/parsers/vsx.py:58-77 | the same for a rendered record, whatever its padding |
| `Records.VsxOwnColumns` | skycat/ingestion/parsers/vsx.py:64-97 | a VSX row holds its number, the digit at byte 41, and the minimum as an amplitude iff byte 117 is an opening parenthesis, else as a magnitude |
| `Records.Landolt1992Line` | skycat/ingestion/parsers/landolt.py:79-140 | what any line of the 1992 table comes to, by its bytes and its sign byte |
| `Records.Landolt2009Line` | skycat/ingestion/parsers/landolt.py:79-159 | the same for the 2009 table |
| `Records.StetsonLine` | skycat/ingestion/parsers/stetson.py:77-98 | what a line of cells joined by bars comes to: cluster, star number and position of a line of twenty-four, or how it fails |
| `Records.StetsonStarIsAccepted` | skycat/ingestion/parsers/stetson.py:57-98 | a Stetson line with a cluster, a number, in-range fields in any spacing and readable counts is parsed to the exact coordinates and never rejected |
| `Records.RaisesAsDocumented` | skycat/ingestion/parsers/base.py:65-75 | a line neither skipped nor malformed raises iff a count at its documented place is spelled as an infinity, or byte 41 of a VSX line is a superscript digit |
| `PythonText.SpacesExactly` | skycat/ingestion/parsers/base.py:53-54 | the characters of latin-1 that count as whitespace |
| `PythonText.SplitSpread` | skycat/ingestion/parsers/apass.py:64 | splitting gives the words back, whatever whitespace stands around them |
| `PythonText.EveryLineIsSpread` | skycat/ingestion/parsers/apass.py:64 | and every line is its words with whitespace around them |
| `PythonText.SplitOnJoin` | skycat/ingestion/parsers/stetson.py:80 | splitting on a bar undoes joining cells with it |
| `PythonText.EveryLineIsJoined` | skycat/ingestion/parsers/stetson.py:80 | and joining undoes splitting |
| `PythonText.IntExactly` | skycat/ingestion/parsers/base.py:69-70 | what `int` accepts: digits with single underscores between them, at most one sign, whitespace around |
| `PythonText.DigitsAppend` | skycat/ingestion/parsers/base.py:69-70 | what the digits are worth |
| `Parsers.EveryLineCounts` | skycat/ingestion/parsers/apass.py:145-171 | parsed + malformed + skipped = lines, for every format and list of files |
| `Parsers.ParseStats.RecordMalformed` | skycat/ingestion/parsers/base.py:24-29 | the examples are always the first twenty malformed lines, cut to 200 characters |
| `Parsers.IterRows` | skycat/ingestion/parsers/stetson.py:73-128 | over any files the statistics account for every line and the rows are those of the parsed lines in order; an uncaught exception stops at the first line that raises |
| `Parsers.LandoltReadsBack` | skycat/ingestion/parsers/landolt.py:79-123 | a rendered Landolt record is judged by its fields and sign alone |
| `Parsers.VsxReadsBack` | skycat/ingestion/parsers/vsx.py:55-111 | a rendered VSX record is judged by its fields alone |
| `Parsers.LandoltStarIsAccepted` | skycat/ingestion/parsers/landolt.py:79-123 | a Landolt record with a name, in-range fields and readable counts is parsed to the exact coordinates and never rejected |
| `Pipeline.EveryLineAccountedFor` | skycat/ingestion/runner.py:567-805 | after a successful import lines = skipped + malformed + rejected + rows served |
| `Pipeline.ServedRowsWereRead` | skycat/ingestion/runner.py:567-731 | every row served is what the parser made of some line, with an id and a position in range |
| `Pipeline.PositionsAgree` | skycat/query/crossmatch.py:115-123 | staging, crossmatch and cone search agree on which positions are on the sphere, so every row served is a usable input and an acceptable centre |

## Left out

- PostgreSQL, PostGIS, SQLAlchemy and psycopg: the store is abstract state, transactions are atomic, a statement's answer is a relation, and distance is a function of row and point used alike for radius, order and output.
- The index on the built table: one flag says a GiST index is present; rewriting the parent's index definitions is not modelled.
- Interleavings inside a session: the importer's first session (lookup, tests, run row), a finalize and the counts of a revalidation are one step each. Activations and deactivations are split into read and commit, and a revalidation into reading the row, counting and writing, because each relies on what it read earlier.
- Imports that die between swap and finalize, and half-done removals: they are steps of the protocol, but the agreement theorems exclude them and nothing claims them harmless.
- Two imports of one release in flight at once, and staging names that two release names could share: staging tables are keyed by family and release name.
- The rejects table, validation summaries, timestamps, hosts and other columns nothing decides on.
- Checks of the families that only count rows: they enter Phase A as an arbitrary list of further checks.
- COPY refusing a value the parser passed: a NaN bound for the JSON column (DR6 `(B-V)`, Stetson `Xpos`) is no JSON, and ends the import in the database; here it is one more failure of the staging step.
- Overflow of Python's numbers: a count of more than 4300 digits or a sexagesimal field of more than 308 raises in Python and is a large number here.
- Floating point: degrees, magnitudes and separations are exact reals, `float()` is a parameter giving an error, a finite number, an infinity or a NaN; an infinite magnitude is compared as NaN is.
- A magnitude bound on a column that is not numeric: the database refuses it; the model finds no such row.
- SHA-256: facts are about the text hashed; the content stream has no separators and no injectivity is claimed for it.
- UTF-8 and latin-1 decoding, splitting a file into lines, gzip: a path is a string and a file a list of lines.
- The failures of `import_release` before its first transaction (unknown family or release, missing source), health reports, command-line rendering, configuration, roles, migrations and the great-circle formula.
- The mapping of right ascension to PostGIS longitude and the other one-line spatial helpers.
- Importer.Catalog.ImportRelease: describes a call that no other session interferes with; interleavings are the protocol's, whose lemmas hold of its steps.
- Maintenance.ActivateCommand: likewise, as are the other commands of that module.
- Reader.CatalogReader.Query: the pooled engine and its lock are not modelled, version strings are those of the shipped releases, and only the letters A to Z have a case.
- Parsers.IterRows: the `release` tag and the passband names of the JSON column are constants and left out; its other keys are columns named `extra.`.
