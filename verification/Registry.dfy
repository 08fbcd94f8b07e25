/** The shared store: registry rows, ingestion runs, staging tables and the
    production schema, and the release lifecycle of `skycat/registry/releases.py`. */
module Registry {
  import opened Wrappers
  import opened Validation

  /** `StagingState` is the legacy value no code assigns any more. */
  datatype ReleaseState = Registered | StagingState | Ready | Active | Superseded | FailedImport

  datatype RunStatus = Running | Succeeded | FailedRun

  /** Family slug and registry name; unique among release rows. */
  datatype Key = Key(family: Family, name: string)

  /** A table of schema `catalog_data` other than a family parent. Module
      Naming shows that the strings these stand for never collide. */
  datatype TableName = Partition(family: Family, id: nat) | Incoming(family: Family, id: nat)

  /** `source` is the checksum of the tree the rows were read from. The database
      does not store it; it is the provenance the registry row claims. */
  datatype Table = Table(rows: seq<Row>, source: string, gist: bool)

  datatype Release = Release(
    key: Key,
    state: ReleaseState,
    checksum: Option<string>,
    parsed: Option<nat>,
    imported: Option<nat>,
    rejected: Option<nat>,
    expected: Option<nat>,
    table: Option<TableName>,
    validation: ValidationStatus,
    failure: Option<string>)

  datatype Run = Run(releaseId: nat, status: RunStatus, checksum: string)

  datatype Store = Store(
    releases: map<nat, Release>,
    runs: map<nat, Run>,
    staging: map<Key, seq<StagedRow>>,
    tables: map<TableName, Table>,
    attached: set<TableName>,
    lastRelease: nat,
    lastRun: nat)

  const EMPTY := Store(map[], map[], map[], map[], {}, 0, 0)

  predicate IsBuilt(state: ReleaseState) {
    state in {Ready, Active, Superseded}
  }

  function NewRelease(key: Key): Release {
    Release(key, Registered, None, None, None, None, None, None, NotRun, None)
  }

  /** The partial unique index `uq_active_release_per_family`. */
  predicate OneActive(releases: map<nat, Release>) {
    forall a, b | a in releases && b in releases && releases[a].state == releases[b].state == Active ::
      releases[a].key.family == releases[b].key.family ==> a == b
  }

  ghost predicate HasActive(releases: map<nat, Release>, family: Family) {
    exists id :: id in releases && releases[id].state == Active && releases[id].key.family == family
  }

  /** The rows the family parent returns for one release id: those of the list
      partition for that value, if one is attached. */
  function FamilyRows(store: Store, family: Family, id: nat): seq<Row> {
    var t := Partition(family, id);
    if t in store.attached && t in store.tables then store.tables[t].rows else []
  }

  /******* Activation *******/

  /** Does `current` answer "which release of this family is active?" in `releases`? */
  predicate IsCurrent(releases: map<nat, Release>, family: Family, current: Option<nat>) {
    match current
    case Some(c) => c in releases && releases[c].state == Active && releases[c].key.family == family
    case None => forall c :: c in releases && releases[c].key.family == family ==> releases[c].state != Active
  }

  /** The first flush of `activate_release`: the release seen active steps down. */
  function StepDown(releases: map<nat, Release>, id: nat, current: Option<nat>): map<nat, Release> {
    if current.Some? && current.value != id && current.value in releases
    then releases[current.value := releases[current.value].(state := Superseded)]
    else releases
  }

  /** The second flush: the chosen release steps up. */
  function StepUp(releases: map<nat, Release>, id: nat, current: Option<nat>): map<nat, Release>
    requires id in releases
  {
    var down := StepDown(releases, id, current);
    down[id := down[id].(state := Active)]
  }

  /** Both flushes are keyed updates; a vanished row or the unique index aborts them. */
  function CommitActivation(releases: map<nat, Release>, id: nat, current: Option<nat>): Option<map<nat, Release>> {
    if id !in releases || (current.Some? && current.value !in releases) then None
    else if OneActive(StepUp(releases, id, current)) then Some(StepUp(releases, id, current))
    else None
  }

  function CommitDeactivation(releases: map<nat, Release>, id: nat): Option<map<nat, Release>> {
    if id !in releases then None else Some(releases[id := releases[id].(state := Superseded)])
  }

  /** The index aborts an activation exactly when a row it updates is gone or the
      family holds an active release that the activation did not see. */
  lemma ActivationAborts(releases: map<nat, Release>, id: nat, current: Option<nat>)
    requires OneActive(releases)
    ensures CommitActivation(releases, id, current).None?
       <==> || id !in releases
            || (current.Some? && current.value !in releases)
            || (exists c :: c in releases && c != id && current != Some(c) && releases[c].state == Active
                  && releases[c].key.family == releases[id].key.family)
  {
    if id in releases && (current.Some? ==> current.value in releases) {
      var up := StepUp(releases, id, current);
      if c :| c in releases && c != id && current != Some(c) && releases[c].state == Active
              && releases[c].key.family == releases[id].key.family {
        assert up[c].state == Active && up[id].state == Active;
      } else {
        assert forall a :: a in up && a != id && up[a].state == Active ==>
            releases[a].state == Active && current != Some(a) && releases[a].key == up[a].key;
      }
    }
  }

  /** With no other writer between its read and its commit an activation never
      trips the index, not even between its two flushes, and leaves the chosen
      release as the family's only active one. */
  lemma SerialActivationSucceeds(releases: map<nat, Release>, id: nat, current: Option<nat>)
    requires OneActive(releases) && id in releases
    requires IsCurrent(releases, releases[id].key.family, current)
    ensures OneActive(StepDown(releases, id, current))
    ensures CommitActivation(releases, id, current) == Some(StepUp(releases, id, current))
    ensures var up := StepUp(releases, id, current);
            forall c :: c in up && up[c].key.family == releases[id].key.family ==> (up[c].state == Active <==> c == id)
  {
  }
}
