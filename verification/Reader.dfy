/** Readers: how a query finds its release, the cache of active releases that all
    threads of a process share, and what a query may rely on while writers and
    other readers run between any two of its steps.

    Models `skycat/client.py:128-160` and the release handling of
    `skycat/query/cone.py:170-297,341-372`. */
module Reader {
  import opened Wrappers
  import opened Validation
  import opened Registry
  import opened Protocol
  import opened Invariant
  import opened Guarantees
  import History
  import Soundness

  datatype Resolved = Resolved(slug: string, table: string, id: nat, name: string, state: ReleaseState)

  datatype QueryError =
    UnknownFamily | NoRelease | Vanished | Mismatch | NotActive | NotQueryable | NoPartition

  /******* Families and their names *******/

  function LowerChar(c: char): char {
    if 'A' <= c <= 'Z' then (c as int + 32) as char else c
  }

  function Lower(s: string): string {
    seq(|s|, i requires 0 <= i < |s| => LowerChar(s[i]))
  }

  function FamilyOf(slug: string): Option<Family> {
    var s := Lower(slug);
    if s == "apass" then Some(Apass)
    else if s == "vsx" then Some(Vsx)
    else if s == "landolt" then Some(Landolt)
    else if s == "stetson" then Some(Stetson)
    else None
  }

  function FamilySlug(family: Family): string {
    match family
    case Apass => "apass"
    case Vsx => "vsx"
    case Landolt => "landolt"
    case Stetson => "stetson"
  }

  function DataTable(family: Family): string {
    FamilySlug(family) + "_source"
  }

  function TableFamily(table: string): Option<Family> {
    if table == DataTable(Apass) then Some(Apass)
    else if table == DataTable(Vsx) then Some(Vsx)
    else if table == DataTable(Landolt) then Some(Landolt)
    else if table == DataTable(Stetson) then Some(Stetson)
    else None
  }

  /** The version a shipped release is registered with. */
  function VersionOf(key: Key): string {
    if key.name == "DR6" then "6"
    else if key.name == "DR10" then "10"
    else if key.name == "StetsonGlobs" then "2019"
    else key.name
  }

  predicate SameLetter(c: char, d: char) {
    c == d || ('A' <= c <= 'Z' && d as int == c as int + 32) || ('A' <= d <= 'Z' && c as int == d as int + 32)
  }

  predicate EqualIgnoringCase(a: string, b: string) {
    |a| == |b| && forall i :: 0 <= i < |a| ==> SameLetter(a[i], b[i])
  }

  lemma LowerExactly(a: string, b: string)
    ensures Lower(a) == Lower(b) <==> EqualIgnoringCase(a, b)
  {
    if Lower(a) == Lower(b) {
      assert |Lower(a)| == |Lower(b)|;
      forall i | 0 <= i < |a| ensures SameLetter(a[i], b[i]) {
        assert Lower(a)[i] == Lower(b)[i];
      }
    }
  }

  lemma LowerAlready(s: string)
    requires forall i :: 0 <= i < |s| ==> !('A' <= s[i] <= 'Z')
    ensures Lower(s) == s
  {
  }

  /** Four families, called by their slugs in any case. */
  lemma FamiliesExactly(slug: string)
    ensures FamilyOf(slug) == Some(Apass) <==> EqualIgnoringCase(slug, "apass")
    ensures FamilyOf(slug) == Some(Vsx) <==> EqualIgnoringCase(slug, "vsx")
    ensures FamilyOf(slug) == Some(Landolt) <==> EqualIgnoringCase(slug, "landolt")
    ensures FamilyOf(slug) == Some(Stetson) <==> EqualIgnoringCase(slug, "stetson")
  {
    LowerAlready("apass");
    LowerAlready("vsx");
    LowerAlready("landolt");
    LowerAlready("stetson");
    hide Lower, EqualIgnoringCase;
    LowerExactly(slug, "apass");
    LowerExactly(slug, "vsx");
    LowerExactly(slug, "landolt");
    LowerExactly(slug, "stetson");
    assert |"apass"| == 5 && |"vsx"| == 3 && "landolt"[0] != "stetson"[0];
  }

  /** The shipped releases: two are registered under a number as version, one under a year,
      and the others under their name. */
  lemma ShippedVersions()
    ensures VersionOf(Key(Apass, "DR6")) == "6" && VersionOf(Key(Apass, "DR10")) == "10"
    ensures VersionOf(Key(Vsx, "current")) == "current"
    ensures VersionOf(Key(Landolt, "1992")) == "1992" && VersionOf(Key(Landolt, "2009")) == "2009"
    ensures VersionOf(Key(Stetson, "StetsonGlobs")) == "2019"
  {
  }

  lemma FamilyNames(family: Family)
    ensures FamilyOf(FamilySlug(family)) == Some(family)
    ensures TableFamily(DataTable(family)) == Some(family)
  {
    assert Lower(FamilySlug(family)) == FamilySlug(family);
    assert |DataTable(Landolt)| == |DataTable(Stetson)| == 14 && |DataTable(Apass)| == 12 && |DataTable(Vsx)| == 10;
    assert DataTable(Landolt)[0] == 'l' && DataTable(Stetson)[0] == 's';
  }

  /******* Resolving and rechecking *******/

  predicate Matches(r: Release, family: Family, name: string) {
    r.key.family == family && (Lower(r.key.name) == Lower(name) || Lower(VersionOf(r.key)) == Lower(name))
  }

  /** Is `found` what the registry lookup returns for this reference? An empty
      reference means the active release. */
  predicate Finds(releases: map<nat, Release>, family: Family, reference: Option<string>, found: Option<nat>) {
    if reference.None? || reference.value == "" then IsCurrent(releases, family, found)
    else match found
      case Some(id) => id in releases && Matches(releases[id], family, reference.value)
      case None => forall id :: id in releases ==> !Matches(releases[id], family, reference.value)
  }

  /** Called so: by its registry name or by its version, in any case. */
  predicate Bears(key: Key, name: string) {
    EqualIgnoringCase(key.name, name) || EqualIgnoringCase(VersionOf(key), name)
  }

  /** A lookup by name finds a release of the family that is called so, whichever it is if
      there are several; a release by its own name when no other is called so; and nothing
      exactly when none is. */
  lemma NamedLookup(releases: map<nat, Release>, family: Family, name: string, found: Option<nat>)
    requires name != "" && Finds(releases, family, Some(name), found)
    ensures found.Some? ==>
              found.value in releases && releases[found.value].key.family == family && Bears(releases[found.value].key, name)
    ensures found.None? <==> forall id :: id in releases && releases[id].key.family == family ==> !Bears(releases[id].key, name)
    ensures forall id :: id in releases && releases[id].key.family == family && Bears(releases[id].key, name)
                    && (forall other :: other in releases && other != id && releases[other].key.family == family ==>
                          !Bears(releases[other].key, name))
                    ==> found == Some(id)
  {
    forall id | id in releases
      ensures Matches(releases[id], family, name) <==> releases[id].key.family == family && Bears(releases[id].key, name)
    {
      LowerExactly(releases[id].key.name, name);
      LowerExactly(VersionOf(releases[id].key), name);
    }
    hide Matches, Bears;
  }

  function ResolvedFrom(slug: string, table: string, id: nat, r: Release, requireActive: bool): Result<Resolved, QueryError> {
    if requireActive && r.state != Active then Err(NotActive)
    else if !IsBuilt(r.state) then Err(NotQueryable)
    else if r.table.None? then Err(NoPartition)
    else Ok(Resolved(slug, table, id, r.key.name, r.state))
  }

  function ResolveForQuery(store: Store, slug: string, reference: Option<string>, found: Option<nat>): Result<Resolved, QueryError>
    requires FamilyOf(slug).Some? ==> Finds(store.releases, FamilyOf(slug).value, reference, found)
  {
    if FamilyOf(slug).None? then Err(UnknownFamily)
    else if found.None? then Err(NoRelease)
    else ResolvedFrom(slug, DataTable(FamilyOf(slug).value), found.value, store.releases[found.value], reference.None?)
  }

  /** `validate_resolved_release_for_query`: the registry is asked again. */
  function Recheck(store: Store, resolved: Resolved, requireActive: bool): Result<Resolved, QueryError> {
    var family := FamilyOf(resolved.slug);
    if family.None? || resolved.id !in store.releases || store.releases[resolved.id].key.family != family.value then Err(Vanished)
    else
      var r := store.releases[resolved.id];
      if r.key.name != resolved.name || DataTable(family.value) != resolved.table then Err(Mismatch)
      else ResolvedFrom(FamilySlug(family.value), DataTable(family.value), resolved.id, r, requireActive)
  }

  /** The rows the data SELECT ranges over. */
  function ParentRows(store: Store, resolved: Resolved): seq<Row> {
    match TableFamily(resolved.table)
    case Some(family) => FamilyRows(store, family, resolved.id)
    case None => []
  }

  /** Does the registry hold this release as active, built and under these names? */
  predicate HeldActive(store: Store, resolved: Resolved) {
    && FamilyOf(resolved.slug).Some?
    && resolved.id in store.releases
    && var r := store.releases[resolved.id];
       var family := FamilyOf(resolved.slug).value;
       && r.key == Key(family, resolved.name)
       && resolved.table == DataTable(family)
       && r.state == Active
       && r.table == Some(Partition(family, resolved.id))
  }

  /** Does the registry hold this release, built and under these names? */
  predicate HeldBuilt(store: Store, resolved: Resolved) {
    && FamilyOf(resolved.slug).Some?
    && resolved.id in store.releases
    && var r := store.releases[resolved.id];
       var family := FamilyOf(resolved.slug).value;
       && r.key == Key(family, resolved.name)
       && resolved.table == DataTable(family)
       && (r.state == Ready || r.state == Active || r.state == Superseded)
       && r.table == Some(Partition(family, resolved.id))
  }

  /** Called as the query asked; an empty name asks for nothing in particular. */
  predicate AnswersTo(resolved: Resolved, reference: Option<string>) {
    reference.Some? && reference.value != "" ==>
      FamilyOf(resolved.slug).Some? && Bears(Key(FamilyOf(resolved.slug).value, resolved.name), reference.value)
  }

  /** The recheck of a query by name succeeds exactly when the registry holds the release,
      built, under the names it was found by. */
  lemma NamedRecheckIsExact(store: Store, resolved: Resolved)
    requires RowsOk(store.releases)
    ensures Recheck(store, resolved, false).Ok? <==> HeldBuilt(store, resolved)
    ensures Recheck(store, resolved, false).Ok? ==>
              var v := Recheck(store, resolved, false).value;
              && v.id == resolved.id && v.name == resolved.name && v.table == resolved.table
              && FamilyOf(v.slug) == FamilyOf(resolved.slug)
              && HeldBuilt(store, v)
  {
    if FamilyOf(resolved.slug).Some? {
      FamilyNames(FamilyOf(resolved.slug).value);
    }
  }

  /** A default query's recheck succeeds exactly when the registry holds the
      release, under the same names, as the family's active one; and no other
      release of the family is active then. */
  lemma RecheckIsExact(store: Store, resolved: Resolved)
    requires RowsOk(store.releases) && OneActive(store.releases)
    ensures Recheck(store, resolved, true).Ok? <==> HeldActive(store, resolved)
    ensures Recheck(store, resolved, true).Ok? ==>
              var v := Recheck(store, resolved, true).value;
              && v.id == resolved.id && v.name == resolved.name && v.table == resolved.table
              && FamilyOf(v.slug) == FamilyOf(resolved.slug)
              && HeldActive(store, v)
              && IsCurrent(store.releases, FamilyOf(v.slug).value, Some(v.id))
              && forall id :: IsCurrent(store.releases, FamilyOf(v.slug).value, Some(id)) ==> id == v.id
  {
  }

  /** What a query by name is given is called so, and it is given nothing when nothing of
      the family is. */
  lemma ResolvedAsAsked(store: Store, slug: string, reference: Option<string>, found: Option<nat>)
    requires FamilyOf(slug).Some? ==> Finds(store.releases, FamilyOf(slug).value, reference, found)
    ensures var result := ResolveForQuery(store, slug, reference, found);
            result.Ok? ==> result.value.slug == slug && AnswersTo(result.value, reference)
    ensures FamilyOf(slug).Some? && reference.Some? && reference.value != ""
            && (forall id :: id in store.releases && store.releases[id].key.family == FamilyOf(slug).value
                         ==> !Bears(store.releases[id].key, reference.value))
            ==> ResolveForQuery(store, slug, reference, found) == Err(NoRelease)
  {
    if FamilyOf(slug).Some? && reference.Some? && reference.value != "" {
      NamedLookup(store.releases, FamilyOf(slug).value, reference.value, found);
      hide Finds, Bears, Lower;
    }
  }

  /** A release asked for by name is found and rechecked whatever its state, so long as
      it is built; asked for by default it must be the active one. */
  lemma ResolveIsExact(store: Store, slug: string, reference: Option<string>, found: Option<nat>)
    requires RowsOk(store.releases)
    requires FamilyOf(slug).Some? ==> Finds(store.releases, FamilyOf(slug).value, reference, found)
    ensures var result := ResolveForQuery(store, slug, reference, found);
            && (result.Ok? <==> FamilyOf(slug).Some? && found.Some? && IsBuilt(store.releases[found.value].state))
            && (result.Ok? ==>
                  && result.value.id == found.value
                  && result.value.slug == slug
                  && store.releases[found.value].key == Key(FamilyOf(slug).value, result.value.name)
                  && result.value.table == DataTable(FamilyOf(slug).value)
                  && (reference.None? || reference == Some("") ==> HeldActive(store, result.value))
                  && HeldBuilt(store, result.value) && AnswersTo(result.value, reference)
                  && Recheck(store, result.value, reference.None?).Ok?)
  {
    ResolvedAsAsked(store, slug, reference, found);
    hide AnswersTo;
  }

  /******* The shared cache *******/

  /** `since` and `published` are history: the moments the release was read from the
      registry and put in the cache. */
  datatype Cached = Cached(resolved: Resolved, expires: real, since: nat, published: nat)

  function Hit(cache: map<string, Cached>, slug: string, now: real): Option<Resolved> {
    if slug in cache && cache[slug].expires > now then Some(cache[slug].resolved) else None
  }

  function Invalidated(cache: map<string, Cached>, slug: Option<string>): map<string, Cached> {
    if slug.None? then map[] else cache - {slug.value}
  }

  /** One query of one thread, between two of its steps. `at` is the moment of its
      recheck, `done` that of its data SELECT. */
  datatype Query =
    | Asked(slug: string, reference: Option<string>)
    | Missed(slug: string)
    | Fetched(slug: string, resolved: Resolved, since: nat)
    | Holding(slug: string, reference: Option<string>, resolved: Resolved)
    | Checked(slug: string, reference: Option<string>, resolved: Resolved, at: nat)
    | Answered(slug: string, reference: Option<string>, resolved: Resolved, at: nat, rows: seq<Row>, done: nat)
    | Refused(error: QueryError)

  /** Writers' state, the cache, the threads' queries, the clock, and the number of steps so far. */
  datatype Site = Site(world: World, cache: map<string, Cached>, queries: map<nat, Query>, now: real, ttl: real, moment: nat)

  /** `Direct` is a query given no reader: its one lookup is the recheck as well. */
  datatype Event =
    | Writer(step: Step)
    | Tick(elapsed: real)
    | Ask(q: nat, slug: string, reference: Option<string>)
    | ReadCache(q: nat, refresh: bool)
    | Resolve(q: nat, found: Option<nat>)
    | Direct(q: nat, slug: string, reference: Option<string>, found: Option<nat>)
    | Publish(q: nat)
    | Invalidate(scope: Option<string>)
    | Verify(q: nat)
    | Select(q: nat)

  function SetQuery(w: Site, q: nat, query: Query): Site {
    w.(queries := w.queries[q := query])
  }

  function Effect(w: Site, e: Event): Site {
    match e
    case Writer(s) => w.(world := Apply(w.world, s))
    case Tick(elapsed) => if elapsed < 0.0 then w else w.(now := w.now + elapsed)
    case Ask(q, slug, reference) => if q in w.queries then w else SetQuery(w, q, Asked(slug, reference))
    case ReadCache(q, refresh) =>
      if q !in w.queries || !w.queries[q].Asked? || w.queries[q].reference.Some? then w
      else
        var slug := w.queries[q].slug;
        var hit := Hit(w.cache, slug, w.now);
        SetQuery(w, q, if !refresh && hit.Some? then Holding(slug, None, hit.value) else Missed(slug))
    case Resolve(q, found) =>
      if q !in w.queries then w
      else (match w.queries[q]
        case Missed(slug) =>
          if FamilyOf(slug).Some? && !Finds(w.world.store.releases, FamilyOf(slug).value, None, found) then w
          else
            var result := ResolveForQuery(w.world.store, slug, None, found);
            SetQuery(w, q, if result.Ok? then Fetched(slug, result.value, w.moment) else Refused(result.error))
        case Asked(slug, Some(name)) =>
          if FamilyOf(slug).Some? && !Finds(w.world.store.releases, FamilyOf(slug).value, Some(name), found) then w
          else
            var result := ResolveForQuery(w.world.store, slug, Some(name), found);
            SetQuery(w, q, if result.Ok? then Holding(slug, Some(name), result.value) else Refused(result.error))
        case _ => w)
    case Direct(q, slug, reference, found) =>
      if q in w.queries || (FamilyOf(slug).Some? && !Finds(w.world.store.releases, FamilyOf(slug).value, reference, found)) then w
      else
        var result := ResolveForQuery(w.world.store, slug, reference, found);
        SetQuery(w, q, if result.Ok? then Checked(slug, reference, result.value, w.moment) else Refused(result.error))
    case Publish(q) =>
      if q !in w.queries || !w.queries[q].Fetched? then w
      else
        var f := w.queries[q];
        SetQuery(w.(cache := w.cache[f.slug := Cached(f.resolved, w.now + w.ttl, f.since, w.moment)]), q, Holding(f.slug, None, f.resolved))
    case Invalidate(scope) => w.(cache := Invalidated(w.cache, scope))
    case Verify(q) =>
      if q !in w.queries || !w.queries[q].Holding? then w
      else
        var h := w.queries[q];
        var result := Recheck(w.world.store, h.resolved, h.reference.None?);
        SetQuery(w, q, if result.Ok? then Checked(h.slug, h.reference, result.value, w.moment) else Refused(result.error))
    case Select(q) =>
      if q !in w.queries || !w.queries[q].Checked? then w
      else
        var c := w.queries[q];
        SetQuery(w, q, Answered(c.slug, c.reference, c.resolved, c.at, ParentRows(w.world.store, c.resolved), w.moment))
  }

  function Next(w: Site, e: Event): Site {
    Effect(w, e).(moment := w.moment + 1)
  }

  function Run(w: Site, events: seq<Event>): Site
    decreases |events|
  {
    if events == [] then w else Next(Run(w, events[..|events| - 1]), events[|events| - 1])
  }

  function Opening(ttl: real): Site {
    Site(GENESIS, map[], map[], 0.0, ttl, 0)
  }

  /******* Readers change nothing the writers see *******/

  /** The writers' steps among the events. */
  function Writes(events: seq<Event>): seq<Step>
    decreases |events|
  {
    if events == [] then []
    else
      var e := events[|events| - 1];
      Writes(events[..|events| - 1]) + (if e.Writer? then [e.step] else [])
  }

  lemma {:induction false} ReadersChangeNothing(ttl: real, events: seq<Event>)
    ensures Run(Opening(ttl), events).world == Exec(GENESIS, Writes(events))
    ensures Run(Opening(ttl), events).moment == |events|
    ensures Run(Opening(ttl), events).ttl == ttl
    decreases |events|
  {
    hide Apply;
    if events != [] {
      var e := events[|events| - 1];
      var before := events[..|events| - 1];
      ReadersChangeNothing(ttl, before);
      if e.Writer? {
        ExecAppend(GENESIS, Writes(before), [e.step]);
        assert Exec(Exec(GENESIS, Writes(before)), [e.step]) == Apply(Exec(GENESIS, Writes(before)), e.step);
      } else {
        assert Writes(events) == Writes(before);
      }
    }
  }

  /******* Where cached and checked releases come from *******/

  function StoreAt(ttl: real, events: seq<Event>, moment: nat): Store
    requires moment <= |events|
  {
    Run(Opening(ttl), events[..moment]).world.store
  }

  /** At this moment some thread read `resolved` from the registry as the family's active release. */
  predicate ResolvedAt(ttl: real, events: seq<Event>, slug: string, resolved: Resolved, since: nat) {
    && since < |events|
    && events[since].Resolve?
    && FamilyOf(slug).Some?
    && resolved.slug == slug
    && HeldActive(StoreAt(ttl, events, since), resolved)
  }

  predicate CacheOrigin(ttl: real, events: seq<Event>, slug: string, c: Cached) {
    && ResolvedAt(ttl, events, slug, c.resolved, c.since)
    && c.since < c.published < |events|
    && c.expires == Run(Opening(ttl), events[..c.published]).now + ttl
  }

  /** The look at the registry a query's SELECT relies on. */
  predicate Checks(e: Event, q: nat) {
    e == Verify(q) || (e.Direct? && e.q == q)
  }

  predicate CheckedAt(ttl: real, events: seq<Event>, q: nat, slug: string, reference: Option<string>, resolved: Resolved, at: nat) {
    && at < |events|
    && Checks(events[at], q)
    && TableFamily(resolved.table).Some?
    && FamilyOf(resolved.slug) == FamilyOf(slug)
    && AnswersTo(resolved, reference)
    && HeldBuilt(StoreAt(ttl, events, at), resolved)
    && (reference.None? ==> HeldActive(StoreAt(ttl, events, at), resolved))
  }

  /** The query was asked so. */
  predicate AskedFor(events: seq<Event>, q: nat, slug: string, reference: Option<string>) {
    exists k :: 0 <= k < |events| && Asks(events[k], q, slug, reference)
  }

  predicate Asks(e: Event, q: nat, slug: string, reference: Option<string>) {
    e == Ask(q, slug, reference) || (e.Direct? && e.q == q && e.slug == slug && e.reference == reference)
  }

  predicate QueryOrigin(ttl: real, events: seq<Event>, q: nat, query: Query) {
    match query
    case Asked(slug, reference) => AskedFor(events, q, slug, reference)
    case Missed(slug) => AskedFor(events, q, slug, None)
    case Fetched(slug, resolved, since) => AskedFor(events, q, slug, None) && ResolvedAt(ttl, events, slug, resolved, since)
    case Holding(slug, reference, resolved) =>
      AskedFor(events, q, slug, reference) && FamilyOf(resolved.slug) == FamilyOf(slug) && AnswersTo(resolved, reference)
    case Checked(slug, reference, resolved, at) =>
      AskedFor(events, q, slug, reference) && CheckedAt(ttl, events, q, slug, reference, resolved, at)
    case Answered(slug, reference, resolved, at, rows, done) =>
      && AskedFor(events, q, slug, reference)
      && CheckedAt(ttl, events, q, slug, reference, resolved, at)
      && at < done < |events|
      && rows == ParentRows(StoreAt(ttl, events, done), resolved)
    case Refused(_) => true
  }

  lemma OriginsExtend(ttl: real, before: seq<Event>, e: Event)
    ensures forall slug, c: Cached :: CacheOrigin(ttl, before, slug, c) ==> CacheOrigin(ttl, before + [e], slug, c)
    ensures forall q, query :: QueryOrigin(ttl, before, q, query) ==> QueryOrigin(ttl, before + [e], q, query)
  {
    assert forall k :: 0 <= k <= |before| ==> (before + [e])[..k] == before[..k];
    assert forall k :: 0 <= k < |before| ==> (before + [e])[k] == before[k];
  }

  lemma OriginExtends(ttl: real, before: seq<Event>, e: Event, q: nat, query: Query)
    requires QueryOrigin(ttl, before, q, query)
    ensures QueryOrigin(ttl, before + [e], q, query)
  {
    OriginsExtend(ttl, before, e);
  }

  lemma WorldSafe(ttl: real, events: seq<Event>)
    ensures Inv(Run(Opening(ttl), events).world)
  {
    ReadersChangeNothing(ttl, events);
    Safety(GENESIS, Writes(events));
  }

  /** Reading the registry for the active release finds one it holds as active. */
  lemma ResolvedIsHeld(w: World, slug: string, found: Option<nat>)
    requires Inv(w) && (FamilyOf(slug).Some? ==> Finds(w.store.releases, FamilyOf(slug).value, None, found))
    requires ResolveForQuery(w.store, slug, None, found).Ok?
    ensures var r := ResolveForQuery(w.store, slug, None, found).value; r.slug == slug && HeldActive(w.store, r)
  {
  }

  lemma DirectOrigin(w: World, slug: string, reference: Option<string>, found: Option<nat>)
    requires Inv(w) && (FamilyOf(slug).Some? ==> Finds(w.store.releases, FamilyOf(slug).value, reference, found))
    ensures var result := ResolveForQuery(w.store, slug, reference, found);
            result.Ok? ==>
              && TableFamily(result.value.table).Some?
              && result.value.slug == slug
              && AnswersTo(result.value, reference)
              && HeldBuilt(w.store, result.value)
              && (reference.None? ==> HeldActive(w.store, result.value))
  {
    RowsAreOk(w);
    ResolveIsExact(w.store, slug, reference, found);
    if FamilyOf(slug).Some? {
      FamilyNames(FamilyOf(slug).value);
    }
  }

  lemma RowsAreOk(w: World)
    requires Inv(w)
    ensures RowsOk(w.store.releases) && OneActive(w.store.releases)
  {
  }

  /** Whatever a recheck passes is registered, under the names it was held by. */
  lemma RecheckKeepsNames(store: Store, resolved: Resolved, requireActive: bool, reference: Option<string>)
    requires RowsOk(store.releases) && OneActive(store.releases)
    requires Recheck(store, resolved, requireActive).Ok?
    ensures var v := Recheck(store, resolved, requireActive).value;
            && TableFamily(v.table).Some?
            && FamilyOf(v.slug) == FamilyOf(resolved.slug)
            && (AnswersTo(resolved, reference) ==> AnswersTo(v, reference))
            && HeldBuilt(store, v)
            && (requireActive ==> HeldActive(store, v))
  {
    NamedRecheckIsExact(store, resolved);
    RecheckIsExact(store, resolved);
    FamilyNames(FamilyOf(resolved.slug).value);
    hide Bears, FamilyOf, DataTable, FamilySlug;
  }

  ghost predicate AllOrigins(ttl: real, events: seq<Event>) {
    var w := Run(Opening(ttl), events);
    && (forall slug :: slug in w.cache ==> CacheOrigin(ttl, events, slug, w.cache[slug]))
    && (forall q :: q in w.queries ==> QueryOrigin(ttl, events, q, w.queries[q]))
  }

  lemma CachedUnderItsName(ttl: real, events: seq<Event>, slug: string)
    requires AllOrigins(ttl, events) && slug in Run(Opening(ttl), events).cache
    ensures Run(Opening(ttl), events).cache[slug].resolved.slug == slug
  {
    hide Run, HeldActive;
    assert CacheOrigin(ttl, events, slug, Run(Opening(ttl), events).cache[slug]);
  }

  predicate IsQueryEvent(e: Event) {
    e.Ask? || e.ReadCache? || e.Resolve? || e.Direct? || e.Publish? || e.Verify? || e.Select?
  }

  lemma AskedNow(before: seq<Event>, e: Event, q: nat, slug: string, reference: Option<string>)
    requires Asks(e, q, slug, reference)
    ensures AskedFor(before + [e], q, slug, reference)
  {
    assert Asks((before + [e])[|before|], q, slug, reference);
  }

  lemma NothingAsked(resolved: Resolved)
    ensures AnswersTo(resolved, None)
  {
  }

  /** The query whose event it is: it looks its release up. */
  lemma LookupOrigin(ttl: real, before: seq<Event>, e: Event)
    requires AllOrigins(ttl, before) && (e.Resolve? || e.Direct?)
    requires e.q in Next(Run(Opening(ttl), before), e).queries
    ensures QueryOrigin(ttl, before + [e], e.q, Next(Run(Opening(ttl), before), e).queries[e.q])
  {
    hide Inv, Apply, Run, HeldActive, HeldBuilt, Recheck, ResolveForQuery, ParentRows, Finds, FamilyOf, TableFamily,
      CacheOrigin, AnswersTo, AskedFor;
    var w := Run(Opening(ttl), before);
    WorldSafe(ttl, before);
    ReadersChangeNothing(ttl, before);
    assert (before + [e])[..|before|] == before;
    if e.q in w.queries {
      OriginExtends(ttl, before, e, e.q, w.queries[e.q]);
    }
    match e
    case Resolve(q, found) =>
      if q in w.queries && w.queries[q].Missed? && Effect(w, e).queries[q].Fetched? {
        ResolvedIsHeld(w.world, w.queries[q].slug, found);
      }
      if q in w.queries && w.queries[q].Asked? && Effect(w, e).queries[q].Holding? {
        DirectOrigin(w.world, w.queries[q].slug, w.queries[q].reference, found);
      }
    case Direct(q, slug, reference, found) =>
      AskedNow(before, e, q, slug, reference);
      if q !in w.queries && Effect(w, e) != w {
        DirectOrigin(w.world, slug, reference, found);
      }
  }

  /** Or it does something else. */
  lemma OwnOrigin(ttl: real, before: seq<Event>, e: Event)
    requires AllOrigins(ttl, before) && IsQueryEvent(e) && !e.Resolve? && !e.Direct?
    requires e.q in Next(Run(Opening(ttl), before), e).queries
    ensures QueryOrigin(ttl, before + [e], e.q, Next(Run(Opening(ttl), before), e).queries[e.q])
  {
    hide Inv, Apply, Run, HeldActive, HeldBuilt, Recheck, ResolveForQuery, ParentRows, Finds, FamilyOf, TableFamily,
      CacheOrigin, AnswersTo, AskedFor;
    var w := Run(Opening(ttl), before);
    WorldSafe(ttl, before);
    ReadersChangeNothing(ttl, before);
    assert (before + [e])[..|before|] == before;
    if e.q in w.queries {
      OriginExtends(ttl, before, e, e.q, w.queries[e.q]);
    }
    match e
    case Ask(q, slug, reference) =>
      AskedNow(before, e, q, slug, reference);
    case ReadCache(q, _) =>
      if q in w.queries && w.queries[q].Asked? && w.queries[q].slug in w.cache {
        CachedUnderItsName(ttl, before, w.queries[q].slug);
        NothingAsked(w.cache[w.queries[q].slug].resolved);
      }
    case Publish(q) =>
      if q in w.queries && w.queries[q].Fetched? {
        NothingAsked(w.queries[q].resolved);
      }
    case Verify(q) =>
      if q in w.queries && w.queries[q].Holding? {
        var h := w.queries[q];
        RowsAreOk(w.world);
        if Recheck(w.world.store, h.resolved, h.reference.None?).Ok? {
          RecheckKeepsNames(w.world.store, h.resolved, h.reference.None?, h.reference);
        }
      }
    case _ =>
  }

  /** The entries of the cache after an event. */
  lemma EntryOrigin(ttl: real, before: seq<Event>, e: Event, slug: string)
    requires AllOrigins(ttl, before) && slug in Next(Run(Opening(ttl), before), e).cache
    ensures CacheOrigin(ttl, before + [e], slug, Next(Run(Opening(ttl), before), e).cache[slug])
  {
    hide Apply, Run, HeldActive, Recheck, ResolveForQuery, ParentRows, Finds, FamilyOf, TableFamily;
    OriginsExtend(ttl, before, e);
    ReadersChangeNothing(ttl, before);
    assert (before + [e])[..|before|] == before;
    if e.Publish? && e.q in Run(Opening(ttl), before).queries {
      assert QueryOrigin(ttl, before, e.q, Run(Opening(ttl), before).queries[e.q]);
    }
  }

  lemma NextOrigin(ttl: real, before: seq<Event>, e: Event)
    requires AllOrigins(ttl, before)
    ensures AllOrigins(ttl, before + [e])
  {
    hide Apply, Recheck, ResolveForQuery, ParentRows, Finds, FamilyOf, TableFamily, QueryOrigin, CacheOrigin;
    var w := Run(Opening(ttl), before);
    assert (before + [e])[..|before|] == before;
    assert Run(Opening(ttl), before + [e]) == Next(w, e);
    forall slug | slug in Next(w, e).cache ensures CacheOrigin(ttl, before + [e], slug, Next(w, e).cache[slug]) {
      EntryOrigin(ttl, before, e, slug);
    }
    forall q | q in Next(w, e).queries ensures QueryOrigin(ttl, before + [e], q, Next(w, e).queries[q]) {
      if IsQueryEvent(e) && e.q == q {
        if e.Resolve? || e.Direct? {
          LookupOrigin(ttl, before, e);
        } else {
          OwnOrigin(ttl, before, e);
        }
      } else {
        OriginsExtend(ttl, before, e);
        assert QueryOrigin(ttl, before, q, w.queries[q]);
      }
    }
  }

  /** Over any run of any number of threads and writers: what the cache holds was
      read from the registry, as the family's active release, before it was
      published, and expires a TTL after it was published; what a query holds has
      the origin its phase promises. */
  lemma {:induction false} Origins(ttl: real, events: seq<Event>)
    ensures AllOrigins(ttl, events)
    decreases |events|
  {
    hide CacheOrigin, QueryOrigin, Next;
    if events == [] {
      assert Run(Opening(ttl), events) == Opening(ttl);
    } else {
      var before := events[..|events| - 1];
      var e := events[|events| - 1];
      Origins(ttl, before);
      NextOrigin(ttl, before, e);
      assert before + [e] == events;
    }
  }

  /** So whatever the cache holds was the family's active release when a thread looked it up,
      which was before it was published, and expires a TTL after that. */
  lemma CachedWasActive(ttl: real, events: seq<Event>, slug: string)
    requires slug in Run(Opening(ttl), events).cache
    ensures var c := Run(Opening(ttl), events).cache[slug];
            && c.since < c.published < |events|
            && events[c.since].Resolve?
            && FamilyOf(slug).Some? && c.resolved.slug == slug
            && c.resolved.id in StoreAt(ttl, events, c.since).releases
            && StoreAt(ttl, events, c.since).releases[c.resolved.id].state == Active
            && StoreAt(ttl, events, c.since).releases[c.resolved.id].key == Key(FamilyOf(slug).value, c.resolved.name)
            && c.expires == Run(Opening(ttl), events[..c.published]).now + ttl
  {
    hide Run, FamilyOf;
    Origins(ttl, events);
    assert CacheOrigin(ttl, events, slug, Run(Opening(ttl), events).cache[slug]);
  }

  /** However stale the cache: a default query that reaches its data SELECT does so
      with a release that the registry, at that query's own recheck (or, without a
      reader, its own lookup), held as the family's active release with its production
      table and the names queried. */
  lemma DefaultQueryUsesActive(ttl: real, events: seq<Event>, q: nat)
    requires var w := Run(Opening(ttl), events);
             q in w.queries && (w.queries[q].Checked? || w.queries[q].Answered?) && w.queries[q].reference.None?
    ensures var query := Run(Opening(ttl), events).queries[q];
            && query.at < |events|
            && Checks(events[query.at], q)
            && HeldActive(StoreAt(ttl, events, query.at), query.resolved)
  {
    hide Run, HeldActive, CacheOrigin;
    Origins(ttl, events);
    assert QueryOrigin(ttl, events, q, Run(Opening(ttl), events).queries[q]);
  }

  /** Whatever reaches its data SELECT is what was asked for: a release that the registry
      held, at the query's own recheck, as a built one of the family asked for; for a query
      by default its active one, for a query by name one whose name or version is that, up
      to case. */
  lemma QueryUsesAsked(ttl: real, events: seq<Event>, q: nat)
    requires var w := Run(Opening(ttl), events);
             q in w.queries && (w.queries[q].Checked? || w.queries[q].Answered?)
    ensures var query := Run(Opening(ttl), events).queries[q];
            && AskedFor(events, q, query.slug, query.reference)
            && query.at < |events| && Checks(events[query.at], q)
            && FamilyOf(query.slug).Some?
            && query.resolved.id in StoreAt(ttl, events, query.at).releases
            && var r := StoreAt(ttl, events, query.at).releases[query.resolved.id];
               && r.key.family == FamilyOf(query.slug).value
               && (r.state == Ready || r.state == Active || r.state == Superseded)
               && (query.reference.None? ==> r.state == Active)
               && (query.reference.Some? && query.reference.value != "" ==>
                     || EqualIgnoringCase(r.key.name, query.reference.value)
                     || EqualIgnoringCase(VersionOf(r.key), query.reference.value))
  {
    hide Run, CacheOrigin, FamilyOf, EqualIgnoringCase, VersionOf;
    Origins(ttl, events);
    assert QueryOrigin(ttl, events, q, Run(Opening(ttl), events).queries[q]);
  }

  /** Every answer, by default or by name, is drawn from one whole import: the
      acceptable rows of the last source swapped in for the release when the SELECT
      ran, or nothing if a removal had dropped the partition by then. */
  lemma AnswersAreWhole(ttl: real, events: seq<Event>, q: nat)
    requires var w := Run(Opening(ttl), events); q in w.queries && w.queries[q].Answered?
    ensures var query := Run(Opening(ttl), events).queries[q];
            && query.at < query.done < |events|
            && TableFamily(query.resolved.table).Some?
            && var t := Partition(TableFamily(query.resolved.table).value, query.resolved.id);
               var last := LastSource(GENESIS, Writes(events[..query.done]), t);
               query.rows == if last.Some? then Accepted(last.value.rows) else []
  {
    hide Run, HeldActive, CacheOrigin, Exec;
    Origins(ttl, events);
    assert QueryOrigin(ttl, events, q, Run(Opening(ttl), events).queries[q]);
    var query := Run(Opening(ttl), events).queries[q];
    var writes := Writes(events[..query.done]);
    ReadersChangeNothing(ttl, events[..query.done]);
    ParentHoldsLastSource(writes, TableFamily(query.resolved.table).value, query.resolved.id);
  }

  /******* How fresh the cache is *******/

  predicate NoneInFlight(w: Site, slug: string) {
    forall q :: q in w.queries && w.queries[q].Fetched? ==> w.queries[q].slug != slug
  }

  /** What was not yet read from the registry at moment `k` is read later. */
  predicate LaterThan(w: Site, slug: string, k: nat) {
    && k <= w.moment
    && (forall q :: q in w.queries && w.queries[q].Fetched? && w.queries[q].slug == slug ==> w.queries[q].since >= k)
    && (slug in w.cache ==> w.cache[slug].published < k || w.cache[slug].since >= k)
  }

  lemma {:induction false} ReadLater(w: Site, after: seq<Event>, slug: string, k: nat)
    requires LaterThan(w, slug, k)
    ensures LaterThan(Run(w, after), slug, k)
    decreases |after|
  {
    hide Apply, Recheck, ResolveForQuery, ParentRows, Finds, FamilyOf;
    if after != [] {
      ReadLater(w, after[..|after| - 1], slug, k);
    }
  }

  /** A thread between its registry read and its cache write puts its old answer back. */
  lemma OldAnswerReturns(ttl: real, events: seq<Event>, slug: string, q: nat)
    requires var w := Run(Opening(ttl), events);
             q in w.queries && w.queries[q].Fetched? && w.queries[q].slug == slug
    ensures var w := Run(Opening(ttl), events);
            var v := Run(Next(w, Invalidate(Some(slug))), [Publish(q)]);
            slug in v.cache && v.cache[slug].resolved == w.queries[q].resolved && v.cache[slug].since < |events|
  {
    hide Run, Apply, Recheck, ResolveForQuery, ParentRows, Finds, FamilyOf, CacheOrigin, HeldActive;
    var w := Run(Opening(ttl), events);
    Origins(ttl, events);
    assert QueryOrigin(ttl, events, q, w.queries[q]);
    OneEvent(Next(w, Invalidate(Some(slug))), Publish(q));
  }

  lemma OneEvent(w: Site, e: Event)
    ensures Run(w, [e]) == Next(w, e)
  {
    hide Next;
    assert [e][..0] == [];
    assert Run(w, []) == w;
  }

  /** Invalidating a family makes every later cached answer one read from the
      registry afterwards, exactly when no thread is at that moment between its
      registry read and its cache write for that family. */
  lemma InvalidationSticks(ttl: real, events: seq<Event>, slug: string)
    ensures var w := Run(Opening(ttl), events);
            var v := Next(w, Invalidate(Some(slug)));
            (forall after :: slug in Run(v, after).cache ==> Run(v, after).cache[slug].since >= |events|)
            <==> NoneInFlight(w, slug)
  {
    hide Run, Apply;
    var w := Run(Opening(ttl), events);
    var v := Next(w, Invalidate(Some(slug)));
    ReadersChangeNothing(ttl, events);
    if NoneInFlight(w, slug) {
      forall after ensures slug in Run(v, after).cache ==> Run(v, after).cache[slug].since >= |events| {
        ReadLater(v, after, slug, |events|);
        PublishedLater(v, after, slug, |events|);
      }
    } else {
      var q :| q in w.queries && w.queries[q].Fetched? && w.queries[q].slug == slug;
      OldAnswerReturns(ttl, events, slug, q);
    }
  }

  lemma {:induction false} PublishedLater(w: Site, after: seq<Event>, slug: string, k: nat)
    requires k <= w.moment && (slug in w.cache ==> w.cache[slug].published >= k)
    ensures var v := Run(w, after); k <= v.moment && (slug in v.cache ==> v.cache[slug].published >= k)
    decreases |after|
  {
    hide Apply, Recheck, ResolveForQuery, ParentRows, Finds, FamilyOf;
    if after != [] {
      PublishedLater(w, after[..|after| - 1], slug, k);
    }
  }

  lemma {:induction false} TimePasses(w: Site, events: seq<Event>, k: nat)
    requires k <= |events|
    ensures Run(w, events[..k]).now <= Run(w, events).now
    decreases |events|
  {
    hide Apply, Recheck, ResolveForQuery, ParentRows, Finds, FamilyOf;
    if k == |events| {
      assert events[..k] == events;
    } else {
      var before := events[..|events| - 1];
      TimePasses(w, before, k);
      assert before[..k] == events[..k];
    }
  }

  lemma {:induction false} RunAppend(w: Site, before: seq<Event>, after: seq<Event>)
    ensures Run(w, before + after) == Run(Run(w, before), after)
    decreases |after|
  {
    hide Next;
    if after == [] {
      assert before + after == before;
    } else {
      var init := after[..|after| - 1];
      RunAppend(w, before, init);
      assert (before + after)[..|before + after| - 1] == before + init;
    }
  }

  /** Once a TTL has passed since moment `k`, say an activation, a cache hit is an
      answer published after `k`; and read from the registry after `k`, unless a
      thread was between its read and its cache write at `k`. */
  lemma PickedUpWithinTtl(ttl: real, events: seq<Event>, slug: string, k: nat)
    requires k <= |events|
    requires var w := Run(Opening(ttl), events);
             Hit(w.cache, slug, w.now).Some? && w.now >= Run(Opening(ttl), events[..k]).now + ttl
    ensures var w := Run(Opening(ttl), events);
            var c := w.cache[slug];
            && k <= c.published < |events|
            && ResolvedAt(ttl, events, slug, c.resolved, c.since)
            && (NoneInFlight(Run(Opening(ttl), events[..k]), slug) ==> c.since >= k)
  {
    hide Next, ResolvedAt, Run;
    var w := Run(Opening(ttl), events);
    var c := w.cache[slug];
    Origins(ttl, events);
    assert CacheOrigin(ttl, events, slug, c);
    var p := if c.published < k then c.published else k;
    TimePasses(Opening(ttl), events[..k], p);
    assert events[..k][..p] == events[..p];
    var v := Run(Opening(ttl), events[..k]);
    if NoneInFlight(v, slug) {
      Origins(ttl, events[..k]);
      ReadersChangeNothing(ttl, events[..k]);
      assert slug in v.cache ==> CacheOrigin(ttl, events[..k], slug, v.cache[slug]);
      ReadLater(v, events[k..], slug, k);
      RunAppend(Opening(ttl), events[..k], events[k..]);
      assert events[..k] + events[k..] == events;
    }
  }

  /** A thread caught at moment `k` between its registry read and its cache write can
      make its old answer a cache hit a whole TTL later. */
  lemma OldAnswerOutlivesTtl(ttl: real, events: seq<Event>, slug: string, q: nat)
    requires ttl > 0.0
    requires var w := Run(Opening(ttl), events);
             q in w.queries && w.queries[q].Fetched? && w.queries[q].slug == slug
    ensures var w := Run(Opening(ttl), events);
            var v := Run(w, [Tick(ttl), Publish(q)]);
            && v.now == w.now + ttl
            && Hit(v.cache, slug, v.now) == Some(w.queries[q].resolved)
            && v.cache[slug].since < |events|
  {
    hide Run, Apply, Recheck, ResolveForQuery, ParentRows, Finds, FamilyOf, CacheOrigin, HeldActive;
    var w := Run(Opening(ttl), events);
    Origins(ttl, events);
    ReadersChangeNothing(ttl, events);
    assert QueryOrigin(ttl, events, q, w.queries[q]);
    OneEvent(w, Tick(ttl));
    OneEvent(Next(w, Tick(ttl)), Publish(q));
    RunAppend(w, [Tick(ttl)], [Publish(q)]);
    assert [Tick(ttl)] + [Publish(q)] == [Tick(ttl), Publish(q)];
  }

  /** A cache entry never serves from the moment of its publication on when the TTL is
      not positive. */
  lemma NoHitWithoutTtl(ttl: real, events: seq<Event>, slug: string)
    requires ttl <= 0.0
    ensures var w := Run(Opening(ttl), events); Hit(w.cache, slug, w.now).None?
  {
    hide Run, Next, ResolvedAt;
    var w := Run(Opening(ttl), events);
    if slug in w.cache {
      Origins(ttl, events);
      assert CacheOrigin(ttl, events, slug, w.cache[slug]);
      TimePasses(Opening(ttl), events, w.cache[slug].published);
    }
  }

  /** "Picked up within the TTL", exactly: whatever happens after this moment, once a
      TTL has passed every cache hit was read from the registry after it, if and only
      if no thread is at this moment between its registry read and its cache write for
      the family (or nothing is ever served from the cache). */
  lemma PickedUpExactly(ttl: real, events: seq<Event>, slug: string)
    ensures var w := Run(Opening(ttl), events);
            (forall after :: var v := Run(w, after);
               v.now >= w.now + ttl && Hit(v.cache, slug, v.now).Some? ==> v.cache[slug].since >= |events|)
            <==> ttl <= 0.0 || NoneInFlight(w, slug)
  {
    hide Run, Next, ResolvedAt;
    var w := Run(Opening(ttl), events);
    if ttl <= 0.0 || NoneInFlight(w, slug) {
      forall after | Run(w, after).now >= w.now + ttl && Hit(Run(w, after).cache, slug, Run(w, after).now).Some?
        ensures Run(w, after).cache[slug].since >= |events|
      {
        RunAppend(Opening(ttl), events, after);
        assert (events + after)[..|events|] == events;
        if ttl <= 0.0 {
          NoHitWithoutTtl(ttl, events + after, slug);
        } else {
          PickedUpWithinTtl(ttl, events + after, slug, |events|);
        }
      }
    } else {
      var q :| q in w.queries && w.queries[q].Fetched? && w.queries[q].slug == slug;
      OldAnswerOutlivesTtl(ttl, events, slug, q);
    }
  }

  /** Cache keys are spelled as callers spelled them. Invalidating one spelling clears
      the whole family exactly when nothing is cached under another. */
  lemma InvalidationIsPerSpelling(cache: map<string, Cached>, slug: string)
    ensures (forall key :: key in Invalidated(cache, Some(slug)) ==> FamilyOf(key) != FamilyOf(slug))
       <==> (forall key :: key in cache && FamilyOf(key) == FamilyOf(slug) ==> key == slug)
    ensures Invalidated(cache, None) == map[]
  {
  }

  /******* When a default query finds nothing *******/

  lemma {:induction false} WritesPrefix(events: seq<Event>, k: nat)
    requires k <= |events|
    ensures |Writes(events[..k])| <= |Writes(events)| && Writes(events)[..|Writes(events[..k])|] == Writes(events[..k])
    decreases |events|
  {
    if k == |events| {
      assert events[..k] == events;
    } else {
      var before := events[..|events| - 1];
      WritesPrefix(before, k);
      assert before[..k] == events[..k];
    }
  }

  /** A default query over a release is answered with no rows to choose from exactly
      when a removal dropped its partition before the SELECT and after the last swap:
      the false empty result happens then, and only then. */
  lemma EmptyOnlyAfterDrop(ttl: real, events: seq<Event>, q: nat)
    requires var w := Run(Opening(ttl), events);
             q in w.queries && w.queries[q].Answered? && w.queries[q].reference.None?
    ensures var query := Run(Opening(ttl), events).queries[q];
            && query.done < |events|
            && TableFamily(query.resolved.table).Some?
            && var t := Partition(TableFamily(query.resolved.table).value, query.resolved.id);
               var dropped := History.DroppedSince(GENESIS, Writes(events[..query.done]), t);
               && (t !in StoreAt(ttl, events, query.done).tables <==> dropped)
               && (query.rows == [] <==> dropped)
  {
    hide Run, CacheOrigin, Exec, History.DroppedSince, History.EverSwapped;
    var query := Run(Opening(ttl), events).queries[q];
    DefaultQueryUsesActive(ttl, events, q);
    AnswersAreWhole(ttl, events, q);
    var family := FamilyOf(query.resolved.slug).value;
    FamilyNames(family);
    var t := Partition(family, query.resolved.id);
    var before, writes := Writes(events[..query.at]), Writes(events[..query.done]);
    ReadersChangeNothing(ttl, events[..query.at]);
    ReadersChangeNothing(ttl, events[..query.done]);
    History.NamedWasSwapped(before);
    WritesPrefix(events[..query.done], query.at);
    assert events[..query.done][..query.at] == events[..query.at];
    History.EverSwappedLater(GENESIS, writes, |before|, t);
    History.NoSourceExactly(GENESIS, writes, t);
    LastIsLastSource(writes, t);
    Safety(GENESIS, writes);
    ParentHoldsLastSource(writes, family, query.resolved.id);
    Soundness.NoRowsExactly(writes, family, query.resolved.id);
  }

  /******* The reader as the code has it *******/

  class CatalogReader {
    var cache: map<string, Cached>
    const ttl: real

    ghost predicate Valid()
      reads this
    {
      forall slug :: slug in cache ==> cache[slug].resolved.slug == slug
    }

    constructor (ttl: real)
      ensures Valid() && cache == map[] && this.ttl == ttl
    {
      cache, this.ttl := map[], ttl;
    }

    /** Served from the cache while it lasts; otherwise from the registry, and cached. */
    method ActiveRelease(slug: string, refresh: bool, now: real, later: real,
                         store: Store, found: Option<nat>, since: nat, moment: nat)
      returns (result: Result<Resolved, QueryError>)
      requires Valid()
      requires FamilyOf(slug).Some? ==> Finds(store.releases, FamilyOf(slug).value, None, found)
      modifies this
      ensures Valid()
      ensures var hit := Hit(old(cache), slug, now);
              if !refresh && hit.Some? then result == Ok(hit.value) && cache == old(cache)
              else result == ResolveForQuery(store, slug, None, found)
                   && cache == if result.Ok? then old(cache)[slug := Cached(result.value, later + ttl, since, moment)]
                               else old(cache)
    {
      if !refresh {
        var hit := Hit(cache, slug, now);
        if hit.Some? {
          return Ok(hit.value);
        }
      }
      result := ResolveForQuery(store, slug, None, found);
      if result.Ok? {
        cache := cache[slug := Cached(result.value, later + ttl, since, moment)];
      }
    }

    method InvalidateCache(scope: Option<string>)
      requires Valid()
      modifies this
      ensures Valid() && cache == Invalidated(old(cache), scope)
      ensures forall key :: key in cache <==> key in old(cache) && scope.Some? && key != scope.value
      ensures forall key :: key in cache ==> cache[key] == old(cache)[key]
      ensures forall key, now :: scope.None? || scope.value == key ==> Hit(cache, key, now).None?
    {
      match scope
      case None => cache := map[];
      case Some(slug) => cache := cache - {slug};
    }

    /** One query's three looks at the store, between which anything may commit:
        the lookup (which the cache may save), the recheck, the data SELECT. It is
        answered only from a release that the recheck's store holds as active. */
    method Query(slug: string, reference: Option<string>, now: real, later: real, first: Store, found: Option<nat>,
                 second: Store, third: Store, since: nat, moment: nat)
      returns (rows: Result<seq<Row>, QueryError>)
      requires Valid()
      requires FamilyOf(slug).Some? ==> Finds(first.releases, FamilyOf(slug).value, reference, found)
      requires RowsOk(second.releases) && OneActive(second.releases)
      modifies this
      ensures Valid()
      ensures rows.Ok? && reference.None? ==>
                exists active :: HeldActive(second, active) && FamilyOf(active.slug) == FamilyOf(slug)
                              && rows.value == ParentRows(third, active)
      ensures rows.Ok? && reference.Some? && reference.value != "" ==>
                exists named :: HeldBuilt(second, named) && FamilyOf(named.slug) == FamilyOf(slug)
                             && Bears(second.releases[named.id].key, reference.value)
                             && rows.value == ParentRows(third, named)
      ensures FamilyOf(slug).Some? && reference.Some? && reference.value != ""
              && (forall id :: id in first.releases && first.releases[id].key.family == FamilyOf(slug).value
                           ==> !Bears(first.releases[id].key, reference.value))
              ==> rows == Err(NoRelease)
      ensures reference.None? && rows.Err? && rows.error in {Vanished, Mismatch, NotActive} ==>
                slug in cache && !HeldActive(second, cache[slug].resolved)
    {
      var resolved;
      if reference.Some? {
        resolved := ResolveForQuery(first, slug, reference, found);
        ResolvedAsAsked(first, slug, reference, found);
      } else {
        resolved := ActiveRelease(slug, false, now, later, first, found, since, moment);
      }
      if resolved.Err? {
        return Err(resolved.error);
      }
      var checked := Recheck(second, resolved.value, reference.None?);
      RecheckIsExact(second, resolved.value);
      NamedRecheckIsExact(second, resolved.value);
      if checked.Err? {
        return Err(checked.error);
      }
      rows := Ok(ParentRows(third, checked.value));
    }
  }
}
