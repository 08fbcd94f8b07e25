/** Batch crossmatch: inputs that cannot be looked up are set aside, the others go
    through one SQL statement, and the two results are merged under the promised
    order. What the statement returns is a relation, so every way the database may
    break ties is covered; distance is a parameter.

    Models `skycat/query/crossmatch.py:38-171`. */
module Crossmatch {
  import opened Wrappers
  import opened Sequences
  import opened Ordering
  import opened Validation
  import opened Registry
  import opened Protocol
  import opened Guarantees
  import Reader

  /** A caller's coordinate as `float()` takes it: `NoCoord` is a value it refuses. */
  datatype Input = Input(id: string, ra: Coord, dec: Coord)

  datatype Point = Point(id: string, ra: real, dec: real)

  /** One result row; the catalog columns and the separation are NULL together. */
  datatype Match = Match(id: string, found: Option<(Row, real)>)

  datatype CrossmatchError = NonNumeric(id: string)

  type Distance = (Row, real, real) -> real

  /******* Sorting the inputs out *******/

  predicate Numeric(input: Input) {
    !input.ra.NoCoord? && !input.dec.NoCoord?
  }

  predicate ValidRa(c: Coord) {
    c.Degrees? && 0.0 <= c.deg < 360.0
  }

  predicate ValidDec(c: Coord) {
    c.Degrees? && -90.0 <= c.deg <= 90.0
  }

  predicate Usable(input: Input) {
    ValidRa(input.ra) && ValidDec(input.dec)
  }

  function PointsOf(inputs: seq<Input>): seq<Point> {
    if inputs == [] then []
    else if !Usable(inputs[0]) then PointsOf(inputs[1..])
    else [Point(inputs[0].id, inputs[0].ra.deg, inputs[0].dec.deg)] + PointsOf(inputs[1..])
  }

  function InvalidIds(inputs: seq<Input>): seq<string> {
    if inputs == [] then []
    else if Usable(inputs[0]) then InvalidIds(inputs[1..])
    else [inputs[0].id] + InvalidIds(inputs[1..])
  }

  lemma {:induction false} PointsAppend(inputs: seq<Input>, input: Input)
    ensures PointsOf(inputs + [input]) == PointsOf(inputs) + PointsOf([input])
    ensures InvalidIds(inputs + [input]) == InvalidIds(inputs) + InvalidIds([input])
  {
    if inputs == [] {
      assert inputs + [input] == [input];
    } else {
      assert (inputs + [input])[1..] == inputs[1..] + [input];
      PointsAppend(inputs[1..], input);
    }
  }

  datatype Batch = Batch(points: seq<Point>, invalid: seq<string>, count: nat)

  /** The streaming loop. It stops at the first input with a coordinate that is not
      a number; an out-of-range one only sets its input aside. */
  method CollectInputs(inputs: seq<Input>) returns (r: Result<Batch, CrossmatchError>)
    ensures r.Ok? <==> forall input :: input in inputs ==> input.ra != NoCoord && input.dec != NoCoord
    ensures r.Ok? ==> r.value == Batch(PointsOf(inputs), InvalidIds(inputs), |PointsOf(inputs)|)
    ensures r.Ok? ==> r.value.count + |r.value.invalid| == |inputs|
    ensures r.Err? ==> exists i :: 0 <= i < |inputs| && !Numeric(inputs[i]) && r.error == NonNumeric(inputs[i].id)
                        && forall j :: 0 <= j < i ==> Numeric(inputs[j])
  {
    var points: seq<Point> := [];
    var invalid: seq<string> := [];
    var count := 0;
    for i := 0 to |inputs|
      invariant forall j :: 0 <= j < i ==> Numeric(inputs[j])
      invariant points == PointsOf(inputs[..i]) && invalid == InvalidIds(inputs[..i])
      invariant count == |points| && count + |invalid| == i
    {
      var input := inputs[i];
      if !Numeric(input) {
        return Err(NonNumeric(input.id));
      }
      PointsAppend(inputs[..i], input);
      assert inputs[..i] + [input] == inputs[..i + 1];
      if !Usable(input) {
        invalid := invalid + [input.id];
      } else {
        points := points + [Point(input.id, input.ra.deg, input.dec.deg)];
        count := count + 1;
      }
    }
    assert inputs[..|inputs|] == inputs;
    r := Ok(Batch(points, invalid, count));
  }

  /******* What the SQL statement returns *******/

  function Limit(nearestOnly: bool, maxCandidates: int): (k: nat)
    ensures k >= 1
    ensures k == 1 || (!nearestOnly && k == maxCandidates)
    ensures !nearestOnly ==> k >= maxCandidates
  {
    if nearestOnly then 1 else if maxCandidates > 1 then maxCandidates else 1
  }

  function InRadius(catalog: seq<Row>, distance: Distance, ra: real, dec: real, radius: real): seq<Row> {
    Filter((row: Row) => distance(row, ra, dec) <= radius, catalog)
  }

  /** Are `picked` what `ORDER BY distance LIMIT k` may return from `candidates`? */
  ghost predicate AreNearest(candidates: seq<Row>, distance: Distance, ra: real, dec: real, k: nat, picked: seq<Row>) {
    IsHead((a: Row, b: Row) => distance(a, ra, dec) <= distance(b, ra, dec), k, candidates, picked)
  }

  function NoMatch(id: string): Match {
    Match(id, None)
  }

  /** `LEFT JOIN LATERAL (...) ON true`. */
  function Joined(distance: Distance, point: Point, picked: seq<Row>): seq<Match> {
    if picked == [] then [NoMatch(point.id)]
    else seq(|picked|, i requires 0 <= i < |picked| =>
               Match(point.id, Some((picked[i], distance(picked[i], point.ra, point.dec)))))
  }

  /** Does `rows` belong to this point: its k nearest rows in the radius, or one
      unmatched row when the radius holds none? */
  ghost predicate Answers(catalog: seq<Row>, distance: Distance, radius: real, k: nat, point: Point, rows: seq<Match>) {
    exists picked ::
      && AreNearest(InRadius(catalog, distance, point.ra, point.dec, radius), distance, point.ra, point.dec, k, picked)
      && rows == Joined(distance, point, picked)
  }

  predicate SepLeq(a: Match, b: Match) {
    b.found.None? || (a.found.Some? && a.found.value.1 <= b.found.value.1)
  }

  predicate IdLeq(a: Match, b: Match) {
    StringLeq(a.id, b.id)
  }

  /** `ORDER BY input_id, separation_deg NULLS LAST`. */
  predicate MatchLeq(a: Match, b: Match) {
    IdLeq(a, b) && (a.id == b.id ==> SepLeq(a, b))
  }

  /** Any result of the statement: the joined rows of every point, duplicates
      included, in the order asked for, ties broken in any way. */
  ghost predicate IsSqlAnswer(catalog: seq<Row>, distance: Distance, radius: real, k: nat,
                              points: seq<Point>, parts: seq<seq<Match>>, rows: seq<Match>) {
    && |parts| == |points|
    && (forall i :: 0 <= i < |points| ==> Answers(catalog, distance, radius, k, points[i], parts[i]))
    && multiset(rows) == multiset(Flatten(parts))
    && Sorted(MatchLeq, rows)
  }

  /******* Merging the skipped inputs *******/

  function NoMatches(ids: seq<string>): (rows: seq<Match>)
    ensures |rows| == |ids|
  {
    seq(|ids|, i requires 0 <= i < |ids| => NoMatch(ids[i]))
  }

  function WithId(id: string): Match -> bool {
    (m: Match) => m.id == id
  }

  /** `results` is the statement's rows and one unmatched row for each skipped input,
      by id, each id's rows as they stood, the unmatched ones behind. */
  ghost predicate IsMerge(sql: seq<Match>, skipped: seq<string>, results: seq<Match>) {
    && Sorted(IdLeq, results)
    && multiset(results) == multiset(sql) + multiset(NoMatches(skipped))
    && (forall id :: Filter(WithId(id), results) == Filter(WithId(id), sql) + Filter(WithId(id), NoMatches(skipped)))
  }

  /** Leaves the statement's own order alone when nothing was skipped. */
  method MergeSkipped(sql: seq<Match>, invalid: seq<string>) returns (results: seq<Match>)
    requires Sorted(MatchLeq, sql)
    ensures IsMerge(sql, invalid, results)
    ensures invalid == [] ==> results == sql
  {
    results := sql;
    if invalid != [] {
      results := results + NoMatches(invalid);
      results := Sort(IdLeq, results);
      SortIsMerge(sql, invalid);
    } else {
      assert NoMatches(invalid) == [];
    }
  }

  lemma SortIsMerge(sql: seq<Match>, skipped: seq<string>)
    ensures IsMerge(sql, skipped, Sort(IdLeq, sql + NoMatches(skipped)))
  {
    var all := sql + NoMatches(skipped);
    OrderIsTotal();
    SortSorts(IdLeq, all);
    SortPermutes(IdLeq, all);
    forall id
      ensures Filter(WithId(id), Sort(IdLeq, all)) == Filter(WithId(id), sql) + Filter(WithId(id), NoMatches(skipped))
    {
      SameIdIsLevel(WithId(id), id);
      SortStable(IdLeq, all, WithId(id));
      FilterAppend(WithId(id), sql, NoMatches(skipped));
    }
  }

  lemma OrderIsTotal()
    ensures TotalPreorder(IdLeq) && TotalPreorder(MatchLeq)
  {
    forall a: Match, b: Match ensures (IdLeq(a, b) || IdLeq(b, a)) && (MatchLeq(a, b) || MatchLeq(b, a)) {
      StringLeqTotal(a.id, b.id);
    }
    forall a: Match, b: Match, c: Match | IdLeq(a, b) && IdLeq(b, c)
      ensures IdLeq(a, c) && (MatchLeq(a, b) && MatchLeq(b, c) ==> MatchLeq(a, c))
    {
      StringLeqTransitive(a.id, b.id, c.id);
      StringLeqTotal(a.id, b.id);
      StringLeqTotal(b.id, c.id);
    }
  }

  /** Rows of one input keep the statement's order, the rows without a separation last. */
  lemma SameIdInOrder(sql: seq<Match>, skipped: seq<string>, results: seq<Match>, i: nat, j: nat)
    requires Sorted(MatchLeq, sql) && IsMerge(sql, skipped, results)
    requires i < j < |results| && results[i].id == results[j].id
    ensures SepLeq(results[i], results[j])
  {
    hide Filter, IdLeq, SepLeq, Sorted;
    var id := results[i].id;
    var k, l := FilterPlaces(WithId(id), results, i, j);
    FilterSorted(MatchLeq, WithId(id), sql);
    NullsLastStaysSorted(Filter(WithId(id), sql), Filter(WithId(id), NoMatches(skipped)), id, k, l);
  }

  lemma SameIdIsLevel(same: Match -> bool, id: string)
    requires forall m :: same(m) ==> m.id == id
    ensures AreLevel(IdLeq, same)
  {
    StringLeqTotal(id, id);
  }

  /** Rows of one input in order, followed by rows without a separation. */
  lemma NullsLastStaysSorted(rows: seq<Match>, nulls: seq<Match>, id: string, k: nat, l: nat)
    requires Sorted(MatchLeq, rows) && k < l < |rows + nulls|
    requires forall m :: m in rows ==> m.id == id
    requires forall m :: m in nulls ==> m.found.None?
    ensures SepLeq((rows + nulls)[k], (rows + nulls)[l])
  {
    if l >= |rows| {
      assert (rows + nulls)[l] in nulls;
    } else {
      assert rows[k] in rows && rows[l] in rows;
    }
  }

  /** Merging on `input_id` alone leaves the whole list sorted on (`input_id`,
      separation, NULLS LAST). */
  lemma MergeKeepsOrder(sql: seq<Match>, skipped: seq<string>, results: seq<Match>)
    requires Sorted(MatchLeq, sql) && IsMerge(sql, skipped, results)
    ensures Sorted(MatchLeq, results)
  {
    forall i, j | 0 <= i < j < |results| ensures MatchLeq(results[i], results[j]) {
      if results[i].id == results[j].id {
        SameIdInOrder(sql, skipped, results, i, j);
      }
    }
  }

  /******* The whole call *******/

  /** The answer each input is owed. */
  ghost predicate Owed(catalog: seq<Row>, distance: Distance, radius: real, k: nat, input: Input, rows: seq<Match>) {
    if Usable(input)
    then Answers(catalog, distance, radius, k, Point(input.id, input.ra.deg, input.dec.deg), rows)
    else rows == [NoMatch(input.id)]
  }

  /** The statement's parts and the skipped inputs' rows, in input order. */
  function Spread(inputs: seq<Input>, parts: seq<seq<Match>>): seq<seq<Match>>
    requires |parts| == |PointsOf(inputs)|
  {
    if inputs == [] then []
    else if Usable(inputs[0]) then [parts[0]] + Spread(inputs[1..], parts[1..])
    else [[NoMatch(inputs[0].id)]] + Spread(inputs[1..], parts)
  }

  lemma {:induction false} SpreadOwed(catalog: seq<Row>, distance: Distance, radius: real, k: nat,
                                      inputs: seq<Input>, parts: seq<seq<Match>>)
    requires |parts| == |PointsOf(inputs)|
    requires forall i :: 0 <= i < |parts| ==> Answers(catalog, distance, radius, k, PointsOf(inputs)[i], parts[i])
    ensures var owed := Spread(inputs, parts);
            |owed| == |inputs| && forall i :: 0 <= i < |inputs| ==> Owed(catalog, distance, radius, k, inputs[i], owed[i])
  {
    hide Answers;
    if inputs != [] {
      SpreadOwed(catalog, distance, radius, k, inputs[1..], if Usable(inputs[0]) then parts[1..] else parts);
    }
  }

  lemma {:induction false} SpreadLosesNothing(inputs: seq<Input>, parts: seq<seq<Match>>)
    requires |parts| == |PointsOf(inputs)|
    ensures Bag(Spread(inputs, parts)) == Bag(parts) + multiset(NoMatches(InvalidIds(inputs)))
  {
    if inputs != [] {
      var later := if Usable(inputs[0]) then parts[1..] else parts;
      SpreadLosesNothing(inputs[1..], later);
      assert Spread(inputs, parts)[1..] == Spread(inputs[1..], later);
      if !Usable(inputs[0]) {
        hide NoMatches;
        NoMatchesCons(inputs[0].id, InvalidIds(inputs[1..]));
      }
    }
  }

  lemma NoMatchesCons(id: string, ids: seq<string>)
    ensures multiset(NoMatches([id] + ids)) == multiset([NoMatch(id)]) + multiset(NoMatches(ids))
  {
    assert NoMatches([id] + ids) == [NoMatch(id)] + NoMatches(ids);
  }

  /** `batch_crossmatch` on numeric inputs: every input, valid or not, duplicates
      included, gets the rows it is owed and nothing else is returned; and the list
      is in order of input id, then separation, unmatched rows last. */
  lemma CrossmatchCorrect(catalog: seq<Row>, distance: Distance, radius: real, k: nat, inputs: seq<Input>,
                          parts: seq<seq<Match>>, sql: seq<Match>, results: seq<Match>)
    requires IsSqlAnswer(catalog, distance, radius, k, PointsOf(inputs), parts, sql)
    requires IsMerge(sql, InvalidIds(inputs), results)
    ensures var owed := Spread(inputs, parts);
            && |owed| == |inputs|
            && (forall i :: 0 <= i < |inputs| ==> Owed(catalog, distance, radius, k, inputs[i], owed[i]))
            && multiset(results) == multiset(Flatten(owed))
    ensures Sorted(MatchLeq, results)
  {
    SpreadOwed(catalog, distance, radius, k, inputs, parts);
    SpreadLosesNothing(inputs, parts);
    FlattenBag(parts);
    FlattenBag(Spread(inputs, parts));
    MergeKeepsOrder(sql, InvalidIds(inputs), results);
  }

  /** Is this list what the inputs are owed, together? */
  ghost predicate AllOwed(catalog: seq<Row>, distance: Distance, radius: real, k: nat, inputs: seq<Input>, results: seq<Match>) {
    exists owed: seq<seq<Match>> ::
      && |owed| == |inputs|
      && (forall i :: 0 <= i < |inputs| ==> Owed(catalog, distance, radius, k, inputs[i], owed[i]))
      && multiset(results) == multiset(Flatten(owed))
  }

  /** `batch_crossmatch`, given what the database answers for the usable inputs. */
  method BatchCrossmatch(catalog: seq<Row>, distance: Distance, radius: real, nearestOnly: bool, maxCandidates: int,
                         inputs: seq<Input>, sql: seq<Match>, ghost parts: seq<seq<Match>>)
    returns (outcome: Result<seq<Match>, CrossmatchError>)
    requires IsSqlAnswer(catalog, distance, radius, Limit(nearestOnly, maxCandidates), PointsOf(inputs), parts, sql)
    ensures outcome.Ok? <==> forall input :: input in inputs ==> input.ra != NoCoord && input.dec != NoCoord
    ensures outcome.Ok? ==> Sorted(MatchLeq, outcome.value)
    ensures outcome.Ok? ==>
              AllOwed(catalog, distance, radius, Limit(nearestOnly, maxCandidates), inputs, outcome.value)
  {
    var batch := CollectInputs(inputs);
    if batch.Err? {
      return Err(batch.error);
    }
    var results := MergeSkipped(sql, batch.value.invalid);
    OwedIsOwed(catalog, distance, radius, Limit(nearestOnly, maxCandidates), inputs, parts, sql, results);
    outcome := Ok(results);
  }

  /******* What an answer says *******/

  predicate OnSphere(input: Input) {
    input.ra.Degrees? && 0.0 <= input.ra.deg < 360.0 && input.dec.Degrees? && -90.0 <= input.dec.deg <= 90.0
  }

  predicate Near(row: Row, distance: Distance, input: Input, radius: real)
    requires OnSphere(input)
  {
    distance(row, input.ra.deg, input.dec.deg) <= radius
  }

  /** What an input is owed: of the catalog rows in its radius, all of them or `k`, the
      nearest first, none twice that is there once, and none left out that is nearer; each with
      its distance. With no place on the sphere, or nothing in its radius, one unmatched row. */
  lemma OwedMeans(catalog: seq<Row>, distance: Distance, radius: real, k: nat, input: Input, rows: seq<Match>)
    returns (picked: seq<Row>)
    requires Owed(catalog, distance, radius, k, input, rows) && k >= 1
    ensures |picked| == if OnSphere(input) then Least(k, Count((row: Row) => Near(row, distance, input, radius), catalog)) else 0
    ensures picked == [] ==> rows == [Match(input.id, None)]
    ensures picked != [] ==>
              && OnSphere(input) && |rows| == |picked|
              && forall i :: 0 <= i < |rows| ==>
                   rows[i] == Match(input.id, Some((picked[i], distance(picked[i], input.ra.deg, input.dec.deg))))
    ensures OnSphere(input) ==>
              && multiset(picked) <= multiset(catalog)
              && (forall row :: row in picked ==> Near(row, distance, input, radius))
              && (forall i, j :: 0 <= i < j < |picked| ==> Nearer(picked[i], picked[j], distance, input))
              && (forall row, kept ::
                    row in multiset(catalog) - multiset(picked) && Near(row, distance, input, radius) && kept in picked ==>
                      Nearer(kept, row, distance, input))
  {
    if OnSphere(input) {
      var near := InRadius(catalog, distance, input.ra.deg, input.dec.deg, radius);
      picked :| AreNearest(near, distance, input.ra.deg, input.dec.deg, k, picked)
                && rows == Joined(distance, Point(input.id, input.ra.deg, input.dec.deg), picked);
      NearCounts(catalog, distance, input, radius);
      PickedMeans(catalog, distance, radius, k, input, picked);
      hide InRadius;
    } else {
      picked := [];
    }
  }

  function Least(a: nat, b: nat): nat {
    if a < b then a else b
  }

  predicate Nearer(a: Row, b: Row, distance: Distance, input: Input)
    requires OnSphere(input)
  {
    distance(a, input.ra.deg, input.dec.deg) <= distance(b, input.ra.deg, input.dec.deg)
  }

  lemma NearCounts(catalog: seq<Row>, distance: Distance, input: Input, radius: real)
    requires OnSphere(input)
    ensures InRadius(catalog, distance, input.ra.deg, input.dec.deg, radius)
         == Filter((row: Row) => Near(row, distance, input, radius), catalog)
  {
    SameFilter((row: Row) => distance(row, input.ra.deg, input.dec.deg) <= radius,
               (row: Row) => Near(row, distance, input, radius), catalog);
  }

  lemma {:induction false} SameFilter<T(!new)>(p: T -> bool, q: T -> bool, xs: seq<T>)
    requires forall x :: p(x) <==> q(x)
    ensures Filter(p, xs) == Filter(q, xs)
  {
    if xs != [] {
      SameFilter(p, q, xs[1..]);
    }
  }

  lemma {:induction false} FilterBag<T>(p: T -> bool, xs: seq<T>, x: T)
    ensures multiset(Filter(p, xs))[x] == if p(x) then multiset(xs)[x] else 0
  {
    if xs != [] {
      FilterBag(p, xs[1..], x);
      assert xs == [xs[0]] + xs[1..];
    }
  }

  lemma PickedMeans(catalog: seq<Row>, distance: Distance, radius: real, k: nat, input: Input, picked: seq<Row>)
    requires OnSphere(input)
    requires AreNearest(InRadius(catalog, distance, input.ra.deg, input.dec.deg, radius),
                        distance, input.ra.deg, input.dec.deg, k, picked)
    ensures multiset(picked) <= multiset(catalog)
    ensures forall row :: row in picked ==> Near(row, distance, input, radius)
    ensures forall i, j :: 0 <= i < j < |picked| ==> Nearer(picked[i], picked[j], distance, input)
    ensures forall row, kept ::
              row in multiset(catalog) - multiset(picked) && Near(row, distance, input, radius) && kept in picked ==>
                Nearer(kept, row, distance, input)
  {
    var near := InRadius(catalog, distance, input.ra.deg, input.dec.deg, radius);
    forall row ensures multiset(near)[row] == if Near(row, distance, input, radius) then multiset(catalog)[row] else 0 {
      FilterBag((row: Row) => Near(row, distance, input, radius), catalog, row);
      NearCounts(catalog, distance, input, radius);
    }
    hide InRadius, Near;
    forall row | row in picked ensures Near(row, distance, input, radius) {
      assert row in multiset(picked);
      assert row in multiset(near);
    }
    forall row, kept | row in multiset(catalog) - multiset(picked) && Near(row, distance, input, radius) && kept in picked
      ensures Nearer(kept, row, distance, input)
    {
      assert row in multiset(near) - multiset(picked);
    }
  }

  /** The order promised: by `input_id`, letter by letter; for one id by separation, and
      what has none behind. */
  lemma OrderMeans(results: seq<Match>, i: nat, j: nat)
    requires Sorted(MatchLeq, results) && i < j < |results|
    ensures results[i].id == results[j].id || Precedes(results[i].id, results[j].id)
    ensures results[i].id == results[j].id && results[j].found.Some? ==>
              results[i].found.Some? && results[i].found.value.1 <= results[j].found.value.1
  {
    StringLeqExactly(results[i].id, results[j].id);
    assert MatchLeq(results[i], results[j]);
  }

  /******* A database can answer *******/

  lemma NearestExist(candidates: seq<Row>, distance: Distance, ra: real, dec: real, k: nat)
    ensures exists picked :: AreNearest(candidates, distance, ra, dec, k, picked)
  {
    var leq := (a: Row, b: Row) => distance(a, ra, dec) <= distance(b, ra, dec);
    var sorted := Sort(leq, candidates);
    SortSorts(leq, candidates);
    SortPermutes(leq, candidates);
    TakeIsHead(leq, k, candidates, sorted);
    assert AreNearest(candidates, distance, ra, dec, k, sorted[..if k < |candidates| then k else |candidates|]);
  }

  lemma {:induction false} PartsExist(catalog: seq<Row>, distance: Distance, radius: real, k: nat, points: seq<Point>)
    returns (parts: seq<seq<Match>>)
    ensures |parts| == |points|
    ensures forall i :: 0 <= i < |points| ==> Answers(catalog, distance, radius, k, points[i], parts[i])
  {
    if points == [] {
      parts := [];
    } else {
      var p := points[0];
      NearestExist(InRadius(catalog, distance, p.ra, p.dec, radius), distance, p.ra, p.dec, k);
      var picked :| AreNearest(InRadius(catalog, distance, p.ra, p.dec, radius), distance, p.ra, p.dec, k, picked);
      var rest := PartsExist(catalog, distance, radius, k, points[1..]);
      parts := [Joined(distance, p, picked)] + rest;
    }
  }

  /** For any catalog and inputs some answer meets the statement's description. */
  lemma SqlAnswerExists(catalog: seq<Row>, distance: Distance, radius: real, k: nat, points: seq<Point>)
    ensures exists parts, rows :: IsSqlAnswer(catalog, distance, radius, k, points, parts, rows)
  {
    var parts := PartsExist(catalog, distance, radius, k, points);
    OrderIsTotal();
    SortSorts(MatchLeq, Flatten(parts));
    SortPermutes(MatchLeq, Flatten(parts));
    assert IsSqlAnswer(catalog, distance, radius, k, points, parts, Sort(MatchLeq, Flatten(parts)));
  }

  /******* Crossmatch over a run *******/

  /** The rows an import serves: the acceptable ones of its source. */
  function Served(source: Option<Source>): seq<Row> {
    if source.Some? then Accepted(source.value.rows) else []
  }

  /** From source files to matches, over any run of the protocol: what the inputs are
      owed is owed from the acceptable rows of the last source whose swap committed for
      the release, and from none before the first swap or after the partition is dropped. */
  lemma CrossmatchServesLastImport(steps: seq<Step>, family: Family, id: nat, distance: Distance, radius: real, k: nat,
                                   inputs: seq<Input>, parts: seq<seq<Match>>, sql: seq<Match>, results: seq<Match>)
    requires IsSqlAnswer(FamilyRows(Exec(GENESIS, steps).store, family, id), distance, radius, k, PointsOf(inputs), parts, sql)
    requires IsMerge(sql, InvalidIds(inputs), results)
    ensures Sorted(MatchLeq, results)
    ensures AllOwed(Served(LastSource(GENESIS, steps, Partition(family, id))), distance, radius, k, inputs, results)
  {
    hide Exec;
    ParentHoldsLastSource(steps, family, id);
    OwedIsOwed(FamilyRows(Exec(GENESIS, steps).store, family, id), distance, radius, k, inputs, parts, sql, results);
  }

  /** The same for a default crossmatch through a shared reader: its release was the
      family's active one at the recheck, and its candidates are those of the one import
      being served when the statement ran. */
  lemma DefaultCrossmatchIsCurrent(ttl: real, events: seq<Reader.Event>, q: nat, distance: Distance, radius: real, k: nat,
                                   inputs: seq<Input>, parts: seq<seq<Match>>, sql: seq<Match>, results: seq<Match>)
    requires var w := Reader.Run(Reader.Opening(ttl), events);
             && q in w.queries && w.queries[q].Answered? && w.queries[q].reference.None?
             && IsSqlAnswer(w.queries[q].rows, distance, radius, k, PointsOf(inputs), parts, sql)
    requires IsMerge(sql, InvalidIds(inputs), results)
    ensures Sorted(MatchLeq, results)
    ensures var query := Reader.Run(Reader.Opening(ttl), events).queries[q];
            && query.at < query.done < |events|
            && Reader.HeldActive(Reader.StoreAt(ttl, events, query.at), query.resolved)
            && var t := Partition(Reader.FamilyOf(query.resolved.slug).value, query.resolved.id);
               AllOwed(Served(LastSource(GENESIS, Reader.Writes(events[..query.done]), t)), distance, radius, k, inputs, results)
  {
    hide IsSqlAnswer, IsMerge, AllOwed;
    var query := Reader.Run(Reader.Opening(ttl), events).queries[q];
    Reader.DefaultQueryUsesActive(ttl, events, q);
    Reader.AnswersAreWhole(ttl, events, q);
    Reader.FamilyNames(Reader.FamilyOf(query.resolved.slug).value);
    OwedIsOwed(query.rows, distance, radius, k, inputs, parts, sql, results);
  }

  lemma OwedIsOwed(catalog: seq<Row>, distance: Distance, radius: real, k: nat, inputs: seq<Input>,
                   parts: seq<seq<Match>>, sql: seq<Match>, results: seq<Match>)
    requires IsSqlAnswer(catalog, distance, radius, k, PointsOf(inputs), parts, sql)
    requires IsMerge(sql, InvalidIds(inputs), results)
    ensures Sorted(MatchLeq, results) && AllOwed(catalog, distance, radius, k, inputs, results)
  {
    CrossmatchCorrect(catalog, distance, radius, k, inputs, parts, sql, results);
  }
}
