/** Cone search: how a request becomes a statement, and what the statement's answer
    is of the source files behind the release. The database is a relation between
    statement and answer, so ties may fall in any way; distance is a parameter.

    Models `skycat/query/cone.py:34-167` and `skycat/query/cone.py:333-372`. */
module Cone {
  import opened Wrappers
  import opened Sequences
  import opened Ordering
  import opened Validation
  import opened Registry
  import opened Protocol
  import opened Guarantees
  import Reader
  import Verdicts

  /** A column's Python type; `Opaque` stands for JSONB and geography. */
  datatype ColumnType = IntegerColumn | RealColumn | TextColumn | FlagColumn | Opaque

  datatype Bound = IntegerBound(i: int) | RealBound(r: real) | TextBound(s: string) | FlagBound(b: bool)

  datatype QualityFilter = QualityFilter(column: string, op: string, value: Bound)

  datatype Request = Request(
    ra: Coord,
    dec: Coord,
    radius: real,
    limit: int,
    band: Option<string>,
    magMin: Option<real>,
    magMax: Option<real>,
    orderBy: Option<string>,
    filters: seq<QualityFilter>)

  datatype Statement = Statement(
    release: nat, ra: real, dec: real, radius: real, conditions: seq<QualityFilter>, order: Option<string>, limit: nat)

  datatype ConeError =
    | BadCentre | BadLimit
    | UnknownBand | UnknownColumn(column: string) | SpatialColumn | BadOperator(op: string)
    | UnsupportedColumn(column: string) | BadValue(column: string)
    | UnknownOrder | NotNumericOrder

  type Schema = map<string, ColumnType>
  type Distance = (Row, real, real) -> real

  const OPERATORS := {"=", "!=", "<", "<=", ">", ">="}

  /******* What a request means *******/

  function CoordValue(c: Coord): Value {
    match c
    case NoCoord => Null
    case NotFinite => Special
    case Degrees(d) => Number(d)
  }

  function TextValue(text: Option<string>): Value {
    if text.Some? then Text(text.value) else Null
  }

  /** A row's value in a column of its table. */
  function Cell(row: Row, column: string): Value {
    if column == "native_id" then TextValue(row.nativeId)
    else if column == "cluster" then TextValue(row.cluster)
    else if column == "ra_deg" then CoordValue(row.ra)
    else if column == "dec_deg" then CoordValue(row.dec)
    else if column in row.columns then row.columns[column]
    else Null
  }

  predicate CompareReals(a: real, op: string, b: real) {
    match op
    case "=" => a == b
    case "!=" => a != b
    case "<" => a < b
    case "<=" => a <= b
    case ">" => a > b
    case ">=" => a >= b
    case _ => false
  }

  predicate CompareStrings(a: string, op: string, b: string) {
    match op
    case "=" => a == b
    case "!=" => a != b
    case "<" => a != b && StringLeq(a, b)
    case "<=" => StringLeq(a, b)
    case ">" => a != b && StringLeq(b, a)
    case ">=" => StringLeq(b, a)
    case _ => false
  }

  /** Is the SQL comparison true? NULL makes it unknown, so false here; NaN equals
      itself and exceeds every number. */
  predicate Meets(value: Value, op: string, bound: Bound) {
    match (value, bound)
    case (Number(x), IntegerBound(i)) => CompareReals(x, op, i as real)
    case (Number(x), RealBound(r)) => CompareReals(x, op, r)
    case (Special, IntegerBound(_)) => op in {"!=", ">", ">="}
    case (Special, RealBound(_)) => op in {"!=", ">", ">="}
    case (Text(s), TextBound(t)) => CompareStrings(s, op, t)
    case (Flag(f), FlagBound(g)) => CompareReals(if f then 1.0 else 0.0, op, if g then 1.0 else 0.0)
    case _ => false
  }

  function Named(name: Option<string>): Option<string> {
    if name == Some("") then None else name
  }

  /** Does the caller want this row: within the magnitude bounds, and every filter true? */
  predicate Wanted(q: Request, row: Row) {
    && (Named(q.band).Some? && q.magMin.Some? ==> Meets(Cell(row, q.band.value), ">=", RealBound(q.magMin.value)))
    && (Named(q.band).Some? && q.magMax.Some? ==> Meets(Cell(row, q.band.value), "<=", RealBound(q.magMax.value)))
    && (forall f :: f in q.filters ==> Meets(Cell(row, f.column), f.op, f.value))
  }

  predicate Comparable(column: ColumnType, value: Bound) {
    match column
    case IntegerColumn => value.IntegerBound?
    case RealColumn => value.IntegerBound? || value.RealBound?
    case TextColumn => value.TextBound?
    case FlagColumn => value.FlagBound?
    case Opaque => false
  }

  predicate FilterOk(schema: Schema, f: QualityFilter) {
    && f.column != "geom"
    && f.column in schema
    && f.op in OPERATORS
    && Comparable(schema[f.column], f.value)
  }

  predicate CentreOk(q: Request) {
    q.ra.Degrees? && 0.0 <= q.ra.deg < 360.0 && q.dec.Degrees? && -90.0 <= q.dec.deg <= 90.0
  }

  predicate OrderOk(schema: Schema, column: string) {
    column != "geom" && column in schema && (schema[column] == IntegerColumn || schema[column] == RealColumn)
  }

  /** The requests the API accepts. */
  predicate RequestOk(schema: Schema, q: Request) {
    && CentreOk(q)
    && q.limit >= 0
    && (Named(q.band).Some? ==> q.band.value in schema)
    && (forall f :: f in q.filters ==> FilterOk(schema, f))
    && (Named(q.orderBy).Some? ==> OrderOk(schema, q.orderBy.value))
  }

  /******* Building the statement *******/

  function QualityClause(schema: Schema, f: QualityFilter): (r: Result<QualityFilter, ConeError>)
    ensures r.Ok? <==> FilterOk(schema, f)
    ensures r.Ok? ==> r.value == f
  {
    if f.column == "geom" then Err(SpatialColumn)
    else if f.column !in schema then Err(UnknownColumn(f.column))
    else if f.op !in OPERATORS then Err(BadOperator(f.op))
    else if schema[f.column] == Opaque then Err(UnsupportedColumn(f.column))
    else if !Comparable(schema[f.column], f.value) then Err(BadValue(f.column))
    else Ok(f)
  }

  function OrderByClause(schema: Schema, column: string): (r: Result<string, ConeError>)
    ensures r.Ok? <==> OrderOk(schema, column)
    ensures r.Ok? ==> r.value == column
  {
    if column == "geom" then Err(SpatialColumn)
    else if column !in schema then Err(UnknownOrder)
    else if schema[column] != IntegerColumn && schema[column] != RealColumn then Err(NotNumericOrder)
    else Ok(column)
  }

  /** What the six comparisons mean of numbers and strings, and that NULL meets none. */
  lemma ComparisonsMean(x: real, op: string, y: real, s: string, t: string, i: int, bound: Bound)
    ensures Meets(Number(x), "=", RealBound(y)) <==> x == y
    ensures Meets(Number(x), "!=", RealBound(y)) <==> x != y
    ensures Meets(Number(x), "<", RealBound(y)) <==> x < y
    ensures Meets(Number(x), "<=", RealBound(y)) <==> x <= y
    ensures Meets(Number(x), ">", RealBound(y)) <==> x > y
    ensures Meets(Number(x), ">=", RealBound(y)) <==> x >= y
    ensures Meets(Number(x), op, IntegerBound(i)) <==> Meets(Number(x), op, RealBound(i as real))
    ensures Meets(Text(s), "=", TextBound(t)) <==> s == t
    ensures Meets(Text(s), "!=", TextBound(t)) <==> s != t
    ensures Meets(Text(s), "<=", TextBound(t)) <==> StringLeq(s, t)
    ensures Meets(Text(s), ">=", TextBound(t)) <==> StringLeq(t, s)
    ensures Meets(Text(s), "<", TextBound(t)) <==> !StringLeq(t, s)
    ensures Meets(Text(s), ">", TextBound(t)) <==> !StringLeq(s, t)
    ensures Meets(Special, op, RealBound(y)) <==> op == "!=" || op == ">" || op == ">="
    ensures Meets(Flag(true), "=", FlagBound(true)) && !Meets(Flag(false), "=", FlagBound(true))
    ensures Meets(Flag(true), "!=", FlagBound(false)) && !Meets(Flag(true), "!=", FlagBound(true))
    ensures !Meets(Null, op, bound)
  {
    StringLeqTotal(s, t);
    StringLeqTotal(t, t);
  }

  /** The columns every table has, and the others by name. */
  lemma CellsMean(row: Row, name: string)
    ensures Cell(row, "ra_deg") == (match row.ra case Degrees(d) => Number(d) case NotFinite => Special case NoCoord => Null)
    ensures Cell(row, "dec_deg") == (match row.dec case Degrees(d) => Number(d) case NotFinite => Special case NoCoord => Null)
    ensures row.nativeId.Some? ==> Cell(row, "native_id") == Text(row.nativeId.value)
    ensures row.cluster.Some? ==> Cell(row, "cluster") == Text(row.cluster.value)
    ensures name !in {"ra_deg", "dec_deg", "native_id", "cluster"} ==>
              (name in row.columns ==> Cell(row, name) == row.columns[name]) && (name !in row.columns ==> Cell(row, name) == Null)
  {
    assert |"ra_deg"| == 6 && |"dec_deg"| == 7 && |"cluster"| == 7 && |"native_id"| == 9 && "dec_deg"[0] != "cluster"[0];
  }

  /** Magnitude bounds: with a band named, a row is wanted exactly when its value is there
      and within them (a NaN exceeds every bound); with none, or an empty name, they do not
      apply. */
  lemma BoundsMean(q: Request, row: Row)
    requires q.filters == []
    ensures q.band == None || q.band == Some("") ==> Wanted(q, row)
    ensures q.band.Some? && q.band.value != "" ==>
              var x := Cell(row, q.band.value);
              (x.Number? || x.Null? || x.Special? ==>
                 (Wanted(q, row) <==>
                    && (q.magMin.Some? ==> !x.Null? && (x.Number? ==> x.num >= q.magMin.value))
                    && (q.magMax.Some? ==> x.Number? && x.num <= q.magMax.value)))
  {
  }

  /** Which values compare with which columns. */
  lemma ComparableExactly(column: ColumnType, value: Bound)
    ensures Comparable(column, value) <==>
              || (column.IntegerColumn? && value.IntegerBound?)
              || (column.RealColumn? && (value.IntegerBound? || value.RealBound?))
              || (column.TextColumn? && value.TextBound?)
              || (column.FlagColumn? && value.FlagBound?)
  {
  }

  /** Does the row satisfy every condition of the WHERE clause but release and radius? */
  predicate AllHold(conditions: seq<QualityFilter>, row: Row) {
    forall c :: c in conditions ==> Meets(Cell(row, c.column), c.op, c.value)
  }

  /** The statement is built exactly for acceptable requests, and its conditions keep
      exactly the rows the caller wants. */
  method BuildStatement(schema: Schema, q: Request, release: nat) returns (r: Result<Statement, ConeError>)
    ensures r.Ok? <==> RequestOk(schema, q)
    ensures r.Ok? ==> forall row :: AllHold(r.value.conditions, row) <==> Wanted(q, row)
    ensures r.Ok? ==> r.value == Statement(release, q.ra.deg, q.dec.deg, q.radius, r.value.conditions, Named(q.orderBy), q.limit)
    ensures !CentreOk(q) ==> r == Err(BadCentre)
    ensures CentreOk(q) && q.limit < 0 ==> r == Err(BadLimit)
  {
    if !CentreOk(q) {
      return Err(BadCentre);
    }
    if q.limit < 0 {
      return Err(BadLimit);
    }
    var conditions: seq<QualityFilter> := [];
    if Named(q.band).Some? {
      var band := q.band.value;
      if band !in schema {
        return Err(UnknownBand);
      }
      if q.magMin.Some? {
        conditions := conditions + [QualityFilter(band, ">=", RealBound(q.magMin.value))];
      }
      if q.magMax.Some? {
        conditions := conditions + [QualityFilter(band, "<=", RealBound(q.magMax.value))];
      }
    }
    ghost var bounds := conditions;
    ghost var unfiltered := q.(filters := []);
    assert forall row :: AllHold(bounds, row) <==> Wanted(unfiltered, row);
    for i := 0 to |q.filters|
      invariant forall j :: 0 <= j < i ==> FilterOk(schema, q.filters[j])
      invariant conditions == bounds + q.filters[..i]
    {
      var clause := QualityClause(schema, q.filters[i]);
      if clause.Err? {
        return Err(clause.error);
      }
      conditions := conditions + [clause.value];
    }
    assert conditions == bounds + q.filters;
    forall row ensures AllHold(conditions, row) <==> Wanted(q, row) {
      assert AllHold(conditions, row) <==> AllHold(bounds, row) && AllHold(q.filters, row);
      assert Wanted(q, row) <==> Wanted(unfiltered, row) && AllHold(q.filters, row);
    }
    if Named(q.orderBy).Some? {
      var order := OrderByClause(schema, q.orderBy.value);
      if order.Err? {
        return Err(order.error);
      }
    }
    r := Ok(Statement(release, q.ra.deg, q.dec.deg, q.radius, conditions, Named(q.orderBy), q.limit));
  }

  /******* What the statement answers *******/

  predicate Selected(s: Statement, distance: Distance, row: Row) {
    distance(row, s.ra, s.dec) <= s.radius && AllHold(s.conditions, row)
  }

  /** Ascending, NaN above the numbers, NULLs last. */
  predicate ValueLeq(a: Value, b: Value) {
    b.Null? || (a.Number? && (!b.Number? || a.num <= b.num)) || (!a.Null? && !a.Number? && !b.Number?)
  }

  predicate RowLeq(s: Statement, distance: Distance, a: Row, b: Row) {
    if s.order.None? then distance(a, s.ra, s.dec) <= distance(b, s.ra, s.dec)
    else
      var x, y := Cell(a, s.order.value), Cell(b, s.order.value);
      ValueLeq(x, y) && (ValueLeq(y, x) ==> distance(a, s.ra, s.dec) <= distance(b, s.ra, s.dec))
  }

  /** `WHERE`, `ORDER BY` and `LIMIT` over the rows the family parent holds for the
      release: some sorting of the selected rows, cut. */
  ghost predicate IsAnswer(rows: seq<Row>, s: Statement, distance: Distance, answer: seq<Row>) {
    exists sorted: seq<Row> ::
      && multiset(sorted) == multiset(Filter((row: Row) => Selected(s, distance, row), rows))
      && Sorted((a: Row, b: Row) => RowLeq(s, distance, a, b), sorted)
      && answer == sorted[..if s.limit < |sorted| then s.limit else |sorted|]
  }

  /** The first `limit` of the wanted rows in the statement's order. */
  ghost predicate IsHeadOf(wanted: seq<Row>, s: Statement, distance: Distance, answer: seq<Row>) {
    IsHead((a: Row, b: Row) => RowLeq(s, distance, a, b), s.limit, wanted, answer)
  }

  lemma AnswerIsHead(rows: seq<Row>, s: Statement, distance: Distance, answer: seq<Row>)
    requires IsAnswer(rows, s, distance, answer)
    ensures IsHeadOf(Filter((row: Row) => Selected(s, distance, row), rows), s, distance, answer)
  {
    var wanted := Filter((row: Row) => Selected(s, distance, row), rows);
    var leq := (a: Row, b: Row) => RowLeq(s, distance, a, b);
    var sorted: seq<Row> :|
      && multiset(sorted) == multiset(wanted)
      && Sorted(leq, sorted)
      && answer == sorted[..if s.limit < |sorted| then s.limit else |sorted|];
    TakeIsHead(leq, s.limit, wanted, sorted);
  }

  /** What a statement over the rows of one whole import returns is the head of that
      import's wanted rows, rejected ones excepted. */
  lemma HeadOfImport(source: Option<Source>, s: Statement, distance: Distance, answer: seq<Row>)
    requires IsAnswer(if source.Some? then Accepted(source.value.rows) else [], s, distance, answer)
    ensures AnswersFrom(source, s, distance, answer)
  {
    AnswerIsHead(if source.Some? then Accepted(source.value.rows) else [], s, distance, answer);
    if source.Some? {
      FilterTwice((row: Row) => Selected(s, distance, row), Acceptable,
                  (row: Row) => Acceptable(row) && Selected(s, distance, row), source.value.rows);
    }
  }

  ghost predicate AnswersFrom(source: Option<Source>, s: Statement, distance: Distance, answer: seq<Row>) {
    if source.None? then answer == []
    else IsHeadOf(Filter((row: Row) => Acceptable(row) && Selected(s, distance, row), source.value.rows), s, distance, answer)
  }

  /** From source files to answer, over any run of the protocol: a cone search on a
      release returns the filter, sort and cut of the rows parsed from the last source
      whose swap committed for it, rejected rows excepted; and nothing before the first
      swap or after the partition is dropped. */
  lemma ConeServesLastImport(steps: seq<Step>, family: Family, s: Statement, distance: Distance, answer: seq<Row>)
    requires IsAnswer(FamilyRows(Exec(GENESIS, steps).store, family, s.release), s, distance, answer)
    ensures AnswersFrom(LastSource(GENESIS, steps, Partition(family, s.release)), s, distance, answer)
  {
    ParentHoldsLastSource(steps, family, s.release);
    HeadOfImport(LastSource(GENESIS, steps, Partition(family, s.release)), s, distance, answer);
  }

  /** The same for a default query through a shared reader, whatever its cache held and
      whoever wrote in between: the release was the family's active one at the query's
      recheck, and the answer comes from the one import of it that was being served
      when the SELECT ran. */
  lemma DefaultConeIsCurrent(ttl: real, events: seq<Reader.Event>, q: nat, s: Statement, distance: Distance, answer: seq<Row>)
    requires var w := Reader.Run(Reader.Opening(ttl), events);
             && q in w.queries && w.queries[q].Answered? && w.queries[q].reference.None?
             && s.release == w.queries[q].resolved.id
             && IsAnswer(w.queries[q].rows, s, distance, answer)
    ensures var query := Reader.Run(Reader.Opening(ttl), events).queries[q];
            && query.at < query.done < |events|
            && Reader.HeldActive(Reader.StoreAt(ttl, events, query.at), query.resolved)
            && var family := Reader.FamilyOf(query.resolved.slug).value;
               AnswersFrom(LastSource(GENESIS, Reader.Writes(events[..query.done]), Partition(family, s.release)),
                           s, distance, answer)
  {
    hide IsAnswer, AnswersFrom;
    var query := Reader.Run(Reader.Opening(ttl), events).queries[q];
    Reader.DefaultQueryUsesActive(ttl, events, q);
    Reader.AnswersAreWhole(ttl, events, q);
    Reader.FamilyNames(Reader.FamilyOf(query.resolved.slug).value);
    HeadOfImport(LastSource(GENESIS, Reader.Writes(events[..query.done]),
                            Partition(Reader.FamilyOf(query.resolved.slug).value, s.release)), s, distance, answer);
  }

  /******* What the order means *******/

  /** The rows of the import being served that a statement is about. */
  function WantedRows(source: Source, s: Statement, distance: Distance): seq<Row> {
    Filter((row: Row) => Acceptable(row) && Selected(s, distance, row), source.rows)
  }

  /** With an id and a position on the sphere, in the radius, and meeting every condition. */
  predicate IsWanted(s: Statement, distance: Distance, row: Row) {
    && !Verdicts.NoId(row) && Verdicts.InRange(row)
    && distance(row, s.ra, s.dec) <= s.radius
    && forall c :: c in s.conditions ==> Meets(Cell(row, c.column), c.op, c.value)
  }

  /** Over any run every row answered comes from the import being served: it was parsed
      from its source, has an id and a position in range, lies within the radius and
      meets every condition; and a row of that source that does all this is wanted. */
  lemma AnswersAreWanted(steps: seq<Step>, family: Family, s: Statement, distance: Distance, answer: seq<Row>, row: Row)
    requires IsAnswer(FamilyRows(Exec(GENESIS, steps).store, family, s.release), s, distance, answer)
    ensures var last := LastSource(GENESIS, steps, Partition(family, s.release));
            && (row in answer ==> last.Some? && row in last.value.rows && IsWanted(s, distance, row))
            && (last.Some? ==>
                  (row in WantedRows(last.value, s, distance) <==> row in last.value.rows && IsWanted(s, distance, row)))
            && (last.Some? ==> |answer| == (if s.limit < |WantedRows(last.value, s, distance)| then s.limit
                                            else |WantedRows(last.value, s, distance)|))
  {
    hide Exec, IsAnswer, FamilyRows, Meets;
    ConeServesLastImport(steps, family, s, distance, answer);
    Verdicts.AcceptableExactly(row);
    if row in answer {
      assert row in multiset(answer);
    }
  }

  /** Over any run, without an order the answer is nearest first: its separations ascend,
      and no wanted row of the import being served that is left out is nearer than one kept. */
  lemma NearestAreKept(steps: seq<Step>, family: Family, s: Statement, distance: Distance, answer: seq<Row>)
    requires IsAnswer(FamilyRows(Exec(GENESIS, steps).store, family, s.release), s, distance, answer)
    requires s.order.None?
    ensures forall row :: row in answer ==> IsWanted(s, distance, row)
    ensures forall i, j :: 0 <= i < j < |answer| ==> distance(answer[i], s.ra, s.dec) <= distance(answer[j], s.ra, s.dec)
    ensures var last := LastSource(GENESIS, steps, Partition(family, s.release));
            last.Some? ==>
              forall kept, left ::
                kept in answer && left in multiset(WantedRows(last.value, s, distance)) - multiset(answer) ==>
                  distance(kept, s.ra, s.dec) <= distance(left, s.ra, s.dec)
  {
    hide Exec, IsAnswer, FamilyRows, Selected, IsWanted;
    forall row | row in answer ensures IsWanted(s, distance, row) {
      AnswersAreWanted(steps, family, s, distance, answer, row);
    }
    ConeServesLastImport(steps, family, s, distance, answer);
    assert forall a, b :: RowLeq(s, distance, a, b) ==> distance(a, s.ra, s.dec) <= distance(b, s.ra, s.dec);
  }

  /** Over any run, ordering by a magnitude gives ascending values and keeps the brightest
      rows of the import being served: numbers before NaNs before NULLs, none left out
      belongs before one kept, and ties fall to the separation. */
  lemma BrightestAreKept(steps: seq<Step>, family: Family, s: Statement, distance: Distance, answer: seq<Row>)
    requires IsAnswer(FamilyRows(Exec(GENESIS, steps).store, family, s.release), s, distance, answer)
    requires s.order.Some?
    ensures forall i, j :: 0 <= i < j < |answer| ==> NoBrighter(s, distance, answer[i], answer[j])
    ensures var last := LastSource(GENESIS, steps, Partition(family, s.release));
            last.Some? ==>
              forall kept, left ::
                kept in answer && left in multiset(WantedRows(last.value, s, distance)) - multiset(answer) ==>
                  NoBrighter(s, distance, kept, left)
  {
    hide Exec, IsAnswer, FamilyRows, Selected, RowLeq, NoBrighter;
    ConeServesLastImport(steps, family, s, distance, answer);
    forall a, b | RowLeq(s, distance, a, b) ensures NoBrighter(s, distance, a, b) {
      LeqIsNoBrighter(s, distance, a, b);
    }
  }

  lemma LeqIsNoBrighter(s: Statement, distance: Distance, a: Row, b: Row)
    requires s.order.Some? && RowLeq(s, distance, a, b)
    ensures NoBrighter(s, distance, a, b)
  {
    hide Cell;
  }

  /** The second row is no brighter than the first, and no nearer when they are level. */
  predicate NoBrighter(s: Statement, distance: Distance, a: Row, b: Row)
    requires s.order.Some?
  {
    var x, y := Cell(a, s.order.value), Cell(b, s.order.value);
    && (x.Null? ==> y.Null?)
    && (y.Number? ==> x.Number? && x.num <= y.num)
    && (x == y ==> distance(a, s.ra, s.dec) <= distance(b, s.ra, s.dec))
  }

  lemma OrderIsTotal(s: Statement, distance: Distance)
    ensures TotalPreorder((a: Row, b: Row) => RowLeq(s, distance, a, b))
  {
  }

  /** Some answer meets the description of any statement over any rows. */
  lemma AnswerExists(rows: seq<Row>, s: Statement, distance: Distance)
    ensures exists answer :: IsAnswer(rows, s, distance, answer)
  {
    var leq := (a: Row, b: Row) => RowLeq(s, distance, a, b);
    var selected := Filter((row: Row) => Selected(s, distance, row), rows);
    OrderIsTotal(s, distance);
    SortSorts(leq, selected);
    SortPermutes(leq, selected);
    var sorted := Sort(leq, selected);
    assert IsAnswer(rows, s, distance, sorted[..if s.limit < |sorted| then s.limit else |sorted|]);
  }
}
