/** Staging and production validation: the first-match rejection of rows, the
    checks recorded about them, and what the checks imply for production.

    Models `skycat/validation/common.py` and the rejecting part of
    `skycat/validation/stetson.py`. A family's other checks only count rows, so
    they enter as a parameter. */
module Validation {
  import opened Wrappers
  import opened Sequences

  /** The four catalog families that ship with an importer. */
  datatype Family = Apass | Vsx | Landolt | Stetson

  /** A `double precision` column: NULL, a NaN or an infinity, or a number. SQL
      sorts NaN above every number, so every non-finite value fails a range check. */
  datatype Coord = NoCoord | NotFinite | Degrees(deg: real)

  datatype Value = Null | Number(num: real) | Special | Text(text: string) | Flag(flag: bool)

  datatype Row = Row(
    nativeId: Option<string>,
    cluster: Option<string>,
    ra: Coord,
    dec: Coord,
    columns: map<string, Value>)

  datatype Reason = NullNativeId | RaOutOfRange | DecOutOfRange | NullCluster

  datatype StagedRow = StagedRow(row: Row, reject: Option<Reason>)

  datatype Level = Info | Warning | Critical

  datatype Check = Check(name: string, level: Level, passed: bool)

  datatype ValidationStatus = NotRun | Passed | PassedWithWarnings | FailedValidation

  /******* Summaries *******/

  function Summarize(checks: seq<Check>): (status: ValidationStatus)
    ensures status != NotRun
  {
    if exists c :: c in checks && !c.passed && c.level == Critical then FailedValidation
    else if exists c :: c in checks && !c.passed && c.level == Warning then PassedWithWarnings
    else Passed
  }

  /** Validated, and not failed. */
  predicate Good(status: ValidationStatus) {
    status == Passed || status == PassedWithWarnings
  }

  function Worse(a: ValidationStatus, b: ValidationStatus): ValidationStatus {
    if a == FailedValidation || b == FailedValidation then FailedValidation
    else if a == PassedWithWarnings || b == PassedWithWarnings then PassedWithWarnings
    else Passed
  }

  lemma SummarizeAppend(a: seq<Check>, b: seq<Check>)
    ensures Summarize(a + b) == Worse(Summarize(a), Summarize(b))
  {
  }

  /******* Row predicates *******/

  predicate LacksId(row: Row) {
    row.nativeId.None? || row.nativeId.value == ""
  }

  predicate BadRa(row: Row) {
    !row.ra.Degrees? || row.ra.deg < 0.0 || row.ra.deg >= 360.0
  }

  predicate BadDec(row: Row) {
    !row.dec.Degrees? || row.dec.deg < -90.0 || row.dec.deg > 90.0
  }

  predicate LacksCluster(row: Row) {
    row.cluster.None? || row.cluster.value == ""
  }

  /** The classification the rejection pass is meant to implement. */
  function FirstReason(row: Row): Option<Reason> {
    if LacksId(row) then Some(NullNativeId)
    else if BadRa(row) then Some(RaOutOfRange)
    else if BadDec(row) then Some(DecOutOfRange)
    else None
  }

  predicate Acceptable(row: Row) {
    FirstReason(row).None?
  }

  /** The rows of a source that may reach production. */
  function Accepted(rows: seq<Row>): seq<Row> {
    Filter(Acceptable, rows)
  }

  /******* The staging table *******/

  function MarkRow(s: StagedRow, bad: Row -> bool, reason: Reason): StagedRow {
    if s.reject.None? && bad(s.row) then s.(reject := Some(reason)) else s
  }

  /** `UPDATE staging SET reject_reason = reason WHERE reject_reason IS NULL AND bad`. */
  function Mark(table: seq<StagedRow>, bad: Row -> bool, reason: Reason): (t: seq<StagedRow>)
    ensures |t| == |table|
  {
    seq(|table|, i requires 0 <= i < |table| => MarkRow(table[i], bad, reason))
  }

  function MarkCommon(table: seq<StagedRow>): (t: seq<StagedRow>)
    ensures |t| == |table|
  {
    Mark(Mark(Mark(table, LacksId, NullNativeId), BadRa, RaOutOfRange), BadDec, DecOutOfRange)
  }

  function MarkFamily(family: Family, table: seq<StagedRow>): (t: seq<StagedRow>)
    ensures |t| == |table|
  {
    if family == Stetson then Mark(table, LacksCluster, NullCluster) else table
  }

  /** What COPY leaves behind: every row, none marked. */
  function Fresh(rows: seq<Row>): (t: seq<StagedRow>)
    ensures |t| == |rows|
  {
    seq(|rows|, i requires 0 <= i < |rows| => StagedRow(rows[i], None))
  }

  /** `SELECT count(*) ... WHERE reject_reason IS NOT DISTINCT FROM mark`. */
  function CountMarked(table: seq<StagedRow>, mark: Option<Reason>): nat {
    if table == [] then 0
    else (if table[0].reject == mark then 1 else 0) + CountMarked(table[1..], mark)
  }

  function CountReason(table: seq<StagedRow>, reason: Reason): nat {
    CountMarked(table, Some(reason))
  }

  function CountValid(table: seq<StagedRow>): nat {
    CountMarked(table, None)
  }

  function CountRejected(table: seq<StagedRow>): nat {
    if table == [] then 0
    else (if table[0].reject.Some? then 1 else 0) + CountRejected(table[1..])
  }

  /** The rows `INSERT ... SELECT ... WHERE reject_reason IS NULL` copies. */
  function Unrejected(table: seq<StagedRow>): seq<Row> {
    if table == [] then []
    else (if table[0].reject.None? then [table[0].row] else []) + Unrejected(table[1..])
  }

  /** `rejected / total <= 0.2`, where an empty table has rate zero. */
  predicate RejectRateOk(rejected: nat, total: nat) {
    5 * rejected <= total
  }

  /** The checks recorded once the common marks are in place. */
  function CommonChecks(table: seq<StagedRow>): seq<Check> {
    [ Check("native_id_not_null", Critical, CountReason(table, NullNativeId) == 0),
      Check("ra_range", Warning, CountReason(table, RaOutOfRange) == 0),
      Check("dec_range", Warning, CountReason(table, DecOutOfRange) == 0),
      Check("reject_rate", Warning, RejectRateOk(CountRejected(table), |table|)),
      Check("loaded_row_count", Info, CountValid(table) > 0) ]
  }

  function FamilyChecks(family: Family, table: seq<StagedRow>, others: seq<Check>): seq<Check> {
    if family == Stetson
    then [Check("stetson_cluster_present", Critical, CountReason(table, NullCluster) == 0)] + others
    else others
  }

  datatype Staging = Staging(table: seq<StagedRow>, checks: seq<Check>, rejected: nat)

  /** Phase A: `rejected` is counted before the family pass marks anything. */
  function Stage(family: Family, rows: seq<Row>, others: seq<Check>): Staging {
    var common := MarkCommon(Fresh(rows));
    var final := MarkFamily(family, common);
    Staging(final, CommonChecks(common) + FamilyChecks(family, final, others), CountRejected(common))
  }

  /******* Rejection is a first-match classifier *******/

  lemma MarkCommonClassifies(rows: seq<Row>)
    ensures forall i :: 0 <= i < |rows| ==> MarkCommon(Fresh(rows))[i] == StagedRow(rows[i], FirstReason(rows[i]))
  {
  }

  /** Re-running the pass over any table it has marked changes nothing. */
  lemma MarkCommonIdempotent(table: seq<StagedRow>)
    ensures MarkCommon(MarkCommon(table)) == MarkCommon(table)
  {
  }

  lemma {:induction false} ReasonsPartition(table: seq<StagedRow>)
    requires forall s :: s in table && s.reject.Some? ==> s.reject.value != NullCluster
    ensures CountRejected(table)
         == CountReason(table, NullNativeId) + CountReason(table, RaOutOfRange) + CountReason(table, DecOutOfRange)
    ensures CountRejected(table) + CountValid(table) == |table|
  {
    if table != [] {
      var mark := table[0].reject;
      assert mark.None? || mark.value in {NullNativeId, RaOutOfRange, DecOutOfRange};
      assert forall reason ::
          CountReason(table, reason) == (if mark == Some(reason) then 1 else 0) + CountReason(table[1..], reason);
      ReasonsPartition(table[1..]);
    }
  }

  /** On a freshly copied table each row carries the first reason that applies,
      and the per-reason counts add up to the rejected count. */
  lemma RejectionIsFirstMatch(rows: seq<Row>)
    ensures var t := MarkCommon(Fresh(rows));
            && (forall i :: 0 <= i < |rows| ==> t[i] == StagedRow(rows[i], FirstReason(rows[i])))
            && CountRejected(t)
               == CountReason(t, NullNativeId) + CountReason(t, RaOutOfRange) + CountReason(t, DecOutOfRange)
            && MarkCommon(t) == t
  {
    MarkCommonClassifies(rows);
    ReasonsPartition(MarkCommon(Fresh(rows)));
    MarkCommonIdempotent(Fresh(rows));
  }

  /******* Conservation *******/

  lemma {:induction false} ClassifiedUnrejected(rows: seq<Row>, table: seq<StagedRow>)
    requires |table| == |rows|
    requires forall i :: 0 <= i < |rows| ==> table[i] == StagedRow(rows[i], FirstReason(rows[i]))
    ensures Unrejected(table) == Accepted(rows)
    ensures CountRejected(table) + |Accepted(rows)| == |rows|
  {
    if rows != [] {
      ClassifiedUnrejected(rows[1..], table[1..]);
    }
  }

  lemma {:induction false} CountMarkedPositive(table: seq<StagedRow>, i: nat)
    requires i < |table|
    ensures CountMarked(table, table[i].reject) > 0
  {
    if i > 0 {
      CountMarkedPositive(table[1..], i - 1);
    }
  }

  lemma {:induction false} CountsNothing(table: seq<StagedRow>, mark: Option<Reason>)
    ensures CountMarked(table, mark) == 0 <==> forall s :: s in table ==> s.reject != mark
  {
    if table != [] {
      CountsNothing(table[1..], mark);
      assert table == [table[0]] + table[1..];
    }
  }

  lemma NoneMarked(table: seq<StagedRow>, bad: Row -> bool, reason: Reason)
    requires CountReason(Mark(table, bad, reason), reason) == 0
    ensures Mark(table, bad, reason) == table
    ensures forall s :: s in table && s.reject.None? ==> !bad(s.row)
  {
    var marked := Mark(table, bad, reason);
    forall i | 0 <= i < |table| ensures marked[i] == table[i] && (table[i].reject.None? ==> !bad(table[i].row)) {
      CountMarkedPositive(marked, i);
    }
  }

  /** Whenever Phase A does not fail, production receives exactly the acceptable
      rows and nothing is lost: parsed = imported + rejected. For Stetson the
      second rejection pass, whose rejects are not in the returned count, is then
      empty because its check is critical. */
  lemma StageConserves(family: Family, rows: seq<Row>, others: seq<Check>)
    requires Summarize(Stage(family, rows, others).checks) != FailedValidation
    ensures var s := Stage(family, rows, others);
            && Unrejected(s.table) == Accepted(rows)
            && |Unrejected(s.table)| + s.rejected == |rows|
            && (family == Stetson ==> forall row :: row in Accepted(rows) ==> !LacksCluster(row))
  {
    var common := MarkCommon(Fresh(rows));
    var final := MarkFamily(family, common);
    MarkCommonClassifies(rows);
    ClassifiedUnrejected(rows, common);
    if family == Stetson {
      var check := Check("stetson_cluster_present", Critical, CountReason(final, NullCluster) == 0);
      assert Stage(family, rows, others).checks[5] == check;
      assert check in Stage(family, rows, others).checks;
      NoneMarked(common, LacksCluster, NullCluster);
      forall row | row in Accepted(rows) ensures !LacksCluster(row) {
        var i :| 0 <= i < |rows| && rows[i] == row;
        assert common[i] in common;
      }
    }
  }

  /******* Production *******/

  /** `int(expected * 0.9)` over exact numbers. */
  function RowFloor(expected: nat): nat {
    expected * 9 / 10
  }

  function ProductionChecks(rows: seq<Row>, gist: bool, expected: Option<nat>): seq<Check> {
    [Check("production_rows", Critical, |rows| > 0)]
    + (if expected.Some? && expected.value != 0
       then [Check("row_count_vs_expected", Warning, |rows| >= RowFloor(expected.value))]
       else [])
    + [Check("spatial_index_present", Critical, gist)]
  }

  /** The two range counts `revalidate_release` adds. */
  function RangeChecks(rows: seq<Row>): seq<Check> {
    [ Check("production_ra_range", Critical, Count(BadRa, rows) == 0),
      Check("production_dec_range", Critical, Count(BadDec, rows) == 0) ]
  }

  /** Every row of a runner-built partition has an id and coordinates in range, so
      the range checks of a later revalidation can only pass, and revalidating a
      non-empty indexed partition never fails it. */
  lemma RevalidationPasses(rows: seq<Row>, gist: bool, expected: Option<nat>)
    ensures forall row :: row in Accepted(rows) ==> !LacksId(row) && !BadRa(row) && !BadDec(row)
    ensures forall c :: c in RangeChecks(Accepted(rows)) ==> c.passed
    ensures Summarize(ProductionChecks(Accepted(rows), gist, expected) + RangeChecks(Accepted(rows)))
         == Summarize(ProductionChecks(Accepted(rows), gist, expected))
  {
    FilterNone(BadRa, Accepted(rows));
    FilterNone(BadDec, Accepted(rows));
    SummarizeAppend(ProductionChecks(Accepted(rows), gist, expected), RangeChecks(Accepted(rows)));
  }
}
