/** Which sources pass validation and with what status, said of their rows: what the
    checks, their levels and their order come to.

    Models `skycat/validation/common.py`, `skycat/validation/stetson.py` and
    `skycat/ingestion/runner.py:567-702`. */
module Verdicts {
  import opened Wrappers
  import opened Sequences
  import opened Validation
  import opened Registry
  import opened Protocol
  import opened Importer

  predicate NoId(row: Row) {
    row.nativeId == None || row.nativeId == Some("")
  }

  predicate InRange(row: Row) {
    row.ra.Degrees? && 0.0 <= row.ra.deg < 360.0 && row.dec.Degrees? && -90.0 <= row.dec.deg <= 90.0
  }

  predicate NoCluster(row: Row) {
    row.cluster == None || row.cluster == Some("")
  }

  /** A row reaches production exactly when it has an id and a position in range. */
  lemma AcceptableExactly(row: Row)
    ensures Acceptable(row) <==> !NoId(row) && InRange(row)
    ensures FirstReason(row) == Some(NullNativeId) <==> NoId(row)
    ensures LacksCluster(row) <==> NoCluster(row)
  {
  }

  /******* Counting marks *******/

  lemma ReasonsCounted(rows: seq<Row>, reason: Reason)
    ensures CountReason(MarkCommon(Fresh(rows)), reason) == 0 <==> forall row :: row in rows ==> FirstReason(row) != Some(reason)
  {
    var table := MarkCommon(Fresh(rows));
    MarkCommonClassifies(rows);
    CountsNothing(table, Some(reason));
    hide MarkCommon, CountMarked, Fresh;
    forall i | 0 <= i < |rows| ensures table[i] in table && rows[i] in rows {
    }
    if s :| s in table && s.reject == Some(reason) {
      var i :| 0 <= i < |table| && table[i] == s;
      assert rows[i] in rows && FirstReason(rows[i]) == Some(reason);
    }
  }

  lemma ClustersCounted(rows: seq<Row>)
    ensures CountReason(MarkFamily(Stetson, MarkCommon(Fresh(rows))), NullCluster) == 0
       <==> forall row :: row in rows && Acceptable(row) ==> !LacksCluster(row)
  {
    var common := MarkCommon(Fresh(rows));
    var final := Mark(common, LacksCluster, NullCluster);
    MarkCommonClassifies(rows);
    CountsNothing(final, Some(NullCluster));
    hide MarkCommon, CountMarked, Fresh;
    forall i | 0 <= i < |rows|
      ensures final[i] in final && rows[i] in rows
      ensures final[i].reject == Some(NullCluster) <==> Acceptable(rows[i]) && LacksCluster(rows[i])
    {
    }
    if s :| s in final && s.reject == Some(NullCluster) {
      var i :| 0 <= i < |final| && final[i] == s;
      assert rows[i] in rows && Acceptable(rows[i]) && LacksCluster(rows[i]);
    }
  }

  /******* Failing *******/

  predicate FailsCritically(checks: seq<Check>) {
    exists c :: c in checks && !c.passed && c.level == Critical
  }

  lemma FailsAppend(a: seq<Check>, b: seq<Check>)
    ensures FailsCritically(a + b) <==> FailsCritically(a) || FailsCritically(b)
  {
    assert forall c :: c in a + b <==> c in a || c in b;
  }

  lemma CommonFails(rows: seq<Row>)
    ensures FailsCritically(CommonChecks(MarkCommon(Fresh(rows)))) <==> exists row :: row in rows && NoId(row)
  {
    ReasonsCounted(rows, NullNativeId);
    hide MarkCommon, CountMarked, CountRejected, Fresh;
    var checks := CommonChecks(MarkCommon(Fresh(rows)));
    assert checks[0] in checks;
    assert forall c :: c in checks && c.level == Critical ==> c == checks[0];
    assert forall row :: FirstReason(row) == Some(NullNativeId) <==> NoId(row);
  }

  /** Staging fails exactly on a row without an id, for Stetson on an otherwise good row
      without a cluster, and on a critical check of the family's own. */
  lemma StagingFailsExactly(family: Family, rows: seq<Row>, others: seq<Check>)
    ensures Summarize(Stage(family, rows, others).checks) == FailedValidation
       <==> || (exists row :: row in rows && NoId(row))
            || (family == Stetson && exists row :: row in rows && InRange(row) && !NoId(row) && NoCluster(row))
            || FailsCritically(others)
  {
    var common := MarkCommon(Fresh(rows));
    var final := MarkFamily(family, common);
    CommonFails(rows);
    ClustersCounted(rows);
    hide MarkCommon, CountMarked, Fresh, CommonChecks;
    FailsAppend(CommonChecks(common), FamilyChecks(family, final, others));
    if family == Stetson {
      var own := [Check("stetson_cluster_present", Critical, CountReason(final, NullCluster) == 0)];
      assert own[0] in own;
      FailsAppend(own, others);
      assert forall row :: Acceptable(row) && LacksCluster(row) <==> InRange(row) && !NoId(row) && NoCluster(row);
    }
  }

  /** The share of rows that staging's common pass rejects. */
  function RejectShare(rows: seq<Row>): real {
    if rows == [] then 0.0 else (|rows| - |Accepted(rows)|) as real / |rows| as real
  }

  lemma CountsMean(rows: seq<Row>)
    ensures var table := MarkCommon(Fresh(rows));
            && (CountReason(table, NullNativeId) == 0 <==> forall row :: row in rows ==> !NoId(row))
            && (CountReason(table, RaOutOfRange) == 0 <==> forall row :: row in rows ==> NoId(row) || !BadRa(row))
            && (CountReason(table, DecOutOfRange) == 0 <==> forall row :: row in rows ==> NoId(row) || BadRa(row) || !BadDec(row))
            && (RejectRateOk(CountRejected(table), |table|) <==> RejectShare(rows) <= 0.2)
            && (CountValid(table) > 0 <==> Accepted(rows) != [])
  {
    var table := MarkCommon(Fresh(rows));
    MarkCommonClassifies(rows);
    ClassifiedUnrejected(rows, table);
    ReasonsPartition(table);
    ReasonsCounted(rows, NullNativeId);
    ReasonsCounted(rows, RaOutOfRange);
    ReasonsCounted(rows, DecOutOfRange);
    RateIsShare(CountRejected(table), |rows|);
    hide MarkCommon, CountMarked, CountRejected, Fresh, Accepted, RejectRateOk;
  }

  /** The checks recorded about any rows: every one has an id; every one with an id has its
      right ascension in range; and, that given, its declination; no more than a fifth is
      rejected; and some are not. The first is critical, the last is only noted. */
  lemma CommonChecksMean(rows: seq<Row>)
    ensures CommonChecks(MarkCommon(Fresh(rows))) ==
              [ Check("native_id_not_null", Critical, forall row :: row in rows ==> !NoId(row)),
                Check("ra_range", Warning, forall row :: row in rows ==> NoId(row) || !BadRa(row)),
                Check("dec_range", Warning, forall row :: row in rows ==> NoId(row) || BadRa(row) || !BadDec(row)),
                Check("reject_rate", Warning, RejectShare(rows) <= 0.2),
                Check("loaded_row_count", Info, Accepted(rows) != []) ]
  {
    hide MarkCommon, CountReason, CountValid, CountRejected, Fresh, Accepted, RejectRateOk, RejectShare, NoId, BadRa, BadDec;
    CountsMean(rows);
  }

  lemma RateIsShare(rejected: nat, total: nat)
    ensures total > 0 ==> (RejectRateOk(rejected, total) <==> rejected as real / total as real <= 0.2)
    ensures RejectRateOk(0, 0)
  {
    if total > 0 {
      var share := rejected as real / total as real;
      assert share * total as real == rejected as real;
      assert 5.0 * rejected as real == (5 * rejected) as real;
      if share <= 0.2 {
        assert share * total as real <= 0.2 * total as real;
      } else {
        assert share * total as real > 0.2 * total as real;
      }
    }
  }

  /** The checks of a built table: it has rows, and its index; and where a number is expected,
      and not 0, nine tenths of it, rounded down, are there. */
  lemma ProductionChecksMean(rows: seq<Row>, gist: bool, expected: Option<nat>)
    ensures ProductionChecks(rows, gist, expected) ==
              if expected == None || expected == Some(0)
              then [Check("production_rows", Critical, rows != []), Check("spatial_index_present", Critical, gist)]
              else [ Check("production_rows", Critical, rows != []),
                     Check("row_count_vs_expected", Warning, 10 * |rows| > 9 * expected.value - 10),
                     Check("spatial_index_present", Critical, gist) ]
  {
  }

  lemma ProductionFailsExactly(rows: seq<Row>, gist: bool, expected: Option<nat>)
    ensures Summarize(ProductionChecks(rows, gist, expected)) == FailedValidation <==> rows == [] || !gist
  {
    var checks := ProductionChecks(rows, gist, expected);
    assert checks[0] in checks && checks[|checks| - 1] in checks;
  }

  /** The range checks of a revalidation fail a partition exactly when it holds a row off the
      sphere. */
  lemma RangeFailsExactly(rows: seq<Row>)
    ensures Summarize(RangeChecks(rows)) == FailedValidation <==> exists row :: row in rows && !InRange(row)
    ensures Summarize(RangeChecks(rows)) != PassedWithWarnings
  {
    var checks := RangeChecks(rows);
    assert checks[0] in checks && checks[1] in checks;
    NoneCounted(BadRa, rows);
    NoneCounted(BadDec, rows);
    assert forall row :: InRange(row) <==> !BadRa(row) && !BadDec(row);
  }

  lemma NoneCounted(bad: Row -> bool, rows: seq<Row>)
    ensures Count(bad, rows) == 0 <==> forall row :: row in rows ==> !bad(row)
  {
    if Count(bad, rows) != 0 {
      assert Filter(bad, rows)[0] in Filter(bad, rows);
    }
  }

  /** A source passes validation exactly when every row has an id, every good Stetson row
      has a cluster, some row is good, the index was built, and no critical check of the
      family's own fails. */
  lemma SourcePassesExactly(req: Request, faults: Faults)
    ensures SourcePasses(req, faults) <==>
              && (forall row :: row in req.source.rows ==> !NoId(row))
              && (req.key.family == Stetson ==> forall row :: row in req.source.rows && InRange(row) ==> !NoCluster(row))
              && (exists row :: row in req.source.rows && InRange(row) && !NoId(row))
              && faults.indexed
              && !FailsCritically(faults.others)
  {
    var family, rows := req.key.family, req.source.rows;
    StagingFailsExactly(family, rows, faults.others);
    var s := Stage(family, rows, faults.others);
    hide Stage;
    if Summarize(s.checks) != FailedValidation {
      StageConserves(family, rows, faults.others);
      ProductionFailsExactly(Accepted(rows), faults.indexed, req.expected);
      SomeAccepted(rows);
    }
  }

  lemma SomeAccepted(rows: seq<Row>)
    ensures Accepted(rows) != [] <==> exists row :: row in rows && InRange(row) && !NoId(row)
  {
    if Accepted(rows) != [] {
      assert Accepted(rows)[0] in Accepted(rows);
    }
  }

  /** With nothing going wrong around it, and its source not already imported, an import
      raises exactly when it would replace an active release without both flags, or its
      source does not pass. */
  lemma DoomedExactly(was: Option<Release>, req: Request, faults: Faults)
    requires was.Some? ==> req.replace || was.value.checksum != Some(req.source.checksum)
    ensures Doomed(was, req, faults) <==>
              || (was.Some? && was.value.state == Active && !(req.replace && req.force))
              || (exists row :: row in req.source.rows && NoId(row))
              || (req.key.family == Stetson && exists row :: row in req.source.rows && InRange(row) && NoCluster(row))
              || (forall row :: row in req.source.rows ==> !InRange(row) || NoId(row))
              || !faults.indexed
              || FailsCritically(faults.others)
  {
    hide SourcePasses;
    SourcePassesExactly(req, faults);
  }

  /******* Warning *******/

  predicate FailsMildly(checks: seq<Check>) {
    exists c :: c in checks && !c.passed && c.level == Warning
  }

  lemma MildAppend(a: seq<Check>, b: seq<Check>)
    ensures FailsMildly(a + b) <==> FailsMildly(a) || FailsMildly(b)
  {
    assert forall c :: c in a + b <==> c in a || c in b;
  }

  lemma {:induction false} NothingRejected(table: seq<StagedRow>)
    ensures CountRejected(table) == 0 <==> forall s :: s in table ==> s.reject.None?
  {
    if table != [] {
      NothingRejected(table[1..]);
      assert table == [table[0]] + table[1..];
    }
  }

  /** With an id on every row, staging warns exactly on a row out of range: the rate check
      adds nothing, since a rejected row already warns. */
  lemma CommonWarns(rows: seq<Row>)
    requires forall row :: row in rows ==> !NoId(row)
    ensures FailsMildly(CommonChecks(MarkCommon(Fresh(rows)))) <==> exists row :: row in rows && !InRange(row)
  {
    var common := MarkCommon(Fresh(rows));
    ReasonsCounted(rows, RaOutOfRange);
    ReasonsCounted(rows, DecOutOfRange);
    MarkCommonClassifies(rows);
    NothingRejected(common);
    hide MarkCommon, CountMarked, CountRejected, Fresh;
    var checks := CommonChecks(common);
    assert checks[1] in checks && checks[2] in checks && checks[3] in checks;
    assert forall c :: c in checks && c.level == Warning ==> c == checks[1] || c == checks[2] || c == checks[3];
    assert forall row :: !NoId(row) ==>
        (FirstReason(row) == Some(RaOutOfRange) || FirstReason(row) == Some(DecOutOfRange) <==> !InRange(row));
    assert forall row :: !NoId(row) && InRange(row) ==> FirstReason(row).None?;
    if forall row :: row in rows ==> InRange(row) {
      forall s | s in common ensures s.reject.None? {
        var i :| 0 <= i < |common| && common[i] == s;
        assert rows[i] in rows;
      }
    }
  }

  lemma ProductionWarns(rows: seq<Row>, gist: bool, expected: Option<nat>)
    ensures FailsMildly(ProductionChecks(rows, gist, expected))
       <==> expected.Some? && expected.value != 0 && 10 * |rows| + 10 <= 9 * expected.value
  {
    var checks := ProductionChecks(rows, gist, expected);
    if expected.Some? && expected.value != 0 {
      assert checks[1] in checks;
    }
  }

  lemma FamilyWarns(family: Family, table: seq<StagedRow>, others: seq<Check>)
    ensures FailsMildly(FamilyChecks(family, table, others)) <==> FailsMildly(others)
  {
    if family == Stetson {
      var own := [Check("stetson_cluster_present", Critical, CountReason(table, NullCluster) == 0)];
      MildAppend(own, others);
      assert FamilyChecks(family, table, others) == own + others;
    }
  }

  lemma SummaryExactly(checks: seq<Check>)
    ensures Summarize(checks) == if FailsCritically(checks) then FailedValidation
                                 else if FailsMildly(checks) then PassedWithWarnings else Passed
  {
  }

  /** A source that passes does so without a warning exactly when every row is in range,
      no warning of the family's own fails, and at least nine tenths, rounded down, of the
      expected rows are there. */
  lemma StatusExactly(req: Request, faults: Faults)
    requires SourcePasses(req, faults)
    ensures FinalStatus(req, faults) ==
              if || (exists row :: row in req.source.rows && !InRange(row))
                 || FailsMildly(faults.others)
                 || (req.expected.Some? && req.expected.value != 0
                     && 10 * |Accepted(req.source.rows)| + 10 <= 9 * req.expected.value)
              then PassedWithWarnings else Passed
  {
    var family, rows := req.key.family, req.source.rows;
    var common := MarkCommon(Fresh(rows));
    var final := MarkFamily(family, common);
    var staged := CommonChecks(common) + FamilyChecks(family, final, faults.others);
    var built := ProductionChecks(Accepted(rows), faults.indexed, req.expected);
    SourcePassesExactly(req, faults);
    StageConserves(family, rows, faults.others);
    CommonWarns(rows);
    FamilyWarns(family, final, faults.others);
    ProductionWarns(Accepted(rows), faults.indexed, req.expected);
    hide MarkCommon, Fresh, CommonChecks, FamilyChecks, ProductionChecks, Accepted, Summarize, FailsMildly, FailsCritically;
    MildAppend(CommonChecks(common), FamilyChecks(family, final, faults.others));
    MildAppend(staged, built);
    SummarizeAppend(staged, built);
    SummaryExactly(staged);
    SummaryExactly(built);
    SummaryExactly(staged + built);
  }
}
