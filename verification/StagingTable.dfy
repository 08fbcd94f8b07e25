/** Phase A on its staging table: COPY and the guarded UPDATEs, statement by
    statement, with the counts taken where the code takes them.

    Models `skycat/ingestion/copy_loader.py:54-75`,
    `skycat/validation/common.py:51-97` and `skycat/validation/stetson.py:27-38`. */
module StagingTable {
  import opened Wrappers
  import opened Validation

  /** Later marks leave the rows that carry another reason as they are. */
  lemma {:induction false} MarkKeepsCount(table: seq<StagedRow>, bad: Row -> bool, reason: Reason, other: Reason)
    requires reason != other
    ensures CountReason(Mark(table, bad, reason), other) == CountReason(table, other)
  {
    if table != [] {
      assert Mark(table, bad, reason)[1..] == Mark(table[1..], bad, reason);
      MarkKeepsCount(table[1..], bad, reason, other);
    }
  }

  lemma {:induction false} ValidAndRejected(table: seq<StagedRow>)
    ensures CountValid(table) + CountRejected(table) == |table|
  {
    if table != [] {
      ValidAndRejected(table[1..]);
    }
  }

  class StageTable {
    var rows: seq<StagedRow>

    /** `CREATE UNLOGGED TABLE` after `DROP TABLE IF EXISTS`. */
    constructor ()
      ensures rows == []
    {
      rows := [];
    }

    method CopyRows(source: seq<Row>) returns (count: nat)
      requires rows == []
      modifies this
      ensures rows == Fresh(source) && count == |source|
    {
      count := 0;
      while count < |source|
        invariant count <= |source|
        invariant rows == Fresh(source[..count])
      {
        rows := rows + [StagedRow(source[count], None)];
        count := count + 1;
      }
      assert source[..count] == source;
    }

    method Update(bad: Row -> bool, reason: Reason) returns (count: nat)
      modifies this
      ensures rows == Mark(old(rows), bad, reason)
      ensures count == CountReason(rows, reason)
    {
      rows := Mark(rows, bad, reason);
      count := CountReason(rows, reason);
    }

    /** The checks come out as they would if counted on the finished table. */
    method ValidateCommon() returns (checks: seq<Check>, valid: nat, rejected: nat)
      modifies this
      ensures rows == MarkCommon(old(rows))
      ensures checks == CommonChecks(rows)
      ensures valid == CountValid(rows) && rejected == CountRejected(rows)
      ensures valid + rejected == |rows|
    {
      var nullIds := Update(LacksId, NullNativeId);
      checks := [Check("native_id_not_null", Critical, nullIds == 0)];
      MarkKeepsCount(rows, BadRa, RaOutOfRange, NullNativeId);
      var badRa := Update(BadRa, RaOutOfRange);
      checks := checks + [Check("ra_range", Warning, badRa == 0)];
      MarkKeepsCount(rows, BadDec, DecOutOfRange, NullNativeId);
      MarkKeepsCount(rows, BadDec, DecOutOfRange, RaOutOfRange);
      var badDec := Update(BadDec, DecOutOfRange);
      checks := checks + [Check("dec_range", Warning, badDec == 0)];
      valid, rejected := CountValid(rows), CountRejected(rows);
      ValidAndRejected(rows);
      checks := checks + [Check("reject_rate", Warning, RejectRateOk(rejected, valid + rejected))];
      checks := checks + [Check("loaded_row_count", Info, valid > 0)];
    }

    method ValidateFamily(family: Family, others: seq<Check>) returns (checks: seq<Check>)
      modifies this
      ensures rows == MarkFamily(family, old(rows))
      ensures checks == FamilyChecks(family, rows, others)
    {
      checks := others;
      if family == Stetson {
        var nullCluster := Update(LacksCluster, NullCluster);
        checks := [Check("stetson_cluster_present", Critical, nullCluster == 0)] + others;
      }
    }

    /** Phase A: parsed rows in, a classified table and its checks out. */
    method Load(family: Family, source: seq<Row>, others: seq<Check>)
      returns (loaded: nat, checks: seq<Check>, rejected: nat)
      requires rows == []
      modifies this
      ensures loaded == |source|
      ensures Staging(rows, checks, rejected) == Stage(family, source, others)
    {
      var valid, more;
      loaded := CopyRows(source);
      checks, valid, rejected := ValidateCommon();
      more := ValidateFamily(family, others);
      checks := checks + more;
    }
  }
}
