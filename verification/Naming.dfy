/** The names the swap relies on: the partition and incoming tables of any two
    releases of any two families are different strings, and none is a family parent,
    so a name stands for exactly one `TableName`.

    Models `skycat/ingestion/runner.py:154-155` and `skycat/ingestion/runner.py:623-625`. */
module Naming {
  import opened Validation
  import opened Registry
  import opened PythonText
  import Reader

  function PartitionName(table: string, id: nat): string {
    table + "_r" + Decimal(id)
  }

  function Render(t: TableName): string {
    match t
    case Partition(family, id) => PartitionName(Reader.DataTable(family), id)
    case Incoming(family, id) => PartitionName(Reader.DataTable(family), id) + "_incoming"
  }

  lemma FamilyTablesDiffer(f: Family, g: Family)
    ensures Reader.DataTable(f)[0] == Reader.DataTable(g)[0] ==> f == g
  {
  }

  lemma PartitionNameInjective(f: Family, i: nat, g: Family, j: nat)
    requires PartitionName(Reader.DataTable(f), i) == PartitionName(Reader.DataTable(g), j)
    ensures f == g && i == j
  {
    var name := PartitionName(Reader.DataTable(f), i);
    assert name[0] == Reader.DataTable(f)[0] && name[0] == Reader.DataTable(g)[0];
    FamilyTablesDiffer(f, g);
    var k := |Reader.DataTable(f)| + 2;
    assert name[k..] == Decimal(i) && name[k..] == Decimal(j);
    DigitsRoundTrip(i);
    DigitsRoundTrip(j);
  }

  lemma LastCharacter(t: TableName)
    ensures var name := Render(t);
            |name| > 0 && (t.Partition? <==> IsDigit(name[|name| - 1]))
            && (t.Incoming? ==> name[|name| - 1] == 'g')
  {
  }

  /** Distinct table names render to distinct strings. */
  lemma NamesNeverCollide(t: TableName, u: TableName)
    ensures Render(t) == Render(u) <==> t == u
  {
    if Render(t) == Render(u) {
      LastCharacter(t);
      LastCharacter(u);
      if t.Incoming? {
        assert Render(t)[..|Render(t)| - 9] == PartitionName(Reader.DataTable(t.family), t.id);
        assert Render(u)[..|Render(u)| - 9] == PartitionName(Reader.DataTable(u.family), u.id);
      }
      PartitionNameInjective(t.family, t.id, u.family, u.id);
    }
  }

  /** Nor does any of them name a family's parent table. */
  lemma NoNameIsAParent(t: TableName, family: Family)
    ensures Render(t) != Reader.DataTable(family)
  {
    var parent := Reader.DataTable(family);
    assert parent[|parent| - 1] == 'e';
    LastCharacter(t);
  }

  /** The names of one release, as they stand in the database. */
  lemma NamesRead()
    ensures Render(Partition(Vsx, 17)) == "vsx_source_r17"
    ensures Render(Incoming(Vsx, 17)) == "vsx_source_r17_incoming"
    ensures Reader.DataTable(Apass) == "apass_source" && Reader.DataTable(Landolt) == "landolt_source"
    ensures Reader.DataTable(Stetson) == "stetson_source"
  {
    assert Decimal(17) == "17";
  }
}
