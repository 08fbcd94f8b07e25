/** From source files to production: parsing and importing put together. */
module Pipeline {
  import opened Validation
  import opened Registry
  import opened Protocol
  import opened Importer
  import opened PythonText
  import opened Verdicts
  import Cone
  import Crossmatch
  import Parsers

  /** A successful import of what a parser read accounts for every line of every
      file: skipped, malformed, rejected in staging, or served from production. */
  lemma EveryLineAccountedFor(format: Parsers.Format, float: FloatParser, files: seq<seq<string>>,
                              wasActive: bool, after: Store, id: nat, req: Request, faults: Faults, report: Report)
    requires Parsers.NoneRaises(format, float, Parsers.Lines(files))
    requires req.source.rows == Parsers.Account(format, float, Parsers.Lines(files)).rows
    requires IsImported(wasActive, after, id, req, faults, report)
    ensures var t := Parsers.Account(format, float, Parsers.Lines(files));
            |Parsers.Lines(files)| == t.skipped + |t.lost| + report.rejected + |FamilyRows(after, req.key.family, id)|
  {
    Parsers.EveryLineCounts(format, float, Parsers.Lines(files));
  }

  lemma {:induction false} RowsComeFromLines(format: Parsers.Format, float: FloatParser, lines: seq<Parsers.Line>, row: Row)
    requires row in Parsers.Account(format, float, lines).rows
    ensures exists line :: line in lines && Parsers.Judge(format, float, line) == Parsers.Parsed(row)
  {
    hide Parsers.Judge;
    var init := lines[..|lines| - 1];
    var last := lines[|lines| - 1];
    if row in Parsers.Account(format, float, init).rows {
      RowsComeFromLines(format, float, init, row);
      var line :| line in init && Parsers.Judge(format, float, line) == Parsers.Parsed(row);
      assert line in lines;
    } else {
      assert Parsers.Judge(format, float, last) == Parsers.Parsed(row);
      assert last in lines;
    }
  }

  /** Nothing is served that no file says: every row the family parent holds after an
      import is what the parser made of some line, with an id and a position in range. */
  lemma ServedRowsWereRead(format: Parsers.Format, float: FloatParser, files: seq<seq<string>>,
                           wasActive: bool, after: Store, id: nat, req: Request, faults: Faults, report: Report, row: Row)
    requires req.source.rows == Parsers.Account(format, float, Parsers.Lines(files)).rows
    requires IsImported(wasActive, after, id, req, faults, report)
    requires row in FamilyRows(after, req.key.family, id)
    ensures exists line :: line in Parsers.Lines(files) && Parsers.Judge(format, float, line) == Parsers.Parsed(row)
    ensures !NoId(row) && InRange(row)
  {
    RowsComeFromLines(format, float, Parsers.Lines(files), row);
  }

  /** Staging, crossmatch and cone search agree on what a position is: right ascension from 0
      to below 360 degrees and declination from -90 to 90. So every row served can itself be
      asked for. */
  lemma PositionsAgree(row: Row, id: string, q: Cone.Request)
    requires q.ra == row.ra && q.dec == row.dec
    ensures !BadRa(row) && !BadDec(row) <==> InRange(row)
    ensures Crossmatch.Usable(Crossmatch.Input(id, row.ra, row.dec)) <==> InRange(row)
    ensures Cone.CentreOk(q) <==> InRange(row)
    ensures Acceptable(row) ==> Crossmatch.Usable(Crossmatch.Input(id, row.ra, row.dec)) && Cone.CentreOk(q)
  {
  }
}
