/** The five streaming parsers: what each makes of one line, and the accounting of a
    whole run over any number of files.

    Models `skycat/ingestion/parsers/base.py`, `apass.py`, `landolt.py`, `stetson.py`
    and `vsx.py`. */
module Parsers {
  import opened Wrappers
  import opened Validation
  import opened PythonText
  import opened FixedWidth
  import opened Sexagesimal

  datatype Format = ApassDr6 | ApassDr10 | VsxDat | Landolt1992 | Landolt2009 | StetsonGlobs

  /** What one line comes to. `Raises` is an exception the parser does not catch; it
      ends the import. */
  datatype Verdict = Skip | Malformed | Parsed(row: Row) | Raises

  /******* Values *******/

  /** `to_float`: blank and unreadable are NULL, and with the sentinel so is anything
      from 90 up. */
  function ToFloat(float: FloatParser, token: string, sentinel: bool): Value {
    var t := Strip(token);
    if t == "" then Null
    else match float(t)
      case NotAFloat => Null
      case Finite(r) => if sentinel && r >= 90.0 then Null else Number(r)
      case Infinite(positive) => if sentinel && positive then Null else Special
      case NaN => Special
  }

  /** `to_int`. `None` is the `OverflowError` of `int(float("inf"))`, which the code
      does not catch. */
  function ToInt(float: FloatParser, token: string): Option<Value> {
    var t := Strip(token);
    if t == "" then Some(Null)
    else match ParseInt(t)
      case Some(n) => Some(Number(n as real))
      case None =>
        match float(t)
        case Finite(r) => Some(Number(Truncate(r) as real))
        case Infinite(_) => None
        case _ => Some(Null)
  }

  /** Is this a count the parser chokes on: an infinity spelled out? */
  predicate Overflows(float: FloatParser, token: string) {
    var t := Strip(token);
    t != "" && ParseInt(t).None? && float(t).Infinite?
  }

  function ToText(token: string): Value {
    if Strip(token) == "" then Null else Text(Strip(token))
  }

  function ToCoord(f: Float): Coord {
    if f.Finite? then Degrees(f.r) else NotFinite
  }

  datatype Kind = Plain | Sentinel | Whole | Words

  /** A column filled from one cell of the line. */
  datatype Column = Column(name: string, cell: nat, kind: Kind)

  function CellValue(float: FloatParser, token: string, kind: Kind): Option<Value> {
    match kind
    case Plain => Some(ToFloat(float, token, false))
    case Sentinel => Some(ToFloat(float, token, true))
    case Whole => ToInt(float, token)
    case Words => Some(ToText(token))
  }

  /** The columns in order, or `None` when one raises. */
  function Fill(float: FloatParser, cells: seq<string>, columns: seq<Column>): Option<map<string, Value>> {
    if columns == [] then Some(map[])
    else
      var c := columns[|columns| - 1];
      var before := Fill(float, cells, columns[..|columns| - 1]);
      var value := CellValue(float, if c.cell < |cells| then cells[c.cell] else "", c.kind);
      if before.Some? && value.Some? then Some(before.value[c.name := value.value]) else None
  }

  /** Columns of the five files by cell; `extra.` marks a key of the JSON column. */
  function ColumnsOf(format: Format): seq<Column> {
    match format
    case ApassDr6 =>
      [ Column("ra_err_arcsec", 2, Plain), Column("dec_err_arcsec", 4, Plain), Column("n_obs_total", 5, Whole),
        Column("extra.mobs", 6, Whole),
        Column("johnson_v_mag", 7, Sentinel), Column("extra.b_minus_v_mag", 8, Sentinel),
        Column("johnson_b_mag", 9, Sentinel), Column("sloan_g_mag", 10, Sentinel),
        Column("sloan_r_mag", 11, Sentinel), Column("sloan_i_mag", 12, Sentinel),
        Column("johnson_v_err_mag", 13, Sentinel), Column("extra.b_minus_v_err_mag", 14, Sentinel),
        Column("johnson_b_err_mag", 15, Sentinel), Column("sloan_g_err_mag", 16, Sentinel),
        Column("sloan_r_err_mag", 17, Sentinel), Column("sloan_i_err_mag", 18, Sentinel) ]
    case ApassDr10 =>
      [ Column("ra_err_arcsec", 2, Plain), Column("dec_err_arcsec", 4, Plain),
        Column("extra.nobs.B", 5, Whole), Column("extra.nobs.V", 6, Whole), Column("extra.nobs.u", 7, Whole),
        Column("extra.nobs.g", 8, Whole), Column("extra.nobs.r", 9, Whole), Column("extra.nobs.i", 10, Whole),
        Column("extra.nobs.z", 11, Whole), Column("extra.nobs.Y", 12, Whole),
        Column("johnson_b_mag", 13, Sentinel), Column("johnson_v_mag", 14, Sentinel), Column("sloan_u_mag", 15, Sentinel),
        Column("sloan_g_mag", 16, Sentinel), Column("sloan_r_mag", 17, Sentinel), Column("sloan_i_mag", 18, Sentinel),
        Column("sloan_z_mag", 19, Sentinel), Column("y_mag", 20, Sentinel),
        Column("johnson_b_err_mag", 21, Sentinel), Column("johnson_v_err_mag", 22, Sentinel),
        Column("sloan_u_err_mag", 23, Sentinel), Column("sloan_g_err_mag", 24, Sentinel),
        Column("sloan_r_err_mag", 25, Sentinel), Column("sloan_i_err_mag", 26, Sentinel),
        Column("sloan_z_err_mag", 27, Sentinel), Column("y_err_mag", 28, Sentinel) ]
    case VsxDat =>
      [ Column("name", 1, Words), Column("var_type", 5, Words), Column("extra.l_max", 6, Words),
        Column("max_mag", 7, Plain), Column("extra.u_max", 8, Words), Column("max_passband", 9, Words),
        Column("extra.f_min", 10, Words), Column("extra.l_min", 11, Words), Column("extra.u_min", 13, Words),
        Column("min_passband", 14, Words), Column("epoch_hjd", 15, Plain), Column("extra.u_epoch", 16, Words),
        Column("extra.l_period", 17, Words), Column("period_days", 18, Plain), Column("extra.u_period", 19, Words),
        Column("spectral_type", 20, Words) ]
    case StetsonGlobs =>
      [ Column("extra.xpos_arcsec", 2, Plain), Column("extra.ypos_arcsec", 3, Plain),
        Column("johnson_u_mag", 4, Plain), Column("johnson_u_err_mag", 5, Plain), Column("n_obs_u", 6, Whole),
        Column("johnson_b_mag", 7, Plain), Column("johnson_b_err_mag", 8, Plain), Column("n_obs_b", 9, Whole),
        Column("johnson_v_mag", 10, Plain), Column("johnson_v_err_mag", 11, Plain), Column("n_obs_v", 12, Whole),
        Column("cousins_r_mag", 13, Plain), Column("cousins_r_err_mag", 14, Plain), Column("n_obs_r", 15, Whole),
        Column("cousins_i_mag", 16, Plain), Column("cousins_i_err_mag", 17, Plain), Column("n_obs_i", 18, Whole),
        Column("chi", 19, Plain), Column("sharp", 20, Plain),
        Column("variability_index", 21, Plain), Column("variability_weight", 22, Plain) ]
    case _ =>
      [ Column("johnson_v_mag", 7, Plain), Column("b_minus_v_mag", 8, Plain), Column("u_minus_b_mag", 9, Plain),
        Column("v_minus_r_mag", 10, Plain), Column("r_minus_i_mag", 11, Plain), Column("v_minus_i_mag", 12, Plain),
        Column("johnson_v_err_mag", 15, Plain), Column("b_minus_v_err_mag", 16, Plain),
        Column("u_minus_b_err_mag", 17, Plain), Column("v_minus_r_err_mag", 18, Plain),
        Column("r_minus_i_err_mag", 19, Plain), Column("v_minus_i_err_mag", 20, Plain),
        Column("n_obs", 13, Whole), Column("n_nights", 14, Whole) ]
  }

  function Finish(row: Row, columns: Option<map<string, Value>>): Verdict {
    if columns.None? then Raises else Parsed(row.(columns := columns.value + row.columns))
  }

  /******* The formats *******/

  function JudgeSplit(format: Format, float: FloatParser, cells: seq<string>, needed: nat): Verdict
    requires needed >= 4
  {
    if |cells| < needed || float(cells[1]).NotAFloat? || float(cells[3]).NotAFloat? then Malformed
    else Finish(Row(Some(cells[0]), None, ToCoord(float(cells[1])), ToCoord(float(cells[3])), map[]),
                Fill(float, cells, ColumnsOf(format)))
  }

  function JudgeDr6(float: FloatParser, line: string): Verdict {
    var left := StripLeft(line);
    if line == "" || (left != "" && left[0] == '#') then Skip
    else JudgeSplit(ApassDr6, float, Split(line), 19)
  }

  predicate IsDr10Header(token: string, firstLine: bool)
    requires token != ""
  {
    token == "APASS" || (firstLine && !IsDigit(token[0]))
  }

  function JudgeDr10(float: FloatParser, line: string, firstLine: bool): Verdict {
    var cells := Split(line);
    if cells == [] then Skip
    else
      assert cells[0] in cells;
      if IsDr10Header(cells[0], firstLine) then Skip
      else JudgeSplit(ApassDr10, float, cells, 29)
  }

  /** A digit to `str.isdigit` that `int` refuses: a latin-1 superscript. */
  predicate IsSuperscript(c: char) {
    c as int == 178 || c as int == 179 || c as int == 185
  }

  function VsxFlag(cell: string): Option<Value> {
    if |cell| == 1 && IsSuperscript(cell[0]) then None
    else if |cell| == 1 && IsDigit(cell[0]) then Some(Number(DigitValue(cell[0]) as real))
    else Some(Null)
  }

  /** `min` is a magnitude unless an opening parenthesis marks it as an amplitude. */
  function VsxMin(float: FloatParser, cells: seq<string>): map<string, Value>
    requires |cells| == 21
  {
    var min := ToFloat(float, cells[12], false);
    if cells[10] == "(" then map["min_is_amplitude" := Flag(true), "amplitude_mag" := min, "min_mag" := Null]
    else map["min_is_amplitude" := Flag(false), "amplitude_mag" := Null, "min_mag" := min]
  }

  function JudgeVsxCells(float: FloatParser, cells: seq<string>): Verdict
    requires |cells| == 21
  {
    var oid, ra, dec := ParseInt(cells[0]), float(cells[3]), float(cells[4]);
    if oid.None? || ra.NotAFloat? || dec.NotAFloat? then Malformed
    else
      var flag := VsxFlag(cells[2]);
      if flag.None? then Raises
      else
        var own := VsxMin(float, cells)["vsx_oid" := Number(oid.value as real)]["var_flag" := flag.value];
        Finish(Row(Some(DecimalInt(oid.value)), None, ToCoord(ra), ToCoord(dec), own), Fill(float, cells, ColumnsOf(VsxDat)))
  }

  function JudgeVsx(float: FloatParser, line: string): Verdict {
    if |line| < VsxLayout().minLen then (if Strip(line) == "" then Skip else Malformed)
    else JudgeVsxCells(float, Slices(VsxLayout(), line))
  }

  function JudgeLandoltCells(format: Format, float: FloatParser, cells: seq<string>, sign: char): Verdict
    requires |cells| == 21
  {
    if cells[0] == "" then Malformed
    else match LandoltCoords(float, cells[1], cells[2], cells[3], sign, cells[4], cells[5], cells[6])
      case None => Malformed
      case Some(p) => Finish(Row(Some(cells[0]), None, p.ra, p.dec, map[]), Fill(float, cells, ColumnsOf(format)))
  }

  function LandoltLayout(format: Format): Layout {
    if format == Landolt1992 then Landolt1992Layout() else Landolt2009Layout()
  }

  function JudgeLandolt(format: Format, float: FloatParser, line: string): Verdict {
    var layout := LandoltLayout(format);
    if Strip(line) == "" then Skip
    else if |line| < layout.minLen then Malformed
    else JudgeLandoltCells(format, float, Slices(layout, line), line[layout.sign - 1])
  }

  function JudgeStetson(float: FloatParser, line: string): Verdict {
    var cells := SplitOn(line, '|');
    if Strip(line) == "" then Skip
    else if |cells| != 24 then Malformed
    else
      var cluster, star := Strip(cells[0]), Strip(cells[1]);
      if cluster == "" || star == "" then Malformed
      else
        var number, position := ParseInt(star), StetsonRadec(float, cells[23]);
        if number.None? || position.None? then Malformed
        else Finish(Row(Some(DecimalInt(number.value)), Some(cluster), position.value.ra, position.value.dec, map[]),
                    Fill(float, cells, ColumnsOf(StetsonGlobs)))
  }

  /** A line, and its number within its file. */
  datatype Line = Line(number: nat, text: string)

  function Judge(format: Format, float: FloatParser, line: Line): Verdict {
    match format
    case ApassDr6 => JudgeDr6(float, line.text)
    case ApassDr10 => JudgeDr10(float, line.text, line.number == 0)
    case VsxDat => JudgeVsx(float, line.text)
    case StetsonGlobs => JudgeStetson(float, line.text)
    case _ => JudgeLandolt(format, float, line.text)
  }

  /******* Which lines go uncounted *******/

  function FirstWord(text: string): string {
    if Split(text) == [] then "" else Split(text)[0]
  }

  lemma CellsAreNotSkipped(format: Format, float: FloatParser, cells: seq<string>, needed: nat, sign: char)
    ensures needed >= 4 ==> !JudgeSplit(format, float, cells, needed).Skip?
    ensures |cells| == 21 ==> !JudgeVsxCells(float, cells).Skip? && !JudgeLandoltCells(format, float, cells, sign).Skip?
  {
    hide ColumnsOf, Fill, LandoltCoords, ParseInt, VsxMin;
  }

  lemma Dr10Skips(float: FloatParser, text: string, firstLine: bool)
    ensures JudgeDr10(float, text, firstLine).Skip? <==>
              || Blank(text)
              || FirstWord(text) == "APASS"
              || (firstLine && FirstWord(text) != "" && !IsDigit(FirstWord(text)[0]))
  {
    SplitBlank(text);
    CellsAreNotSkipped(ApassDr10, float, Split(text), 29, ' ');
    hide JudgeSplit, Blank;
  }

  lemma StetsonSkips(float: FloatParser, text: string)
    ensures JudgeStetson(float, text).Skip? <==> Blank(text)
  {
    StripBlank(text);
    hide ColumnsOf, Fill, StetsonRadec, ParseInt, Strip, SplitOn, Blank;
  }

  /** Only blank lines, DR6 comments and DR10 headers are skipped; in DR6 a line of
      spaces is not blank enough. */
  lemma OnlyTheseAreSkipped(format: Format, float: FloatParser, line: Line)
    ensures Judge(format, float, line).Skip? <==>
              match format
              case ApassDr6 => line.text == "" || (StripLeft(line.text) != "" && StripLeft(line.text)[0] == '#')
              case ApassDr10 =>
                || Blank(line.text)
                || FirstWord(line.text) == "APASS"
                || (line.number == 0 && FirstWord(line.text) != "" && !IsDigit(FirstWord(line.text)[0]))
              case VsxDat => Blank(line.text) && |line.text| < 61
              case _ => Blank(line.text)
  {
    var text := line.text;
    hide JudgeSplit, JudgeVsxCells, JudgeLandoltCells, JudgeDr10, JudgeStetson, Strip, StripLeft, Split, Slice, Blank, FirstWord;
    match format
    case ApassDr6 => CellsAreNotSkipped(format, float, Split(text), 19, ' ');
    case ApassDr10 => Dr10Skips(float, text, line.number == 0);
    case StetsonGlobs => StetsonSkips(float, text);
    case VsxDat =>
      StripBlank(text);
      CellsAreNotSkipped(format, float, Slices(VsxLayout(), text), 4, ' ');
    case _ =>
      StripBlank(text);
      var layout := LandoltLayout(format);
      if |text| >= layout.minLen {
        CellsAreNotSkipped(format, float, Slices(layout, text), 4, text[layout.sign - 1]);
      }
  }

  /** A blank line of a DR6 file is skipped only if it is empty: whitespace, the
      carriage return of a foreign line ending included, counts as malformed. */
  lemma SpacesAreMalformedInDr6(float: FloatParser, line: Line)
    requires Blank(line.text)
    ensures Judge(ApassDr6, float, line) == if line.text == "" then Skip else Malformed
  {
    StripLeftBlank(line.text);
    SplitBlank(line.text);
  }

  /******* Which lines end the import *******/

  function Token(cells: seq<string>, c: Column): string {
    if c.cell < |cells| then cells[c.cell] else ""
  }

  predicate CountOverflows(format: Format, float: FloatParser, cells: seq<string>) {
    exists c :: c in ColumnsOf(format) && c.kind == Whole && Overflows(float, Token(cells, c))
  }

  lemma {:induction false} FillRaises(float: FloatParser, cells: seq<string>, columns: seq<Column>)
    ensures Fill(float, cells, columns).None? <==>
              exists c :: c in columns && c.kind == Whole && Overflows(float, Token(cells, c))
  {
    hide Strip, ParseInt, ToFloat, ToText;
    if columns != [] {
      var init := columns[..|columns| - 1];
      FillRaises(float, cells, init);
      assert columns == init + [columns[|columns| - 1]];
    }
  }

  function CellsOf(format: Format, text: string): seq<string> {
    match format
    case ApassDr6 => Split(text)
    case ApassDr10 => Split(text)
    case VsxDat => Slices(VsxLayout(), text)
    case StetsonGlobs => SplitOn(text, '|')
    case _ => Slices(LandoltLayout(format), text)
  }

  /** A line that is neither skipped nor malformed raises exactly when one of its
      counts is written as an infinity, or its VSX variability flag is a superscript
      digit; otherwise it yields a row. */
  lemma RaisesExactly(format: Format, float: FloatParser, line: Line)
    requires !Judge(format, float, line).Skip? && !Judge(format, float, line).Malformed?
    ensures var cells := CellsOf(format, line.text);
            Judge(format, float, line).Raises? <==>
              || CountOverflows(format, float, cells)
              || (format == VsxDat && |cells[2]| == 1 && IsSuperscript(cells[2][0]))
  {
    hide ColumnsOf, Split, SplitOn, Slices, StetsonRadec, LandoltCoords, ParseInt, Strip;
    FillRaises(float, CellsOf(format, line.text), ColumnsOf(format));
  }

  /******* Where the values of a row come from *******/

  /** Blank and unreadable cells are NULL, never 0, and in a sentinel column so is
      everything from 90 up; nothing else is. */
  lemma NullExactly(float: FloatParser, token: string, sentinel: bool)
    ensures var f := float(Strip(token));
            ToFloat(float, token, sentinel).Null? <==>
              || Blank(token)
              || f.NotAFloat?
              || (sentinel && ((f.Finite? && f.r >= 90.0) || f == Infinite(true)))
    ensures !Blank(token) && float(Strip(token)).Finite? && !ToFloat(float, token, sentinel).Null? ==>
              ToFloat(float, token, sentinel) == Number(float(Strip(token)).r)
  {
    StripBlank(token);
  }

  lemma {:induction false} FillOrigin(float: FloatParser, cells: seq<string>, columns: seq<Column>, name: string)
    requires Fill(float, cells, columns).Some?
    ensures var m := Fill(float, cells, columns).value;
            name in m <==> exists c :: c in columns && c.name == name
    ensures var m := Fill(float, cells, columns).value;
            name in m ==> exists c :: c in columns && c.name == name && CellValue(float, Token(cells, c), c.kind) == Some(m[name])
  {
    hide CellValue;
    if columns != [] {
      var init := columns[..|columns| - 1];
      FillOrigin(float, cells, init, name);
      assert columns == init + [columns[|columns| - 1]];
    }
  }

  /** Every value of a parsed row was read from a cell of its line, in the way its
      column is read; and every column of the format is there. VSX adds five columns
      of its own. */
  lemma ValuesComeFromCells(format: Format, float: FloatParser, line: Line, name: string)
    requires Judge(format, float, line).Parsed?
    requires name !in {"vsx_oid", "var_flag", "min_is_amplitude", "amplitude_mag", "min_mag"}
    ensures var row := Judge(format, float, line).row;
            && (name in row.columns <==> exists c :: c in ColumnsOf(format) && c.name == name)
            && (name in row.columns ==>
                  exists c :: c in ColumnsOf(format) && c.name == name
                           && CellValue(float, Token(CellsOf(format, line.text), c), c.kind) == Some(row.columns[name]))
  {
    hide ColumnsOf, Split, SplitOn, Slices, StetsonRadec, LandoltCoords, ParseInt, Strip, CellValue;
    FillOrigin(float, CellsOf(format, line.text), ColumnsOf(format), name);
  }

  /******* The accounting of a run *******/

  function LinesOf(file: seq<string>): (lines: seq<Line>)
    ensures |lines| == |file|
  {
    seq(|file|, i requires 0 <= i < |file| => Line(i, file[i]))
  }

  /** All lines of all files, in order. */
  function Lines(files: seq<seq<string>>): seq<Line> {
    if files == [] then [] else Lines(files[..|files| - 1]) + LinesOf(files[|files| - 1])
  }

  datatype Outcome = Outcome(rows: seq<Row>, lost: seq<string>, skipped: nat)

  function AddVerdict(t: Outcome, v: Verdict, text: string): Outcome {
    match v
    case Skip => t.(skipped := t.skipped + 1)
    case Malformed => t.(lost := t.lost + [text])
    case Parsed(row) => t.(rows := t.rows + [row])
    case Raises => t
  }

  /** What the lines come to: rows yielded, lines lost, lines passed over. */
  function Account(format: Format, float: FloatParser, lines: seq<Line>): Outcome {
    if lines == [] then Outcome([], [], 0)
    else
      var line := lines[|lines| - 1];
      AddVerdict(Account(format, float, lines[..|lines| - 1]), Judge(format, float, line), line.text)
  }

  predicate NoneRaises(format: Format, float: FloatParser, lines: seq<Line>) {
    forall line :: line in lines ==> !Judge(format, float, line).Raises?
  }

  /** Every line is yielded as a row, counted as malformed or skipped. */
  lemma {:induction false} EveryLineCounts(format: Format, float: FloatParser, lines: seq<Line>)
    requires NoneRaises(format, float, lines)
    ensures var t := Account(format, float, lines); |t.rows| + |t.lost| + t.skipped == |lines|
  {
    hide Judge;
    if lines != [] {
      var init := lines[..|lines| - 1];
      assert lines[|lines| - 1] in lines;
      assert forall line :: line in init ==> line in lines;
      EveryLineCounts(format, float, init);
    }
  }

  function Shortened(lines: seq<string>): (r: seq<string>)
    ensures |r| == |lines|
  {
    seq(|lines|, i requires 0 <= i < |lines| => if |lines[i]| > 200 then lines[i][..200] else lines[i])
  }

  /** The examples kept of the malformed lines: the first twenty, cut to 200 characters. */
  function Examples(lost: seq<string>): Option<seq<string>> {
    if lost == [] then None else Some(Shortened(lost[..if |lost| < 20 then |lost| else 20]))
  }

  class ParseStats {
    var parsed: nat
    var malformed: nat
    var malformedExamples: Option<seq<string>>
    ghost var lost: seq<string>

    ghost predicate Valid()
      reads this
    {
      malformed == |lost| && malformedExamples == Examples(lost)
    }

    constructor ()
      ensures Valid() && parsed == 0 && lost == []
    {
      parsed, malformed, malformedExamples := 0, 0, None;
      lost := [];
    }

    method RecordMalformed(line: string)
      requires Valid()
      modifies this`malformed, this`malformedExamples, this`lost
      ensures Valid() && lost == old(lost) + [line]
    {
      malformed := malformed + 1;
      var examples := if malformedExamples.None? then [] else malformedExamples.value;
      if |examples| < 20 {
        examples := examples + [if |line| > 200 then line[..200] else line];
      }
      malformedExamples := Some(examples);
      lost := lost + [line];
      assert examples == Shortened(lost[..if |lost| < 20 then |lost| else 20]);
    }
  }

  lemma AccountOne(format: Format, float: FloatParser, lines: seq<Line>, line: Line)
    ensures Account(format, float, lines + [line])
         == AddVerdict(Account(format, float, lines), Judge(format, float, line), line.text)
  {
    hide Judge, AddVerdict;
    assert (lines + [line])[..|lines + [line]| - 1] == lines;
  }

  /** The statistics and the rows yielded so far agree with the lines read so far. */
  ghost predicate Accounts(format: Format, float: FloatParser, lines: seq<Line>, rows: seq<Row>, stats: ParseStats)
    reads stats
  {
    && NoneRaises(format, float, lines)
    && stats.Valid()
    && rows == Account(format, float, lines).rows
    && stats.lost == Account(format, float, lines).lost
    && stats.parsed == |rows|
  }

  /** One line of the loop. */
  method TakeLine(format: Format, float: FloatParser, line: Line, stats: ParseStats, rows: seq<Row>, ghost before: seq<Line>)
    returns (ok: bool, more: seq<Row>)
    requires Accounts(format, float, before, rows, stats)
    modifies stats
    ensures ok <==> !Judge(format, float, line).Raises?
    ensures Accounts(format, float, if ok then before + [line] else before, more, stats)
  {
    hide Judge, Account;
    more := rows;
    AccountOne(format, float, before, line);
    match Judge(format, float, line) {
      case Raises => return false, rows;
      case Skip =>
      case Malformed => stats.RecordMalformed(line.text);
      case Parsed(row) =>
        stats.parsed := stats.parsed + 1;
        more := rows + [row];
    }
    ok := true;
  }

  method IterFile(format: Format, float: FloatParser, file: seq<string>, stats: ParseStats, rows: seq<Row>, ghost before: seq<Line>)
    returns (ok: bool, more: seq<Row>, ghost n: nat)
    requires Accounts(format, float, before, rows, stats)
    modifies stats
    ensures n <= |file| && Accounts(format, float, before + LinesOf(file)[..n], more, stats)
    ensures if ok then n == |file| else n < |file| && Judge(format, float, LinesOf(file)[n]).Raises?
  {
    hide Judge, Account, NoneRaises;
    more, n := rows, 0;
    assert before + LinesOf(file)[..0] == before;
    for j := 0 to |file|
      invariant n == j && Accounts(format, float, before + LinesOf(file)[..j], more, stats)
    {
      ok, more := TakeLine(format, float, Line(j, file[j]), stats, more, before + LinesOf(file)[..j]);
      if !ok {
        return false, more, n;
      }
      assert before + LinesOf(file)[..j + 1] == before + LinesOf(file)[..j] + [Line(j, file[j])];
      n := j + 1;
    }
    ok := true;
  }

  /** Runs a parser over its files. The statistics say what became of the lines, the
      rows are those of the parsed ones in order; an uncaught exception stops the run
      at the first line that raises. */
  method IterRows(format: Format, float: FloatParser, files: seq<seq<string>>, stats: ParseStats)
    returns (ok: bool, rows: seq<Row>, ghost done: nat)
    requires stats.Valid() && stats.parsed == 0 && stats.lost == []
    modifies stats
    ensures ok <==> NoneRaises(format, float, Lines(files))
    ensures if ok then done == |Lines(files)|
            else done < |Lines(files)| && Judge(format, float, Lines(files)[done]).Raises?
    ensures NoneRaises(format, float, Lines(files)[..done])
    ensures var t := Account(format, float, Lines(files)[..done]);
            && rows == t.rows && stats.parsed == |rows|
            && stats.malformed == |t.lost| && stats.malformedExamples == Examples(t.lost)
            && stats.parsed + stats.malformed + t.skipped == done
  {
    hide Judge, Account, Examples, Lines, LinesOf, NoneRaises, Accounts, ParseStats.Valid;
    rows, done := [], 0;
    NothingRead(format, float, files, stats);
    for i := 0 to |files|
      invariant Accounts(format, float, Lines(files[..i]), rows, stats)
    {
      ghost var n;
      ok, rows, n := IterFile(format, float, files[i], stats, rows, Lines(files[..i]));
      if !ok {
        done := LinesUpTo(files, i, n);
        OneRaises(format, float, Lines(files), done);
        Totals(format, float, Lines(files)[..done], rows, stats);
        return;
      }
      FileDone(files, i);
    }
    ok, done := true, |Lines(files)|;
    assert files[..|files|] == files && Lines(files)[..done] == Lines(files);
    Totals(format, float, Lines(files), rows, stats);
  }

  lemma NothingRead(format: Format, float: FloatParser, files: seq<seq<string>>, stats: ParseStats)
    requires stats.Valid() && stats.parsed == 0 && stats.lost == []
    ensures Accounts(format, float, Lines(files[..0]), [], stats)
  {
    assert Lines(files[..0]) == [];
  }

  lemma Totals(format: Format, float: FloatParser, lines: seq<Line>, rows: seq<Row>, stats: ParseStats)
    requires Accounts(format, float, lines, rows, stats)
    ensures var t := Account(format, float, lines);
            && rows == t.rows && stats.parsed == |rows|
            && stats.malformed == |t.lost| && stats.malformedExamples == Examples(t.lost)
            && stats.parsed + stats.malformed + t.skipped == |lines|
    ensures NoneRaises(format, float, lines) && stats.Valid()
  {
    EveryLineCounts(format, float, lines);
  }

  lemma OneRaises(format: Format, float: FloatParser, lines: seq<Line>, k: nat)
    requires k < |lines| && Judge(format, float, lines[k]).Raises?
    ensures !NoneRaises(format, float, lines)
  {
    assert lines[k] in lines;
  }

  lemma {:induction false} LinesPrefix(files: seq<seq<string>>, i: nat)
    requires i <= |files|
    ensures |Lines(files[..i])| <= |Lines(files)| && Lines(files)[..|Lines(files[..i])|] == Lines(files[..i])
  {
    if i == |files| {
      assert files[..i] == files;
    } else {
      var init := files[..|files| - 1];
      LinesPrefix(init, i);
      assert init[..i] == files[..i];
    }
  }

  /** How many lines stand before line `n` of file `i`. */
  lemma LinesUpTo(files: seq<seq<string>>, i: nat, n: nat) returns (k: nat)
    requires i < |files| && n < |files[i]|
    ensures k < |Lines(files)|
    ensures Lines(files)[..k] == Lines(files[..i]) + LinesOf(files[i])[..n]
    ensures Lines(files)[k] == LinesOf(files[i])[n]
  {
    FileDone(files, i);
    LinesPrefix(files, i + 1);
    k := |Lines(files[..i])| + n;
    var upTo := Lines(files[..i + 1]);
    assert upTo[..k] == Lines(files[..i]) + LinesOf(files[i])[..n];
    assert Lines(files)[..|upTo|][..k] == Lines(files)[..k];
  }

  lemma FileDone(files: seq<seq<string>>, i: nat)
    requires i < |files|
    ensures Lines(files[..i + 1]) == Lines(files[..i]) + LinesOf(files[i])
    ensures LinesOf(files[i])[..|files[i]|] == LinesOf(files[i])
  {
    var upTo := files[..i + 1];
    assert upTo[..|upTo| - 1] == files[..i];
  }

  /******* Rendered records read back *******/

  lemma {:induction false} CutOfBlank(line: string, f: Field)
    requires Blank(line)
    ensures Slice(line, f) == ""
  {
    StripBlank(Cut(line, f));
  }

  /** A Landolt record written into its layout is judged by its fields and sign alone:
      the padding, the gaps and the width of the line do not matter. */
  lemma LandoltReadsBack(format: Format, float: FloatParser, values: seq<Filled>, sign: char, width: nat, number: nat)
    requires format == Landolt1992 || format == Landolt2009
    requires var layout := LandoltLayout(format);
             AllFit(layout, values) && forall f :: f in layout.fields ==> f.end <= width
    requires values[0].text != ""
    ensures var line := Render(LandoltLayout(format), values, sign, width);
            Judge(format, float, Line(number, line)) == JudgeLandoltCells(format, float, Texts(values), sign)
  {
    hide JudgeLandoltCells;
    var layout := LandoltLayout(format);
    var line := Render(layout, values, sign, width);
    LayoutsOk(layout);
    RecordRoundTrip(layout, values, sign, width);
    RenderSliceRoundTrip(layout, values, sign, width, 0);
    assert layout.fields[layout.last] in layout.fields;
    StripBlank(line);
    if Blank(line) {
      CutOfBlank(line, layout.fields[0]);
    }
  }

  /** The same for VSX. */
  lemma VsxReadsBack(float: FloatParser, values: seq<Filled>, width: nat, number: nat)
    requires AllFit(VsxLayout(), values) && forall f :: f in VsxLayout().fields ==> f.end <= width
    ensures Judge(VsxDat, float, Line(number, Render(VsxLayout(), values, ' ', width)))
         == JudgeVsxCells(float, Texts(values))
  {
    hide JudgeVsxCells;
    LayoutsOk(VsxLayout());
    RecordRoundTrip(VsxLayout(), values, ' ', width);
    assert VsxLayout().fields[VsxLayout().last] in VsxLayout().fields;
  }

  /** From star to staging: a Landolt record with a name, in-range sexagesimal fields
      and readable counts is parsed, to the exact coordinates, and never rejected. */
  lemma LandoltStarIsAccepted(format: Format, float: FloatParser, values: seq<Filled>, sign: char, width: nat, number: nat)
    requires format == Landolt1992 || format == Landolt2009
    requires var layout := LandoltLayout(format);
             AllFit(layout, values) && forall f :: f in layout.fields ==> f.end <= width
    requires var t := Texts(values);
             && t[0] != ""
             && ParseInt(t[1]).Some? && ParseInt(t[2]).Some? && float(t[3]).Finite?
             && RaFieldsOk(ParseInt(t[1]).value, ParseInt(t[2]).value, float(t[3]).r)
             && ParseInt(t[4]).Some? && ParseInt(t[5]).Some? && float(t[6]).Finite?
             && DecFieldsOk(Abs(ParseInt(t[4]).value), ParseInt(t[5]).value, float(t[6]).r)
             && !CountOverflows(format, float, t)
    ensures var t := Texts(values);
            var v := Judge(format, float, Line(number, Render(LandoltLayout(format), values, sign, width)));
            && v.Parsed?
            && v.row.nativeId == Some(t[0])
            && v.row.ra == Degrees(RaDegrees(ParseInt(t[1]).value, ParseInt(t[2]).value, float(t[3]).r))
            && v.row.dec == Degrees(DecDegrees(sign == '-', Abs(ParseInt(t[4]).value), ParseInt(t[5]).value, float(t[6]).r))
            && Acceptable(v.row)
  {
    hide ColumnsOf, LandoltCoords, ParseInt;
    var t := Texts(values);
    LandoltReadsBack(format, float, values, sign, width, number);
    InRangeIsAccepted(float, t[1], t[2], t[3], sign, t[4], t[5], t[6]);
    FillRaises(float, t, ColumnsOf(format));
  }

  /******* Two records that end an import *******/

  /** A superscript two as variability flag: a digit to `isdigit`, not to `int`. */
  lemma SuperscriptFlagRaises(float: FloatParser, values: seq<Filled>, width: nat, number: nat)
    requires AllFit(VsxLayout(), values) && forall f :: f in VsxLayout().fields ==> f.end <= width
    requires ParseInt(values[0].text).Some? && !float(values[3].text).NotAFloat? && !float(values[4].text).NotAFloat?
    requires values[2].text == [178 as char]
    ensures Judge(VsxDat, float, Line(number, Render(VsxLayout(), values, ' ', width))).Raises?
  {
    VsxReadsBack(float, values, width, number);
  }

  /** An infinite observation count in an otherwise good Landolt record. */
  lemma InfiniteCountRaises(format: Format, float: FloatParser, values: seq<Filled>, sign: char, width: nat, number: nat)
    requires format == Landolt1992 || format == Landolt2009
    requires var layout := LandoltLayout(format);
             AllFit(layout, values) && forall f :: f in layout.fields ==> f.end <= width
    requires var t := Texts(values);
             t[0] != "" && LandoltCoords(float, t[1], t[2], t[3], sign, t[4], t[5], t[6]).Some? && t[13] == "inf"
    requires float("inf").Infinite?
    ensures Judge(format, float, Line(number, Render(LandoltLayout(format), values, sign, width))).Raises?
  {
    hide LandoltCoords, ColumnsOf, Overflows;
    var t := Texts(values);
    LandoltReadsBack(format, float, values, sign, width, number);
    InfinityOverflows(float);
    NobsIsACount(format);
    FillRaises(float, t, ColumnsOf(format));
    assert Overflows(float, Token(t, Column("n_obs", 13, Whole)));
  }

  lemma InfinityOverflows(float: FloatParser)
    requires float("inf").Infinite?
    ensures Overflows(float, "inf")
  {
    StripTrimmed("inf");
  }

  lemma NobsIsACount(format: Format)
    requires format == Landolt1992 || format == Landolt2009
    ensures Column("n_obs", 13, Whole) in ColumnsOf(format)
  {
    assert ColumnsOf(format)[12] == Column("n_obs", 13, Whole);
  }
}
