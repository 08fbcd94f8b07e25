/** What a line says: the verdict on it, the star's name and position and the columns of
    its row, by the bytes, words and cells the formats are documented in.

    Models the parsers of `skycat/ingestion/parsers/`, and states what they read where
    without their field and column tables. */
module Records {
  import opened Wrappers
  import opened Validation
  import opened PythonText
  import opened FixedWidth
  import opened Sexagesimal
  import opened Parsers

  /******* Values *******/

  /** How a cell is read, kind by kind. A number column takes what `float` reads, infinities
      and NaNs included, except that a magnitude of 90 or more is no magnitude; a count takes
      an integer, or else a float cut toward zero; nothing readable is NULL. */
  lemma KindsMean(float: FloatParser, token: string)
    ensures Blank(token) ==> forall kind :: CellValue(float, token, kind) == Some(Null)
    ensures var f := float(Strip(token));
            !Blank(token) ==>
              && CellValue(float, token, Words) == Some(Text(Strip(token)))
              && (f.NotAFloat? ==> CellValue(float, token, Plain) == CellValue(float, token, Sentinel) == Some(Null))
              && (f.Finite? ==> CellValue(float, token, Plain) == Some(Number(f.r)))
              && (f.Finite? && f.r < 90.0 ==> CellValue(float, token, Sentinel) == Some(Number(f.r)))
              && (f.Finite? && f.r >= 90.0 ==> CellValue(float, token, Sentinel) == Some(Null))
              && (f.Infinite? || f.NaN? ==> CellValue(float, token, Plain) == Some(Special))
              && (f.NaN? || f == Infinite(false) ==> CellValue(float, token, Sentinel) == Some(Special))
              && (f == Infinite(true) ==> CellValue(float, token, Sentinel) == Some(Null))
    ensures var f := float(Strip(token));
            !Blank(token) ==>
              match ParseInt(Strip(token))
              case Some(n) => CellValue(float, token, Whole) == Some(Number(n as real))
              case None =>
                && (f.Infinite? <==> CellValue(float, token, Whole).None?)
                && (f.Finite? ==> exists n :: CutsTo(f.r, n) && CellValue(float, token, Whole) == Some(Number(n as real)))
                && (f.NotAFloat? || f.NaN? ==> CellValue(float, token, Whole) == Some(Null))
    ensures Overflows(float, token) <==> CellValue(float, token, Whole).None?
  {
    hide Strip, ParseInt;
    StripBlank(token);
    if float(Strip(token)).Finite? {
      TruncateCuts(float(Strip(token)).r);
      assert CutsTo(float(Strip(token)).r, Truncate(float(Strip(token)).r));
    }
  }

  /******* Columns *******/

  /** A column and where its text stands in a line: from byte `first` to byte `last`, or, in
      the formats of words and cells, at the one numbered so. All count from 1. */
  datatype Entry = Entry(first: nat, last: nat, column: string, kind: Kind)

  function At(n: nat, column: string, kind: Kind): Entry {
    Entry(n, n, column, kind)
  }

  function Documented(format: Format): seq<Entry> {
    match format
    case ApassDr6 =>
      [ At(3, "ra_err_arcsec", Plain), At(5, "dec_err_arcsec", Plain), At(6, "n_obs_total", Whole),
        At(7, "extra.mobs", Whole),
        At(8, "johnson_v_mag", Sentinel), At(9, "extra.b_minus_v_mag", Sentinel), At(10, "johnson_b_mag", Sentinel),
        At(11, "sloan_g_mag", Sentinel), At(12, "sloan_r_mag", Sentinel), At(13, "sloan_i_mag", Sentinel),
        At(14, "johnson_v_err_mag", Sentinel), At(15, "extra.b_minus_v_err_mag", Sentinel),
        At(16, "johnson_b_err_mag", Sentinel),
        At(17, "sloan_g_err_mag", Sentinel), At(18, "sloan_r_err_mag", Sentinel), At(19, "sloan_i_err_mag", Sentinel) ]
    case ApassDr10 =>
      [ At(3, "ra_err_arcsec", Plain), At(5, "dec_err_arcsec", Plain),
        At(6, "extra.nobs.B", Whole), At(7, "extra.nobs.V", Whole), At(8, "extra.nobs.u", Whole),
        At(9, "extra.nobs.g", Whole),
        At(10, "extra.nobs.r", Whole), At(11, "extra.nobs.i", Whole), At(12, "extra.nobs.z", Whole),
        At(13, "extra.nobs.Y", Whole),
        At(14, "johnson_b_mag", Sentinel), At(15, "johnson_v_mag", Sentinel), At(16, "sloan_u_mag", Sentinel),
        At(17, "sloan_g_mag", Sentinel), At(18, "sloan_r_mag", Sentinel), At(19, "sloan_i_mag", Sentinel),
        At(20, "sloan_z_mag", Sentinel), At(21, "y_mag", Sentinel),
        At(22, "johnson_b_err_mag", Sentinel), At(23, "johnson_v_err_mag", Sentinel), At(24, "sloan_u_err_mag", Sentinel),
        At(25, "sloan_g_err_mag", Sentinel), At(26, "sloan_r_err_mag", Sentinel), At(27, "sloan_i_err_mag", Sentinel),
        At(28, "sloan_z_err_mag", Sentinel), At(29, "y_err_mag", Sentinel) ]
    case StetsonGlobs =>
      [ At(3, "extra.xpos_arcsec", Plain), At(4, "extra.ypos_arcsec", Plain),
        At(5, "johnson_u_mag", Plain), At(6, "johnson_u_err_mag", Plain), At(7, "n_obs_u", Whole),
        At(8, "johnson_b_mag", Plain), At(9, "johnson_b_err_mag", Plain), At(10, "n_obs_b", Whole),
        At(11, "johnson_v_mag", Plain), At(12, "johnson_v_err_mag", Plain), At(13, "n_obs_v", Whole),
        At(14, "cousins_r_mag", Plain), At(15, "cousins_r_err_mag", Plain), At(16, "n_obs_r", Whole),
        At(17, "cousins_i_mag", Plain), At(18, "cousins_i_err_mag", Plain), At(19, "n_obs_i", Whole),
        At(20, "chi", Plain), At(21, "sharp", Plain), At(22, "variability_index", Plain),
        At(23, "variability_weight", Plain) ]
    case VsxDat =>
      [ Entry(10, 39, "name", Words), Entry(63, 92, "var_type", Words), Entry(94, 94, "extra.l_max", Words),
        Entry(96, 102, "max_mag", Plain), Entry(104, 104, "extra.u_max", Words), Entry(106, 115, "max_passband", Words),
        Entry(117, 117, "extra.f_min", Words), Entry(119, 119, "extra.l_min", Words), Entry(129, 129, "extra.u_min", Words),
        Entry(131, 138, "min_passband", Words), Entry(140, 153, "epoch_hjd", Plain), Entry(155, 155, "extra.u_epoch", Words),
        Entry(157, 157, "extra.l_period", Words), Entry(159, 177, "period_days", Plain),
        Entry(179, 179, "extra.u_period", Words),
        Entry(181, 209, "spectral_type", Words) ]
    case Landolt1992 =>
      [ Entry(33, 38, "johnson_v_mag", Plain), Entry(40, 45, "b_minus_v_mag", Plain), Entry(47, 52, "u_minus_b_mag", Plain),
        Entry(54, 59, "v_minus_r_mag", Plain), Entry(61, 66, "r_minus_i_mag", Plain), Entry(68, 73, "v_minus_i_mag", Plain),
        Entry(84, 89, "johnson_v_err_mag", Plain), Entry(91, 96, "b_minus_v_err_mag", Plain),
        Entry(98, 103, "u_minus_b_err_mag", Plain),
        Entry(105, 110, "v_minus_r_err_mag", Plain), Entry(112, 117, "r_minus_i_err_mag", Plain),
        Entry(119, 124, "v_minus_i_err_mag", Plain),
        Entry(75, 77, "n_obs", Whole), Entry(79, 81, "n_nights", Whole) ]
    case Landolt2009 =>
      [ Entry(39, 44, "johnson_v_mag", Plain), Entry(46, 51, "b_minus_v_mag", Plain), Entry(53, 58, "u_minus_b_mag", Plain),
        Entry(60, 65, "v_minus_r_mag", Plain), Entry(67, 72, "r_minus_i_mag", Plain), Entry(74, 79, "v_minus_i_mag", Plain),
        Entry(89, 94, "johnson_v_err_mag", Plain), Entry(96, 101, "b_minus_v_err_mag", Plain),
        Entry(103, 108, "u_minus_b_err_mag", Plain),
        Entry(110, 115, "v_minus_r_err_mag", Plain), Entry(117, 122, "r_minus_i_err_mag", Plain),
        Entry(124, 129, "v_minus_i_err_mag", Plain),
        Entry(81, 83, "n_obs", Whole), Entry(85, 87, "n_nights", Whole) ]
  }

  /** The text from byte `first` to byte `last`, without the blanks around it; a line that
      ends before has less of it. */
  function Bytes(line: string, first: nat, last: nat): string
    requires 1 <= first <= last
  {
    if first > |line| then "" else Strip(line[first - 1..if last <= |line| then last else |line|])
  }

  lemma BytesAreSlice(line: string, f: Field)
    ensures Bytes(line, f.start, f.end) == Slice(line, f)
  {
    StripBlank("");
    if f.start <= |line| <= f.end {
      assert line[f.start - 1..|line|] == line[f.start - 1..];
    }
  }

  function Piece(format: Format, line: string, e: Entry): string
    requires 1 <= e.first <= e.last
  {
    if format in {ApassDr6, ApassDr10} then Nth(Split(line), e.first)
    else if format == StetsonGlobs then Nth(SplitOn(line, '|'), e.first)
    else Bytes(line, e.first, e.last)
  }

  function Nth(parts: seq<string>, n: nat): string
    requires n >= 1
  {
    if n <= |parts| then parts[n - 1] else ""
  }

  function FieldOf(format: Format, cell: nat): Field {
    match format
    case VsxDat => VsxField(cell)
    case Landolt1992 => Landolt1992Field(cell)
    case _ => Landolt2009Field(cell)
  }

  /** Where the counts stand: their words or cells, or their first bytes. */
  predicate IsCountPlace(format: Format, place: nat) {
    match format
    case ApassDr6 => place == 6 || place == 7
    case ApassDr10 => 6 <= place <= 13
    case StetsonGlobs => place == 7 || place == 10 || place == 13 || place == 16 || place == 19
    case VsxDat => false
    case Landolt1992 => place == 75 || place == 79
    case Landolt2009 => place == 81 || place == 85
  }

  /** Entry by entry, the columns are filled from where they are documented to stand. */
  predicate Agrees(format: Format, c: Column, e: Entry) {
    && c.name == e.column && c.kind == e.kind && 1 <= e.first <= e.last
    && if format in {ApassDr6, ApassDr10, StetsonGlobs} then e.first == e.last == c.cell + 1
       else c.cell < 21 && FieldOf(format, c.cell) == Range(e.first, e.last)
  }

  predicate IsCount(format: Format, e: Entry) {
    IsCountPlace(format, e.first) && e.last == if format in {Landolt1992, Landolt2009} then e.first + 2 else e.first
  }

  lemma Dr6Agrees(i: nat)
    requires i < |ColumnsOf(ApassDr6)|
    ensures i < |Documented(ApassDr6)| && Agrees(ApassDr6, ColumnsOf(ApassDr6)[i], Documented(ApassDr6)[i])
    ensures Documented(ApassDr6)[i].kind == Whole <==> IsCount(ApassDr6, Documented(ApassDr6)[i])
  {
    hide FieldOf;
  }

  lemma Dr10Agrees(i: nat)
    requires i < |ColumnsOf(ApassDr10)|
    ensures i < |Documented(ApassDr10)| && Agrees(ApassDr10, ColumnsOf(ApassDr10)[i], Documented(ApassDr10)[i])
  {
    hide FieldOf;
    if i < 13 {
    } else {
    }
  }

  lemma Dr10Counts(i: nat)
    requires i < |Documented(ApassDr10)|
    ensures Documented(ApassDr10)[i].kind == Whole <==> IsCount(ApassDr10, Documented(ApassDr10)[i])
  {
  }

  lemma StetsonAgrees(i: nat)
    requires i < |ColumnsOf(StetsonGlobs)|
    ensures i < |Documented(StetsonGlobs)| && Agrees(StetsonGlobs, ColumnsOf(StetsonGlobs)[i], Documented(StetsonGlobs)[i])
  {
    hide FieldOf;
    if i < 10 {
    } else {
    }
  }

  lemma StetsonCounts(i: nat)
    requires i < |Documented(StetsonGlobs)|
    ensures Documented(StetsonGlobs)[i].kind == Whole <==> IsCount(StetsonGlobs, Documented(StetsonGlobs)[i])
  {
  }

  lemma VsxAgrees(i: nat)
    requires i < |ColumnsOf(VsxDat)|
    ensures i < |Documented(VsxDat)| && Agrees(VsxDat, ColumnsOf(VsxDat)[i], Documented(VsxDat)[i])
    ensures Documented(VsxDat)[i].kind == Whole <==> IsCount(VsxDat, Documented(VsxDat)[i])
  {
  }

  lemma Landolt1992Agrees(i: nat)
    requires i < |ColumnsOf(Landolt1992)|
    ensures i < |Documented(Landolt1992)| && Agrees(Landolt1992, ColumnsOf(Landolt1992)[i], Documented(Landolt1992)[i])
    ensures Documented(Landolt1992)[i].kind == Whole <==> IsCount(Landolt1992, Documented(Landolt1992)[i])
  {
  }

  lemma Landolt2009Agrees(i: nat)
    requires i < |ColumnsOf(Landolt2009)|
    ensures i < |Documented(Landolt2009)| && Agrees(Landolt2009, ColumnsOf(Landolt2009)[i], Documented(Landolt2009)[i])
    ensures Documented(Landolt2009)[i].kind == Whole <==> IsCount(Landolt2009, Documented(Landolt2009)[i])
  {
  }

  lemma TableAgrees(format: Format, i: nat)
    requires i < |ColumnsOf(format)|
    ensures i < |Documented(format)| && Agrees(format, ColumnsOf(format)[i], Documented(format)[i])
    ensures Documented(format)[i].kind == Whole <==> IsCount(format, Documented(format)[i])
  {
    hide Agrees, Documented, ColumnsOf, IsCount;
    match format
    case ApassDr6 => Dr6Agrees(i);
    case ApassDr10 =>
      Dr10Agrees(i);
      Dr10Counts(i);
    case VsxDat => VsxAgrees(i);
    case Landolt1992 => Landolt1992Agrees(i);
    case Landolt2009 => Landolt2009Agrees(i);
    case StetsonGlobs =>
      StetsonAgrees(i);
      StetsonCounts(i);
  }

  lemma TableLengths(format: Format)
    ensures |Documented(format)| == |ColumnsOf(format)|
  {
  }

  lemma LayoutFields(format: Format, cell: nat)
    requires format in {VsxDat, Landolt1992, Landolt2009} && cell < 21
    ensures var layout := if format == VsxDat then VsxLayout() else LandoltLayout(format);
            |layout.fields| == 21 && layout.fields[cell] == FieldOf(format, cell)
  {
    hide VsxField, Landolt1992Field, Landolt2009Field;
  }

  /** A cell by its number is the piece of the line its entry names. */
  lemma PieceIsToken(format: Format, line: string, c: Column, e: Entry)
    requires Agrees(format, c, e)
    ensures Piece(format, line, e) == Token(CellsOf(format, line), c)
  {
    hide Split, SplitOn, Bytes, Slice, FieldOf, VsxLayout, LandoltLayout;
    if format in {VsxDat, Landolt1992, Landolt2009} {
      LayoutFields(format, c.cell);
      BytesAreSlice(line, FieldOf(format, c.cell));
    }
  }

  lemma EntryOfColumn(format: Format, line: string, c: Column) returns (e: Entry)
    requires c in ColumnsOf(format)
    ensures e in Documented(format) && Agrees(format, c, e)
    ensures Piece(format, line, e) == Token(CellsOf(format, line), c)
  {
    hide Documented, ColumnsOf, Agrees, Piece, CellsOf, Token;
    var i :| 0 <= i < |ColumnsOf(format)| && ColumnsOf(format)[i] == c;
    TableAgrees(format, i);
    e := Documented(format)[i];
    assert Agrees(format, c, e);
    PieceIsToken(format, line, c, e);
  }

  lemma ColumnOfEntry(format: Format, line: string, e: Entry) returns (c: Column)
    requires e in Documented(format)
    ensures c in ColumnsOf(format) && Agrees(format, c, e)
    ensures Piece(format, line, e) == Token(CellsOf(format, line), c)
  {
    TableLengths(format);
    hide Documented, ColumnsOf, Agrees, Piece, CellsOf, Token;
    var i :| 0 <= i < |Documented(format)| && Documented(format)[i] == e;
    TableAgrees(format, i);
    c := ColumnsOf(format)[i];
    PieceIsToken(format, line, c, e);
  }

  /** A parsed row has exactly the columns its format documents, each read from where it is
      documented to stand. VSX adds five of its own. */
  lemma ColumnsAsDocumented(format: Format, float: FloatParser, line: Line, name: string)
    requires Judge(format, float, line).Parsed?
    requires name !in {"vsx_oid", "var_flag", "min_is_amplitude", "amplitude_mag", "min_mag"}
    ensures var columns := Judge(format, float, line).row.columns;
            && (name in columns <==> exists e :: e in Documented(format) && e.column == name)
            && (name in columns ==> exists e :: e in Documented(format) && e.column == name && 1 <= e.first <= e.last
                                          && CellValue(float, Piece(format, line.text, e), e.kind) == Some(columns[name]))
  {
    ValuesComeFromCells(format, float, line, name);
    hide Judge, ColumnsOf, Documented, Piece, CellsOf, Token, CellValue;
    var columns := Judge(format, float, line).row.columns;
    if name in columns {
      var c :| c in ColumnsOf(format) && c.name == name
               && CellValue(float, Token(CellsOf(format, line.text), c), c.kind) == Some(columns[name]);
      var e := EntryOfColumn(format, line.text, c);
    }
    if e :| e in Documented(format) && e.column == name {
      var c := ColumnOfEntry(format, line.text, e);
    }
  }

  /** A one-byte field is its byte, unless that is blank. */
  lemma OneByte(line: string, n: nat)
    requires n >= 1
    ensures Bytes(line, n, n) == if n <= |line| && !IsSpace(line[n - 1]) then [line[n - 1]] else ""
  {
    if n <= |line| {
      var byte := line[n - 1..n];
      assert byte == [line[n - 1]];
      if IsSpace(line[n - 1]) {
        StripBlank(byte);
      } else {
        StripTrimmed(byte);
      }
    }
  }

  lemma FlagByte(line: string)
    ensures var cells := Slices(VsxLayout(), line);
            && cells[2] == Bytes(line, 41, 41)
            && (|cells[2]| == 1 && IsSuperscript(cells[2][0]) <==> |line| >= 41 && IsSuperscript(line[40]))
  {
    BytesAreSlice(line, VsxField(2));
    OneByte(line, 41);
  }

  /******* Counts *******/

  function CountText(format: Format, line: string, place: nat): string
    requires IsCountPlace(format, place)
  {
    if format in {ApassDr6, ApassDr10} then Nth(Split(line), place)
    else if format == StetsonGlobs then Nth(SplitOn(line, '|'), place)
    else Bytes(line, place, place + 2)
  }

  lemma Dr10CountEntry(place: nat) returns (e: Entry)
    requires IsCountPlace(ApassDr10, place)
    ensures e in Documented(ApassDr10) && e.kind == Whole && e.first == place
  {
    var table := Documented(ApassDr10);
    e := if place < 10 then table[place - 4] else table[place - 4];
  }

  lemma StetsonCountEntry(place: nat) returns (e: Entry)
    requires IsCountPlace(StetsonGlobs, place)
    ensures e in Documented(StetsonGlobs) && e.kind == Whole && e.first == place
  {
    e := Documented(StetsonGlobs)[place - 3];
  }

  lemma LandoltCountEntry(format: Format, place: nat) returns (e: Entry)
    requires format in {Landolt1992, Landolt2009} && IsCountPlace(format, place)
    ensures e in Documented(format) && e.kind == Whole && e.first == place
  {
    e := Documented(format)[if place == 75 || place == 81 then 12 else 13];
  }

  lemma Dr6CountEntry(place: nat) returns (e: Entry)
    requires IsCountPlace(ApassDr6, place)
    ensures e in Documented(ApassDr6) && e.kind == Whole && e.first == place
  {
    e := Documented(ApassDr6)[place - 4];
  }

  lemma CountEntry(format: Format, place: nat) returns (e: Entry)
    requires IsCountPlace(format, place)
    ensures e in Documented(format) && e.kind == Whole && e.first == place
  {
    assert !IsCountPlace(VsxDat, place);
    hide Documented, IsCountPlace;
    match format
    case ApassDr6 => e := Dr6CountEntry(place);
    case ApassDr10 => e := Dr10CountEntry(place);
    case StetsonGlobs => e := StetsonCountEntry(place);
    case Landolt1992 => e := LandoltCountEntry(format, place);
    case Landolt2009 => e := LandoltCountEntry(format, place);
  }

  lemma CountPiece(format: Format, line: string, e: Entry)
    requires e in Documented(format) && e.kind == Whole
    ensures 1 <= e.first <= e.last && IsCountPlace(format, e.first) && Piece(format, line, e) == CountText(format, line, e.first)
  {
    TableLengths(format);
    assert IsCount(format, e) by {
      hide Documented, ColumnsOf, Agrees, IsCount;
      var i :| 0 <= i < |Documented(format)| && Documented(format)[i] == e;
      TableAgrees(format, i);
    }
    hide Documented, Split, SplitOn, Bytes;
  }

  lemma OverflowsThere(format: Format, float: FloatParser, line: string)
    ensures CountOverflows(format, float, CellsOf(format, line))
       <==> exists place :: IsCountPlace(format, place) && Overflows(float, CountText(format, line, place))
  {
    hide Overflows, Piece, CountText, Documented, ColumnsOf, Token, CellsOf;
    var cells := CellsOf(format, line);
    if c :| c in ColumnsOf(format) && c.kind == Whole && Overflows(float, Token(cells, c)) {
      var e := EntryOfColumn(format, line, c);
      CountPiece(format, line, e);
    }
    if place :| IsCountPlace(format, place) && Overflows(float, CountText(format, line, place)) {
      var e := CountEntry(format, place);
      var c := ColumnOfEntry(format, line, e);
      CountPiece(format, line, e);
    }
  }

  /** A good line ends the import exactly when one of its counts is spelled as an infinity,
      or byte 41 of a VSX line is a superscript digit. */
  lemma RaisesAsDocumented(format: Format, float: FloatParser, line: Line)
    requires !Judge(format, float, line).Skip? && !Judge(format, float, line).Malformed?
    ensures Judge(format, float, line).Raises? <==>
              || (exists place :: IsCountPlace(format, place) && Overflows(float, CountText(format, line.text, place)))
              || (format == VsxDat && |line.text| >= 41 && IsSuperscript(line.text[40]))
  {
    RaisesExactly(format, float, line);
    OverflowsThere(format, float, line.text);
    FlagByte(line.text);
    hide Judge, CountOverflows, Overflows, CountText, IsCountPlace;
  }

  /******* Lines of words: APASS *******/

  function CoordOf(f: Float): Coord {
    match f
    case Finite(r) => Degrees(r)
    case _ => NotFinite
  }

  predicate Within(f: Float, low: real, high: real) {
    f.Finite? && low <= f.r <= high
  }

  /** A row with this id at this position, accepted by staging when it is on the sphere. */
  predicate StandsAt(row: Row, id: string, ra: Float, dec: Float) {
    && row.nativeId == Some(id) && row.cluster == None
    && row.ra == CoordOf(ra) && row.dec == CoordOf(dec)
    && (Acceptable(row) <==> id != "" && Within(ra, 0.0, 360.0) && ra.r != 360.0 && Within(dec, -90.0, 90.0))
  }

  lemma LeftOfSpread(words: seq<string>, gaps: seq<string>)
    requires Separates(words, gaps)
    ensures StripLeft(Spread(words, gaps)) == if words == [] then "" else words[0] + Spread(words[1..], gaps[1..])
  {
    assert gaps[0] in gaps;
    if words == [] {
      StripLeftBlank(gaps[0]);
    } else {
      assert words[0] in words;
      assert words[0][0] in words[0];
      var rest := words[0] + Spread(words[1..], gaps[1..]);
      assert Spread(words, gaps) == gaps[0] + rest;
      StripLeftPads(gaps[0], rest);
    }
  }

  lemma SplitVerdict(format: Format, float: FloatParser, cells: seq<string>, needed: nat)
    requires needed >= 4
    ensures var v := JudgeSplit(format, float, cells, needed);
            && !v.Skip?
            && (v.Malformed? <==> |cells| < needed || float(cells[1]).NotAFloat? || float(cells[3]).NotAFloat?)
            && (v.Parsed? ==> StandsAt(v.row, cells[0], float(cells[1]), float(cells[3])))
  {
    hide Fill, ColumnsOf;
  }

  lemma WordCounts(float: FloatParser, line: string)
    ensures var words := Split(line);
            && (|words| >= 19 ==> ((exists place :: IsCountPlace(ApassDr6, place) && Overflows(float, CountText(ApassDr6, line, place)))
                                   <==> Overflows(float, words[5]) || Overflows(float, words[6])))
            && (|words| >= 29 ==> ((exists place :: IsCountPlace(ApassDr10, place) && Overflows(float, CountText(ApassDr10, line, place)))
                                   <==> exists i :: 5 <= i < 13 && Overflows(float, words[i])))
  {
    hide Overflows, Split;
    var words := Split(line);
    if |words| >= 19 {
      assert CountText(ApassDr6, line, 6) == words[5] && CountText(ApassDr6, line, 7) == words[6];
    }
    if |words| >= 29 {
      forall i | 5 <= i < 13 ensures IsCountPlace(ApassDr10, i + 1) && CountText(ApassDr10, line, i + 1) == words[i] {
      }
      if i :| 5 <= i < 13 && Overflows(float, words[i]) {
        assert IsCountPlace(ApassDr10, i + 1);
      }
    }
  }

  lemma Dr6Skips(float: FloatParser, words: seq<string>, gaps: seq<string>, number: nat)
    requires Separates(words, gaps)
    ensures Judge(ApassDr6, float, Line(number, Spread(words, gaps))).Skip?
       <==> Spread(words, gaps) == "" || (words != [] && words[0] != "" && words[0][0] == '#')
  {
    OnlyTheseAreSkipped(ApassDr6, float, Line(number, Spread(words, gaps)));
    LeftOfSpread(words, gaps);
    assert words != [] ==> words[0] in words;
    hide Judge, StripLeft;
  }

  /** What a DR6 line of any words in any spacing comes to. An empty line and a comment are
      skipped; fewer than nineteen words or an unreadable position is malformed; an infinite
      count ends the import; any other line is the star its first word names, at the
      position of its second and fourth. */
  lemma Dr6Line(float: FloatParser, words: seq<string>, gaps: seq<string>, number: nat)
    requires Separates(words, gaps)
    ensures var v := Judge(ApassDr6, float, Line(number, Spread(words, gaps)));
            if Spread(words, gaps) == "" || (words != [] && words[0] != "" && words[0][0] == '#') then v.Skip?
            else if |words| < 19 || float(words[1]).NotAFloat? || float(words[3]).NotAFloat? then v.Malformed?
            else if Overflows(float, words[5]) || Overflows(float, words[6]) then v.Raises?
            else v.Parsed? && StandsAt(v.row, words[0], float(words[1]), float(words[3]))
  {
    var line := Line(number, Spread(words, gaps));
    SplitSpread(words, gaps);
    Dr6Skips(float, words, gaps, number);
    SplitVerdict(ApassDr6, float, words, 19);
    WordCounts(float, line.text);
    hide Overflows, Spread, Split, JudgeSplit, StandsAt, StripLeft, IsCountPlace, CountText, Separates;
    var v := Judge(ApassDr6, float, line);
    if !v.Skip? {
      assert v == JudgeSplit(ApassDr6, float, words, 19);
      if !v.Malformed? {
        RaisesAsDocumented(ApassDr6, float, line);
      }
    }
  }

  /** The same for DR10: blank lines, `APASS` lines and a first line that does not begin with
      a digit are skipped, and twenty-nine words are needed. */
  lemma Dr10Line(float: FloatParser, words: seq<string>, gaps: seq<string>, number: nat)
    requires Separates(words, gaps)
    ensures var v := Judge(ApassDr10, float, Line(number, Spread(words, gaps)));
            if words == [] || words[0] == "APASS" || (number == 0 && words[0] != "" && !('0' <= words[0][0] <= '9')) then v.Skip?
            else if |words| < 29 || float(words[1]).NotAFloat? || float(words[3]).NotAFloat? then v.Malformed?
            else if exists i :: 5 <= i < 13 && Overflows(float, words[i]) then v.Raises?
            else v.Parsed? && StandsAt(v.row, words[0], float(words[1]), float(words[3]))
  {
    var line := Line(number, Spread(words, gaps));
    SplitSpread(words, gaps);
    SplitVerdict(ApassDr10, float, words, 29);
    WordCounts(float, line.text);
    hide Overflows, Spread, Split, JudgeSplit, StandsAt, IsCountPlace, CountText;
    if !Judge(ApassDr10, float, line).Skip? && !Judge(ApassDr10, float, line).Malformed? {
      RaisesAsDocumented(ApassDr10, float, line);
    }
  }

  /******* Lines of bytes: VSX and Landolt *******/

  lemma CellIsBytes(format: Format, line: string, i: nat)
    requires format in {VsxDat, Landolt1992, Landolt2009} && i < 21
    ensures |CellsOf(format, line)| == 21
    ensures CellsOf(format, line)[i] == Bytes(line, FieldOf(format, i).start, FieldOf(format, i).end)
  {
    hide FieldOf, Slice, Bytes, VsxLayout, LandoltLayout;
    LayoutFields(format, i);
    BytesAreSlice(line, FieldOf(format, i));
  }

  lemma VsxVerdict(float: FloatParser, cells: seq<string>)
    requires |cells| == 21
    ensures var v, oid, ra, dec := JudgeVsxCells(float, cells), ParseInt(cells[0]), float(cells[3]), float(cells[4]);
            && !v.Skip?
            && (v.Malformed? <==> oid.None? || ra.NotAFloat? || dec.NotAFloat?)
            && (v.Parsed? ==> oid.Some? && StandsAt(v.row, DecimalInt(oid.value), ra, dec))
  {
    hide Fill, ColumnsOf, ParseInt, VsxFlag, VsxMin;
  }

  /** What a VSX line comes to. One that ends before byte 61 is skipped if blank and else
      malformed, as is one without a number in bytes 1 to 8 or a position in bytes 43 to 51
      and 53 to 61; a superscript digit at byte 41 ends the import; any other line is the
      star of that number at that position. */
  lemma VsxLine(float: FloatParser, line: Line)
    ensures var v, t := Judge(VsxDat, float, line), line.text;
            var oid, ra, dec := ParseInt(Bytes(t, 1, 8)), float(Bytes(t, 43, 51)), float(Bytes(t, 53, 61));
            if |t| < 61 && Blank(t) then v.Skip?
            else if |t| < 61 || oid.None? || ra.NotAFloat? || dec.NotAFloat? then v.Malformed?
            else if IsSuperscript(t[40]) then v.Raises?
            else v.Parsed? && StandsAt(v.row, DecimalInt(oid.value), ra, dec)
  {
    var t := line.text;
    StripBlank(t);
    CellIsBytes(VsxDat, t, 0);
    CellIsBytes(VsxDat, t, 3);
    CellIsBytes(VsxDat, t, 4);
    VsxVerdict(float, CellsOf(VsxDat, t));
    hide Bytes, ParseInt, Strip, Blank, IsSuperscript, Slices, JudgeVsxCells, StandsAt, DecimalInt;
    if !Judge(VsxDat, float, line).Skip? && !Judge(VsxDat, float, line).Malformed? {
      RaisesAsDocumented(VsxDat, float, line);
    }
  }

  lemma LandoltLine(format: Format, float: FloatParser, line: Line)
    requires format in {Landolt1992, Landolt2009}
    ensures var v, t := Judge(format, float, line), line.text;
            var c := CellsOf(format, t);
            if Blank(t) then v.Skip?
            else if |t| < LandoltLayout(format).minLen || c[0] == "" then v.Malformed?
            else match LandoltCoords(float, c[1], c[2], c[3], t[LandoltLayout(format).sign - 1], c[4], c[5], c[6])
              case None => v.Malformed?
              case Some(p) =>
                if exists place :: IsCountPlace(format, place) && Overflows(float, CountText(format, t, place)) then v.Raises?
                else v.Parsed? && v.row.nativeId == Some(c[0]) && v.row.cluster == None && v.row.ra == p.ra && v.row.dec == p.dec
  {
    StripBlank(line.text);
    hide LandoltCoords, Strip, Blank, Fill, ColumnsOf, Slice, CountText, IsCountPlace;
    if !Judge(format, float, line).Skip? && !Judge(format, float, line).Malformed? {
      RaisesAsDocumented(format, float, line);
    }
  }

  /** What a line of the 1992 table comes to, by its bytes: the name, six fields of a
      position and the sign byte between them, and two counts. */
  lemma Landolt1992Line(float: FloatParser, line: Line)
    ensures var v, t := Judge(Landolt1992, float, line), line.text;
            if Blank(t) then v.Skip?
            else if |t| < 30 || Bytes(t, 1, 11) == "" then v.Malformed?
            else match LandoltCoords(float, Bytes(t, 13, 14), Bytes(t, 16, 17), Bytes(t, 19, 20), t[21],
                                     Bytes(t, 23, 24), Bytes(t, 26, 27), Bytes(t, 29, 30))
              case None => v.Malformed?
              case Some(p) =>
                if Overflows(float, Bytes(t, 75, 77)) || Overflows(float, Bytes(t, 79, 81)) then v.Raises?
                else v.Parsed? && v.row.nativeId == Some(Bytes(t, 1, 11)) && v.row.cluster == None
                     && v.row.ra == p.ra && v.row.dec == p.dec
  {
    var t := line.text;
    LandoltLine(Landolt1992, float, line);
    hide Judge, Bytes, Overflows, LandoltCoords, Blank, CellsOf;
    assert CountText(Landolt1992, t, 75) == Bytes(t, 75, 77) && CountText(Landolt1992, t, 79) == Bytes(t, 79, 81);
    forall i: nat | i < 7
      ensures |CellsOf(Landolt1992, t)| == 21
      ensures CellsOf(Landolt1992, t)[i] == Bytes(t, Landolt1992Field(i).start, Landolt1992Field(i).end)
    {
      CellIsBytes(Landolt1992, t, i);
    }
  }

  /** The same for the 2009 table, whose seconds carry decimals. */
  lemma Landolt2009Line(float: FloatParser, line: Line)
    ensures var v, t := Judge(Landolt2009, float, line), line.text;
            if Blank(t) then v.Skip?
            else if |t| < 37 || Bytes(t, 1, 11) == "" then v.Malformed?
            else match LandoltCoords(float, Bytes(t, 13, 14), Bytes(t, 16, 17), Bytes(t, 19, 24), t[25],
                                     Bytes(t, 27, 28), Bytes(t, 30, 31), Bytes(t, 33, 37))
              case None => v.Malformed?
              case Some(p) =>
                if Overflows(float, Bytes(t, 81, 83)) || Overflows(float, Bytes(t, 85, 87)) then v.Raises?
                else v.Parsed? && v.row.nativeId == Some(Bytes(t, 1, 11)) && v.row.cluster == None
                     && v.row.ra == p.ra && v.row.dec == p.dec
  {
    var t := line.text;
    LandoltLine(Landolt2009, float, line);
    hide Judge, Bytes, Overflows, LandoltCoords, Blank, CellsOf;
    assert CountText(Landolt2009, t, 81) == Bytes(t, 81, 83) && CountText(Landolt2009, t, 85) == Bytes(t, 85, 87);
    forall i: nat | i < 7
      ensures |CellsOf(Landolt2009, t)| == 21
      ensures CellsOf(Landolt2009, t)[i] == Bytes(t, Landolt2009Field(i).start, Landolt2009Field(i).end)
    {
      CellIsBytes(Landolt2009, t, i);
    }
  }

  predicate HasOwn(columns: map<string, Value>, oid: int, flag: Value, amplitude: bool, min: Value) {
    && {"vsx_oid", "var_flag", "min_is_amplitude", "amplitude_mag", "min_mag"} <= columns.Keys
    && columns["vsx_oid"] == Number(oid as real)
    && columns["var_flag"] == flag
    && columns["min_is_amplitude"] == Flag(amplitude)
    && columns["amplitude_mag"] == (if amplitude then min else Null)
    && columns["min_mag"] == (if amplitude then Null else min)
  }

  function FlagValue(flag: string): Value {
    if |flag| == 1 && IsDigit(flag[0]) then Number(DigitValue(flag[0]) as real) else Null
  }

  lemma OwnColumns(float: FloatParser, cells: seq<string>)
    requires |cells| == 21 && JudgeVsxCells(float, cells).Parsed?
    ensures ParseInt(cells[0]).Some?
    ensures HasOwn(JudgeVsxCells(float, cells).row.columns, ParseInt(cells[0]).value, FlagValue(cells[2]), cells[10] == "(",
                   ToFloat(float, cells[12], false))
  {
    hide ColumnsOf, ToFloat, ParseInt, Fill;
  }

  lemma VsxJudged(float: FloatParser, line: Line)
    requires Judge(VsxDat, float, line).Parsed?
    ensures |line.text| >= 61 && Judge(VsxDat, float, line) == JudgeVsxCells(float, CellsOf(VsxDat, line.text))
  {
    hide JudgeVsxCells, Slices, Strip;
  }

  lemma VsxFlagCell(t: string)
    requires |t| >= 61
    ensures |CellsOf(VsxDat, t)| == 21 && FlagValue(CellsOf(VsxDat, t)[2]) == FlagValue([t[40]])
  {
    OneByte(t, 41);
    CellIsBytes(VsxDat, t, 2);
    hide CellsOf, Bytes;
    assert CellsOf(VsxDat, t)[2] == Bytes(t, 41, 41);
  }

  lemma VsxMarkCell(t: string)
    ensures |CellsOf(VsxDat, t)| == 21 && (CellsOf(VsxDat, t)[10] == "(" <==> |t| >= 117 && t[116] == '(')
  {
    OneByte(t, 117);
    CellIsBytes(VsxDat, t, 10);
    hide CellsOf, Bytes;
    assert CellsOf(VsxDat, t)[10] == Bytes(t, 117, 117);
  }

  /** The columns of a VSX row that are not just one field: its number, the digit at byte 41,
      and a minimum that an opening parenthesis at byte 117 makes an amplitude. */
  lemma VsxOwnColumns(float: FloatParser, line: Line)
    requires Judge(VsxDat, float, line).Parsed?
    ensures var columns, t := Judge(VsxDat, float, line).row.columns, line.text;
            var oid, min := ParseInt(Bytes(t, 1, 8)), ToFloat(float, Bytes(t, 121, 127), false);
            && |t| >= 61 && oid.Some?
            && HasOwn(columns, oid.value, FlagValue([t[40]]), |t| >= 117 && t[116] == '(', min)
  {
    var t := line.text;
    hide Bytes, ToFloat, ParseInt, JudgeVsxCells, CellsOf, HasOwn, Judge, FlagValue;
    VsxJudged(float, line);
    VsxFlagCell(t);
    VsxMarkCell(t);
    CellIsBytes(VsxDat, t, 0);
    CellIsBytes(VsxDat, t, 12);
    OwnColumns(float, CellsOf(VsxDat, t));
  }

  /** A rendered VSX record, whatever the padding: the star of its OID, at its RAdeg and DEdeg. */
  lemma VsxRecord(float: FloatParser, values: seq<Filled>, width: nat, number: nat)
    requires AllFit(VsxLayout(), values) && forall f :: f in VsxLayout().fields ==> f.end <= width
    ensures var v := Judge(VsxDat, float, Line(number, Render(VsxLayout(), values, ' ', width)));
            var t := Texts(values);
            if ParseInt(t[0]).None? || float(t[3]).NotAFloat? || float(t[4]).NotAFloat? then v.Malformed?
            else if |t[2]| == 1 && IsSuperscript(t[2][0]) then v.Raises?
            else v.Parsed? && StandsAt(v.row, DecimalInt(ParseInt(t[0]).value), float(t[3]), float(t[4]))
  {
    var line := Line(number, Render(VsxLayout(), values, ' ', width));
    VsxReadsBack(float, values, width, number);
    LayoutsOk(VsxLayout());
    RecordRoundTrip(VsxLayout(), values, ' ', width);
    VsxVerdict(float, Texts(values));
    hide JudgeVsxCells, Judge, Render, ParseInt, StandsAt, DecimalInt, VsxLayout, IsSuperscript;
    if !Judge(VsxDat, float, line).Malformed? {
      RaisesExactly(VsxDat, float, line);
      OverflowsThere(VsxDat, float, line.text);
    }
  }

  /******* Lines of cells: Stetson *******/

  /** Twenty-four cells, with a cluster in the first, a number in the second and a position
      in the last. */
  predicate IsStetson(float: FloatParser, cells: seq<string>) {
    && |cells| == 24 && !Blank(cells[0]) && !Blank(cells[1])
    && ParseInt(Strip(cells[1])).Some? && StetsonRadec(float, cells[23]).Some?
  }

  predicate IsStetsonRow(row: Row, float: FloatParser, cells: seq<string>)
    requires IsStetson(float, cells)
  {
    && row.nativeId == Some(DecimalInt(ParseInt(Strip(cells[1])).value))
    && row.cluster == Some(Strip(cells[0])) && !LacksCluster(row)
    && row.ra == StetsonRadec(float, cells[23]).value.ra
    && row.dec == StetsonRadec(float, cells[23]).value.dec
  }

  lemma StetsonVerdict(float: FloatParser, line: string)
    ensures var v, cells := JudgeStetson(float, line), SplitOn(line, '|');
            if Blank(line) then v.Skip?
            else if !IsStetson(float, cells) then v.Malformed?
            else !v.Skip? && !v.Malformed? && (v.Parsed? ==> IsStetsonRow(v.row, float, cells))
  {
    var cells := SplitOn(line, '|');
    StripBlank(line);
    StripBlank(cells[0]);
    if |cells| == 24 {
      StripBlank(cells[1]);
    }
    hide Strip, SplitOn, Blank, Fill, ColumnsOf, ParseInt, StetsonRadec, DecimalInt;
  }

  predicate StetsonCountOverflows(float: FloatParser, cells: seq<string>)
    requires |cells| == 24
  {
    || Overflows(float, cells[6]) || Overflows(float, cells[9]) || Overflows(float, cells[12])
    || Overflows(float, cells[15]) || Overflows(float, cells[18])
  }

  lemma CellCounts(float: FloatParser, line: string)
    requires |SplitOn(line, '|')| == 24
    ensures var cells := SplitOn(line, '|');
            (exists place :: IsCountPlace(StetsonGlobs, place) && Overflows(float, CountText(StetsonGlobs, line, place)))
            <==> StetsonCountOverflows(float, cells)
  {
    hide Overflows, SplitOn;
    var cells := SplitOn(line, '|');
    assert CountText(StetsonGlobs, line, 7) == cells[6] && CountText(StetsonGlobs, line, 10) == cells[9]
        && CountText(StetsonGlobs, line, 13) == cells[12] && CountText(StetsonGlobs, line, 16) == cells[15]
        && CountText(StetsonGlobs, line, 19) == cells[18];
  }

  lemma StetsonText(float: FloatParser, line: Line)
    ensures var v, cells := Judge(StetsonGlobs, float, line), SplitOn(line.text, '|');
            if Blank(line.text) then v.Skip?
            else if !IsStetson(float, cells) then v.Malformed?
            else if StetsonCountOverflows(float, cells) then v.Raises?
            else v.Parsed? && IsStetsonRow(v.row, float, cells)
  {
    StetsonVerdict(float, line.text);
    IsStetsonHas24(float, SplitOn(line.text, '|'));
    hide SplitOn, JudgeStetson, Blank, IsStetson, IsStetsonRow, StetsonCountOverflows;
    if !Judge(StetsonGlobs, float, line).Skip? && !Judge(StetsonGlobs, float, line).Malformed? {
      CellCounts(float, line.text);
      hide CountText, IsCountPlace, Overflows;
      RaisesAsDocumented(StetsonGlobs, float, line);
    }
  }

  /** What a line of cells joined by `|` comes to: a blank one is skipped, one that is no
      Stetson line is malformed, an infinite count ends the import, and any other is the star
      its cells say. */
  lemma StetsonLine(float: FloatParser, cells: seq<string>, number: nat)
    requires |cells| >= 1 && forall c :: c in cells ==> '|' !in c
    ensures var v := Judge(StetsonGlobs, float, Line(number, JoinOn(cells, '|')));
            if Blank(JoinOn(cells, '|')) then v.Skip?
            else if !IsStetson(float, cells) then v.Malformed?
            else if StetsonCountOverflows(float, cells) then v.Raises?
            else v.Parsed? && IsStetsonRow(v.row, float, cells)
  {
    SplitOnJoin(cells, '|');
    StetsonText(float, Line(number, JoinOn(cells, '|')));
    hide JoinOn, SplitOn, Judge, Blank, IsStetson, IsStetsonRow, StetsonCountOverflows;
  }

  lemma IsStetsonHas24(float: FloatParser, cells: seq<string>)
    ensures IsStetson(float, cells) ==> |cells| == 24
  {
  }

  /** From star to staging: a Stetson line with a cluster, a number, in-range sexagesimal
      fields in any spacing and readable counts is parsed, to the exact coordinates, and
      never rejected. */
  lemma StetsonStarIsAccepted(float: FloatParser, cells: seq<string>, number: nat, rah: string, ram: string, ras: string,
                              sign: char, ded: string, dem: string, des: string, gaps: seq<string>)
    requires |cells| == 24 && forall c :: c in cells ==> '|' !in c
    requires !Blank(cells[0]) && !Blank(cells[1]) && ParseInt(Strip(cells[1])).Some?
    requires IsWord(ded) && IsDigit(ded[0]) && Separates([rah, ram, ras, SignText(sign) + ded, dem, des], gaps)
    requires cells[23] == Spread([rah, ram, ras, SignText(sign) + ded, dem, des], gaps)
    requires ParseInt(rah).Some? && ParseInt(ram).Some? && float(ras).Finite?
    requires RaFieldsOk(ParseInt(rah).value, ParseInt(ram).value, float(ras).r)
    requires ParseInt(ded).Some? && ParseInt(dem).Some? && float(des).Finite?
    requires DecFieldsOk(Abs(ParseInt(ded).value), ParseInt(dem).value, float(des).r)
    requires forall i :: i in {6, 9, 12, 15, 18} ==> !Overflows(float, cells[i])
    ensures var v := Judge(StetsonGlobs, float, Line(number, JoinOn(cells, '|')));
            && v.Parsed?
            && v.row.nativeId == Some(DecimalInt(ParseInt(Strip(cells[1])).value))
            && v.row.cluster == Some(Strip(cells[0]))
            && v.row.ra == Degrees(RaDegrees(ParseInt(rah).value, ParseInt(ram).value, float(ras).r))
            && v.row.dec == Degrees(DecDegrees(sign == '-', Abs(ParseInt(ded).value), ParseInt(dem).value, float(des).r))
            && Acceptable(v.row) && !LacksCluster(v.row)
  {
    RoutinesAgree(float, rah, ram, ras, sign, ded, dem, des, gaps);
    InRangeIsAccepted(float, rah, ram, ras, sign, ded, dem, des);
    StetsonLine(float, cells, number);
    NotBlank(cells);
    hide Judge, Blank, ParseInt, StetsonRadec, LandoltCoords, Spread, JoinOn, Overflows, Strip, IsWord, Separates;
  }

  lemma {:induction false} NotBlank(cells: seq<string>)
    requires |cells| >= 1 && !Blank(cells[0])
    ensures !Blank(JoinOn(cells, '|'))
  {
    var c :| c in cells[0] && !IsSpace(c);
    assert c in JoinOn(cells, '|');
  }
}
