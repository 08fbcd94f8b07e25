/** Sexagesimal positions: the conversion to degrees over exact numbers, and the two
    routines that read it, Landolt's from separate fields with the sign in a byte of
    its own, Stetson's from one field with the sign attached to the degrees.

    Models `skycat/ingestion/parsers/landolt.py:66-77` and
    `skycat/ingestion/parsers/stetson.py:57-66`. */
module Sexagesimal {
  import opened Wrappers
  import opened Validation
  import opened PythonText

  /******* The conversion *******/

  function RaDegrees(h: int, m: int, s: real): real {
    (h as real + m as real / 60.0 + s / 3600.0) * 15.0
  }

  function Magnitude(d: nat, m: int, s: real): real {
    d as real + m as real / 60.0 + s / 3600.0
  }

  function DecDegrees(negative: bool, d: nat, m: int, s: real): real {
    (if negative then -1.0 else 1.0) * Magnitude(d, m, s)
  }

  predicate Sixtieths(m: int, s: real) {
    0 <= m < 60 && 0.0 <= s < 60.0
  }

  predicate RaFieldsOk(h: int, m: int, s: real) {
    0 <= h < 24 && Sixtieths(m, s)
  }

  predicate DecFieldsOk(d: nat, m: int, s: real) {
    Sixtieths(m, s) && (d < 90 || (d == 90 && m == 0 && s == 0.0))
  }

  /** Fields are in range exactly when minutes and seconds are sixtieths and the position they
      make is on the sphere. */
  lemma FieldsExactly(h: int, d: nat, m: int, s: real)
    ensures Sixtieths(m, s) <==> 0 <= m <= 59 && 0.0 <= s < 60.0
    ensures RaFieldsOk(h, m, s) <==> Sixtieths(m, s) && 0.0 <= RaDegrees(h, m, s) < 360.0
    ensures DecFieldsOk(d, m, s) <==> Sixtieths(m, s) && -90.0 <= DecDegrees(true, d, m, s) && DecDegrees(false, d, m, s) <= 90.0
  {
  }

  /** Lexicographic order of (whole, minutes, seconds). */
  predicate Earlier(a: int, am: int, s: real, b: int, bm: int, t: real) {
    a < b || (a == b && (am < bm || (am == bm && s < t)))
  }

  /** What the fields are worth, from zero up: an hour is 15 degrees and a minute and a
      second of time a sixtieth each of the last; a degree of declination, its minutes and
      its seconds likewise, and they count down under the minus sign. */
  lemma UnitsAdd(h: int, d: nat, m: int, s: real, t: real)
    ensures RaDegrees(0, 0, 0.0) == 0.0
    ensures RaDegrees(h + 1, m, s) == RaDegrees(h, m, s) + 15.0
    ensures RaDegrees(h, m + 1, s) == RaDegrees(h, m, s) + 0.25
    ensures RaDegrees(h, m, s + t) == RaDegrees(h, m, s) + t / 240.0
    ensures DecDegrees(false, 0, 0, 0.0) == DecDegrees(true, 0, 0, 0.0) == 0.0
    ensures DecDegrees(false, d + 1, m, s) == DecDegrees(false, d, m, s) + 1.0
    ensures DecDegrees(false, d, m + 1, s) == DecDegrees(false, d, m, s) + 1.0 / 60.0
    ensures DecDegrees(false, d, m, s + t) == DecDegrees(false, d, m, s) + t / 3600.0
    ensures DecDegrees(true, d + 1, m, s) == DecDegrees(true, d, m, s) - 1.0
    ensures DecDegrees(true, d, m + 1, s) == DecDegrees(true, d, m, s) - 1.0 / 60.0
    ensures DecDegrees(true, d, m, s + t) == DecDegrees(true, d, m, s) - t / 3600.0
  {
  }

  /** On in-range fields right ascension is in [0, 360) and strictly monotone in
      (h, m, s), so it determines them. */
  lemma RaIsMonotone(h: int, m: int, s: real, k: int, n: int, t: real)
    requires RaFieldsOk(h, m, s) && RaFieldsOk(k, n, t)
    ensures 0.0 <= RaDegrees(h, m, s) < 360.0
    ensures Earlier(h, m, s, k, n, t) <==> RaDegrees(h, m, s) < RaDegrees(k, n, t)
    ensures RaDegrees(h, m, s) == RaDegrees(k, n, t) <==> (h, m, s) == (k, n, t)
  {
  }

  /** On in-range fields declination is in [-90, 90], changes sign with the sign
      byte even when the degrees are 00, and determines sign and fields except that
      plus and minus zero agree. */
  lemma DecIsSigned(negative: bool, d: nat, m: int, s: real, other: bool, e: nat, n: int, t: real)
    requires DecFieldsOk(d, m, s) && DecFieldsOk(e, n, t)
    ensures -90.0 <= DecDegrees(negative, d, m, s) <= 90.0
    ensures DecDegrees(!negative, d, m, s) == -DecDegrees(negative, d, m, s)
    ensures DecDegrees(negative, d, m, s) == DecDegrees(other, e, n, t)
       <==> (d, m, s) == (e, n, t) && (negative == other || (d, m, s) == (0, 0, 0.0))
  {
  }

  /******* The two readers *******/

  datatype Position = Position(ra: Coord, dec: Coord)

  /** A sum with a seconds field: not finite when the seconds are not. */
  function WithSeconds(seconds: Float, degrees: real -> real): Coord {
    match seconds
    case Finite(s) => Degrees(degrees(s))
    case _ => NotFinite
  }

  function Abs(i: int): (r: nat)
    ensures r == i || r == -i
  {
    if i < 0 then -i else i
  }

  function PositionOf(h: Option<int>, m: Option<int>, s: Float,
                      negative: bool, d: Option<int>, dm: Option<int>, ds: Float): Option<Position> {
    if h.None? || m.None? || s.NotAFloat? || d.None? || dm.None? || ds.NotAFloat? then None
    else Some(Position(
      WithSeconds(s, x => RaDegrees(h.value, m.value, x)),
      WithSeconds(ds, x => DecDegrees(negative, Abs(d.value), dm.value, x))))
  }

  /** `_coords`: `None` stands for the `ValueError`. */
  function LandoltCoords(float: FloatParser, rah: string, ram: string, ras: string,
                         sign: char, ded: string, dem: string, des: string): Option<Position> {
    PositionOf(ParseInt(rah), ParseInt(ram), float(ras), sign == '-', ParseInt(ded), ParseInt(dem), float(des))
  }

  /** A position is read exactly when its six fields are; a coordinate whose seconds are an
      infinity or a NaN is not finite. */
  lemma CoordsExactly(float: FloatParser, rah: string, ram: string, ras: string, sign: char, ded: string, dem: string, des: string)
    ensures var h, m, s, d, dm, ds := ParseInt(rah), ParseInt(ram), float(ras), ParseInt(ded), ParseInt(dem), float(des);
            match LandoltCoords(float, rah, ram, ras, sign, ded, dem, des)
            case None => h.None? || m.None? || s.NotAFloat? || d.None? || dm.None? || ds.NotAFloat?
            case Some(p) =>
              && h.Some? && m.Some? && !s.NotAFloat? && d.Some? && dm.Some? && !ds.NotAFloat?
              && (if s.Finite? then p.ra == Degrees(RaDegrees(h.value, m.value, s.r)) else p.ra == NotFinite)
              && (if ds.Finite? then p.dec == Degrees(DecDegrees(sign == '-', Abs(d.value), dm.value, ds.r)) else p.dec == NotFinite)
  {
  }

  /** `_radec`. */
  function StetsonRadec(float: FloatParser, coord: string): Option<Position> {
    var parts := Split(coord);
    if |parts| != 6 then None
    else
      assert parts[3] in parts;
      PositionOf(ParseInt(parts[0]), ParseInt(parts[1]), float(parts[2]), parts[3][0] == '-',
                 ParseInt(parts[3]), ParseInt(parts[4]), float(parts[5]))
  }

  /** A sign byte as it is written in front of the degrees. */
  function SignText(sign: char): string {
    if sign == '-' then "-" else if sign == '+' then "+" else ""
  }

  /** Attaching the sign keeps the magnitude of the degrees, and shows in front. */
  lemma SignedDegrees(sign: char, ded: string)
    requires IsWord(ded) && IsDigit(ded[0])
    ensures var signed := SignText(sign) + ded;
            && IsWord(signed)
            && (signed[0] == '-' <==> sign == '-')
            && (ParseInt(signed).Some? <==> ParseInt(ded).Some?)
            && (ParseInt(ded).Some? ==> Abs(ParseInt(signed).value) == Abs(ParseInt(ded).value))
  {
    SignedInt(ded);
    assert "" + ded == ded;
  }

  lemma SameMagnitude(h: Option<int>, m: Option<int>, s: Float,
                      negative: bool, d: Option<int>, e: Option<int>, dm: Option<int>, ds: Float)
    requires d.Some? <==> e.Some?
    requires d.Some? ==> Abs(d.value) == Abs(e.value)
    ensures PositionOf(h, m, s, negative, d, dm, ds) == PositionOf(h, m, s, negative, e, dm, ds)
  {
  }

  /** The same fields read either way give the same position, or the same error. */
  lemma RoutinesAgree(float: FloatParser, rah: string, ram: string, ras: string, sign: char, ded: string, dem: string, des: string,
                      gaps: seq<string>)
    requires IsWord(ded) && IsDigit(ded[0])
    requires Separates([rah, ram, ras, SignText(sign) + ded, dem, des], gaps)
    ensures StetsonRadec(float, Spread([rah, ram, ras, SignText(sign) + ded, dem, des], gaps))
         == LandoltCoords(float, rah, ram, ras, sign, ded, dem, des)
  {
    hide ParseInt, Spread, Split, PositionOf;
    var signed := SignText(sign) + ded;
    SignedDegrees(sign, ded);
    SplitSpread([rah, ram, ras, signed, dem, des], gaps);
    SameMagnitude(ParseInt(rah), ParseInt(ram), float(ras), sign == '-', ParseInt(signed), ParseInt(ded), ParseInt(dem), float(des));
  }

  /** A position with in-range fields is never rejected for its coordinates. */
  lemma InRangeIsAccepted(float: FloatParser, rah: string, ram: string, ras: string, sign: char, ded: string, dem: string, des: string)
    requires ParseInt(rah).Some? && ParseInt(ram).Some? && float(ras).Finite?
    requires RaFieldsOk(ParseInt(rah).value, ParseInt(ram).value, float(ras).r)
    requires ParseInt(ded).Some? && ParseInt(dem).Some? && float(des).Finite?
    requires DecFieldsOk(Abs(ParseInt(ded).value), ParseInt(dem).value, float(des).r)
    ensures var p := LandoltCoords(float, rah, ram, ras, sign, ded, dem, des);
            && p == Some(Position(Degrees(RaDegrees(ParseInt(rah).value, ParseInt(ram).value, float(ras).r)),
                                  Degrees(DecDegrees(sign == '-', Abs(ParseInt(ded).value), ParseInt(dem).value, float(des).r))))
            && forall row: Row :: row.ra == p.value.ra && row.dec == p.value.dec ==> !BadRa(row) && !BadDec(row)
  {
  }
}
