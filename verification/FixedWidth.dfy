/** Fixed-width records: the three byte layouts, slicing as the parsers do it, and
    rendering, which slicing undoes.

    Models `skycat/ingestion/parsers/landolt.py:49-51,61-64,126-159` and
    `skycat/ingestion/parsers/vsx.py:46-97`. */
module FixedWidth {
  import opened PythonText

  /** Bytes `start` to `end`, counted from 1, both included. */
  datatype Range = Range(start: nat, end: nat)

  type Field = r: Range | 1 <= r.start <= r.end witness Range(1, 1)

  /** `sign` is the position of the sign byte, 0 when the format has none; a line
      shorter than `minLen` is malformed; the fields up to index `last` carry identity
      and position. */
  datatype Layout = Layout(fields: seq<Field>, sign: nat, minLen: nat, last: nat)

  function Landolt1992Field(i: nat): Field {
    match i
    case 0 => Range(1, 11)    // Name
    case 1 => Range(13, 14)    // RAh
    case 2 => Range(16, 17)    // RAm
    case 3 => Range(19, 20)    // RAs
    case 4 => Range(23, 24)    // DEd
    case 5 => Range(26, 27)    // DEm
    case 6 => Range(29, 30)    // DEs
    case 7 => Range(33, 38)    // Vmag
    case 8 => Range(40, 45)    // B-V
    case 9 => Range(47, 52)    // U-B
    case 10 => Range(54, 59)    // V-R
    case 11 => Range(61, 66)    // R-I
    case 12 => Range(68, 73)    // V-I
    case 13 => Range(75, 77)    // Nobs
    case 14 => Range(79, 81)    // Nnig
    case 15 => Range(84, 89)    // e_Vmag
    case 16 => Range(91, 96)    // e_B-V
    case 17 => Range(98, 103)    // e_U-B
    case 18 => Range(105, 110)    // e_V-R
    case 19 => Range(112, 117)    // e_R-I
    case _ => Range(119, 124)    // e_V-I
  }

  function Landolt2009Field(i: nat): Field {
    match i
    case 0 => Range(1, 11)    // Name
    case 1 => Range(13, 14)    // RAh
    case 2 => Range(16, 17)    // RAm
    case 3 => Range(19, 24)    // RAs
    case 4 => Range(27, 28)    // DEd
    case 5 => Range(30, 31)    // DEm
    case 6 => Range(33, 37)    // DEs
    case 7 => Range(39, 44)    // Vmag
    case 8 => Range(46, 51)    // B-V
    case 9 => Range(53, 58)    // U-B
    case 10 => Range(60, 65)    // V-R
    case 11 => Range(67, 72)    // R-I
    case 12 => Range(74, 79)    // V-I
    case 13 => Range(81, 83)    // Nobs
    case 14 => Range(85, 87)    // Nnig
    case 15 => Range(89, 94)    // e_Vmag
    case 16 => Range(96, 101)    // e_B-V
    case 17 => Range(103, 108)    // e_U-B
    case 18 => Range(110, 115)    // e_V-R
    case 19 => Range(117, 122)    // e_R-I
    case _ => Range(124, 129)    // e_V-I
  }

  function VsxField(i: nat): Field {
    match i
    case 0 => Range(1, 8)    // OID
    case 1 => Range(10, 39)    // Name
    case 2 => Range(41, 41)    // V
    case 3 => Range(43, 51)    // RAdeg
    case 4 => Range(53, 61)    // DEdeg
    case 5 => Range(63, 92)    // Type
    case 6 => Range(94, 94)    // l_max
    case 7 => Range(96, 102)    // max
    case 8 => Range(104, 104)    // u_max
    case 9 => Range(106, 115)    // n_max
    case 10 => Range(117, 117)    // f_min
    case 11 => Range(119, 119)    // l_min
    case 12 => Range(121, 127)    // min
    case 13 => Range(129, 129)    // u_min
    case 14 => Range(131, 138)    // n_min
    case 15 => Range(140, 153)    // Epoch
    case 16 => Range(155, 155)    // u_Epoch
    case 17 => Range(157, 157)    // l_Period
    case 18 => Range(159, 177)    // Period
    case 19 => Range(179, 179)    // u_Period
    case _ => Range(181, 209)    // Sp
  }

  function Landolt1992Layout(): Layout {
    Layout(seq(21, i requires 0 <= i < 21 => Landolt1992Field(i)), 22, 30, 6)
  }

  function Landolt2009Layout(): Layout {
    Layout(seq(21, i requires 0 <= i < 21 => Landolt2009Field(i)), 26, 37, 6)
  }

  function VsxLayout(): Layout {
    Layout(seq(21, i requires 0 <= i < 21 => VsxField(i)), 0, 61, 4)
  }

  /******* Slicing *******/

  /** Python slices clip to the line. */
  function Cut(line: string, f: Field): string {
    if f.start - 1 >= |line| then "" else if f.end >= |line| then line[f.start - 1..] else line[f.start - 1..f.end]
  }

  /** `_s`. */
  function Slice(line: string, f: Field): string {
    Strip(Cut(line, f))
  }

  /******* Layouts *******/

  /** Fields follow each other without overlap, the sign byte lies in
      none, and the length guard stops at the last byte of the position, behind the
      sign. */
  predicate LayoutOk(layout: Layout) {
    && (forall i, j :: 0 <= i < j < |layout.fields| ==> layout.fields[i].end < layout.fields[j].start)
    && (forall f :: f in layout.fields ==> layout.sign < f.start || f.end < layout.sign)
    && layout.sign <= layout.minLen
    && layout.last < |layout.fields|
    && layout.fields[layout.last].end == layout.minLen
  }

  /** The field misses the sign and starts after the one before. */
  predicate NeatAt(fields: seq<Field>, sign: nat, i: nat)
    requires i < |fields|
  {
    && (sign < fields[i].start || fields[i].end < sign)
    && (i > 0 ==> fields[i - 1].end < fields[i].start)
  }

  predicate Neat(fields: seq<Field>, sign: nat) {
    forall i :: 0 <= i < |fields| ==> NeatAt(fields, sign, i)
  }

  lemma {:induction false} NeatIsOrdered(fields: seq<Field>, sign: nat, i: nat, j: nat)
    requires Neat(fields, sign) && i < j < |fields|
    ensures fields[i].end < fields[j].start
  {
    assert NeatAt(fields, sign, j);
    if i + 1 < j {
      NeatIsOrdered(fields, sign, i, j - 1);
      assert NeatAt(fields, sign, j - 1);
    }
  }

  lemma Landolt1992Neat(i: nat)
    requires i < 21
    ensures 22 < Landolt1992Field(i).start || Landolt1992Field(i).end < 22
    ensures i > 0 ==> Landolt1992Field(i - 1).end < Landolt1992Field(i).start
  {
  }

  lemma Landolt2009Neat(i: nat)
    requires i < 21
    ensures 26 < Landolt2009Field(i).start || Landolt2009Field(i).end < 26
    ensures i > 0 ==> Landolt2009Field(i - 1).end < Landolt2009Field(i).start
  {
  }

  lemma VsxNeat(i: nat)
    requires i < 21
    ensures i > 0 ==> VsxField(i - 1).end < VsxField(i).start
  {
  }

  lemma NeatLayouts()
    ensures Neat(Landolt1992Layout().fields, Landolt1992Layout().sign)
    ensures Neat(Landolt2009Layout().fields, Landolt2009Layout().sign)
    ensures Neat(VsxLayout().fields, VsxLayout().sign)
  {
    hide Landolt1992Field, Landolt2009Field, VsxField;
    forall i: nat | i < 21
      ensures Landolt1992Layout().fields[i] == Landolt1992Field(i)
      ensures Landolt2009Layout().fields[i] == Landolt2009Field(i)
      ensures VsxLayout().fields[i] == VsxField(i)
    {
      Landolt1992Neat(i);
      Landolt2009Neat(i);
      VsxNeat(i);
    }
    forall i: nat | i < 21
      ensures NeatAt(Landolt1992Layout().fields, 22, i)
      ensures NeatAt(Landolt2009Layout().fields, 26, i)
      ensures NeatAt(VsxLayout().fields, 0, i)
    {
      Landolt1992Neat(i);
      Landolt2009Neat(i);
      VsxNeat(i);
    }
  }

  lemma NeatIsOk(layout: Layout)
    requires Neat(layout.fields, layout.sign) && layout.sign <= layout.minLen
    requires layout.last < |layout.fields| && layout.fields[layout.last].end == layout.minLen
    ensures LayoutOk(layout)
  {
    forall i | 0 <= i < |layout.fields|
      ensures var f := layout.fields[i]; layout.sign < f.start || f.end < layout.sign
    {
      assert NeatAt(layout.fields, layout.sign, i);
    }
    forall i, j | 0 <= i < j < |layout.fields| ensures layout.fields[i].end < layout.fields[j].start {
      NeatIsOrdered(layout.fields, layout.sign, i, j);
    }
  }

  lemma LayoutsOk(layout: Layout)
    requires layout == Landolt1992Layout() || layout == Landolt2009Layout() || layout == VsxLayout()
    ensures LayoutOk(layout) && |layout.fields| == 21
  {
    hide Neat, LayoutOk;
    NeatLayouts();
    NeatIsOk(layout);
  }

  /******* Rendering *******/

  /** A field's text and the blanks in front of it: `pad` 0 is left-justified. */
  datatype Filled = Filled(text: string, pad: nat)

  predicate Fits(f: Field, v: Filled) {
    v.pad + |v.text| <= f.end - f.start + 1 && Trimmed(v.text)
  }

  predicate AllFit(layout: Layout, values: seq<Filled>) {
    |values| == |layout.fields| && forall i :: 0 <= i < |values| ==> Fits(layout.fields[i], values[i])
  }

  /** The byte a value puts at position `p` of its field. */
  function FieldByte(f: Field, v: Filled, p: nat): char
    requires f.start <= p
  {
    var k := p - f.start;
    if v.pad <= k < v.pad + |v.text| then v.text[k - v.pad] else ' '
  }

  /** The byte at position `p` of the rendered line. */
  function ByteAt(fields: seq<Field>, values: seq<Filled>, p: nat): char
    requires |fields| == |values|
  {
    if fields == [] then ' '
    else if fields[0].start <= p <= fields[0].end then FieldByte(fields[0], values[0], p)
    else ByteAt(fields[1..], values[1..], p)
  }

  /** A blank line of `width` bytes with the values and the sign written into it. */
  function Render(layout: Layout, values: seq<Filled>, sign: char, width: nat): (line: string)
    requires |values| == |layout.fields|
    ensures |line| == width
  {
    seq(width, q requires 0 <= q < width =>
      if q + 1 == layout.sign then sign else ByteAt(layout.fields, values, q + 1))
  }

  lemma {:induction false} ByteOfField(fields: seq<Field>, values: seq<Filled>, i: nat, p: nat)
    requires |fields| == |values| && i < |fields| && fields[i].start <= p <= fields[i].end
    requires forall k :: 0 <= k < |fields| && k != i ==> fields[k].end < fields[i].start || fields[i].end < fields[k].start
    ensures ByteAt(fields, values, p) == FieldByte(fields[i], values[i], p)
  {
    if i > 0 {
      assert fields[0].end < fields[i].start || fields[i].end < fields[0].start;
      ByteOfField(fields[1..], values[1..], i - 1, p);
    }
  }

  function Spaces(n: nat): (s: string)
    ensures |s| == n && Blank(s)
  {
    seq(n, _ => ' ')
  }

  /** Slicing a rendered line gives every field back, wherever in its range it was
      put, and the sign byte is where the layout says. */
  lemma RenderSliceRoundTrip(layout: Layout, values: seq<Filled>, sign: char, width: nat, i: nat)
    requires LayoutOk(layout) && AllFit(layout, values) && i < |values|
    requires forall f :: f in layout.fields ==> f.end <= width
    ensures var f := layout.fields[i]; Slice(Render(layout, values, sign, width), f) == values[i].text
    ensures 0 < layout.sign <= width ==> Render(layout, values, sign, width)[layout.sign - 1] == sign
  {
    var f, v := layout.fields[i], values[i];
    var line := Render(layout, values, sign, width);
    var rest := f.end - f.start + 1 - v.pad - |v.text|;
    var text := Spaces(v.pad) + v.text + Spaces(rest);
    assert f in layout.fields;
    assert Cut(line, f) == line[f.start - 1..f.end];
    forall k | 0 <= k < |text| ensures line[f.start - 1..f.end][k] == text[k] {
      ByteOfField(layout.fields, values, i, f.start + k);
    }
    assert line[f.start - 1..f.end] == text;
    StripPads(Spaces(v.pad), v.text, Spaces(rest));
  }

  /** The guard is exact: a line passes it iff it holds every byte of every field of
      the position, and then it holds the sign byte as well. */
  lemma GuardCoversPosition(layout: Layout, line: string)
    requires LayoutOk(layout)
    ensures |line| >= layout.minLen <==> forall i :: 0 <= i <= layout.last ==> layout.fields[i].end <= |line|
    ensures |line| >= layout.minLen ==> layout.sign <= |line|
  {
  }

  /** Every field of a line, in layout order. */
  function Slices(layout: Layout, line: string): (cells: seq<string>)
    ensures |cells| == |layout.fields|
  {
    seq(|layout.fields|, i requires 0 <= i < |layout.fields| => Slice(line, layout.fields[i]))
  }

  function Texts(values: seq<Filled>): seq<string> {
    seq(|values|, i requires 0 <= i < |values| => values[i].text)
  }

  /** The whole record comes back from its rendering. */
  lemma RecordRoundTrip(layout: Layout, values: seq<Filled>, sign: char, width: nat)
    requires LayoutOk(layout) && AllFit(layout, values)
    requires forall f :: f in layout.fields ==> f.end <= width
    ensures Slices(layout, Render(layout, values, sign, width)) == Texts(values)
  {
    forall i | 0 <= i < |values| ensures Slices(layout, Render(layout, values, sign, width))[i] == Texts(values)[i] {
      RenderSliceRoundTrip(layout, values, sign, width, i);
    }
  }
}
