/** Python's text conversions as the parsers and the manifest use them: `strip`,
    `split`, `str` of an integer and `int` of a string, on latin-1 text. */
module PythonText {
  import opened Wrappers

  /******* Whitespace *******/

  /** `str.isspace` on the characters latin-1 can decode to. */
  predicate IsSpace(c: char) {
    || '\t' <= c <= '\r'
    || c == ' '
    || 28 <= c as int <= 31
    || c as int == 133
    || c as int == 160
  }

  /** By code point: tab to carriage return, the four separators, space, next line, and the
      no-break space. */
  lemma SpacesExactly(c: char)
    ensures IsSpace(c) <==> c as int in {9, 10, 11, 12, 13, 28, 29, 30, 31, 32, 133, 160}
  {
  }

  predicate Blank(s: string) {
    forall c :: c in s ==> IsSpace(c)
  }

  function StripLeft(s: string): string {
    if s != "" && IsSpace(s[0]) then StripLeft(s[1..]) else s
  }

  function StripRight(s: string): string {
    if s != "" && IsSpace(s[|s| - 1]) then StripRight(s[..|s| - 1]) else s
  }

  function Strip(s: string): string {
    StripRight(StripLeft(s))
  }

  /** No whitespace at either end. */
  predicate Trimmed(s: string) {
    s == "" || (!IsSpace(s[0]) && !IsSpace(s[|s| - 1]))
  }

  lemma {:induction false} StripLeftPads(pad: string, s: string)
    requires Blank(pad) && (s == "" || !IsSpace(s[0]))
    ensures StripLeft(pad + s) == s
  {
    if pad == "" {
      assert pad + s == s;
    } else {
      assert (pad + s)[1..] == pad[1..] + s;
      StripLeftPads(pad[1..], s);
    }
  }

  lemma {:induction false} StripRightPads(s: string, pad: string)
    requires Blank(pad) && (s == "" || !IsSpace(s[|s| - 1]))
    ensures StripRight(s + pad) == s
  {
    if pad == "" {
      assert s + pad == s;
    } else {
      assert (s + pad)[..|s + pad| - 1] == s + pad[..|pad| - 1];
      StripRightPads(s, pad[..|pad| - 1]);
    }
  }

  /** Stripping undoes padding. */
  lemma StripPads(left: string, s: string, right: string)
    requires Blank(left) && Blank(right) && Trimmed(s)
    ensures Strip(left + s + right) == s
  {
    if s == "" {
      assert left + s + right == (left + right) + "";
      StripLeftPads(left + right, "");
    } else {
      assert left + s + right == left + (s + right);
      StripLeftPads(left, s + right);
      StripRightPads(s, right);
    }
  }

  lemma {:induction false} StripLeftBlank(s: string)
    ensures StripLeft(s) == "" <==> Blank(s)
    ensures StripLeft(s) != "" ==> !IsSpace(StripLeft(s)[0])
  {
    if s != "" && IsSpace(s[0]) {
      StripLeftBlank(s[1..]);
      assert s == [s[0]] + s[1..];
    }
  }

  lemma {:induction false} StripRightBlank(s: string)
    ensures StripRight(s) == "" <==> Blank(s)
  {
    if s != "" && IsSpace(s[|s| - 1]) {
      StripRightBlank(s[..|s| - 1]);
      assert s == s[..|s| - 1] + [s[|s| - 1]];
    }
  }

  lemma StripBlank(s: string)
    ensures Strip(s) == "" <==> Blank(s)
  {
    StripLeftBlank(s);
    StripRightBlank(StripLeft(s));
  }

  /******* Splitting on whitespace *******/

  /** Length of the leading run without whitespace. */
  function WordLength(s: string): (n: nat)
    ensures n <= |s| && (n < |s| ==> IsSpace(s[n])) && forall i :: 0 <= i < n ==> !IsSpace(s[i])
  {
    if s == "" || IsSpace(s[0]) then 0 else 1 + WordLength(s[1..])
  }

  function Split(s: string): (words: seq<string>)
    decreases |s|
    ensures forall w :: w in words ==> w != "" && !IsSpace(w[0])
  {
    if s == "" then []
    else if IsSpace(s[0]) then Split(s[1..])
    else [s[..WordLength(s)]] + Split(s[WordLength(s)..])
  }

  lemma {:induction false} SplitBlank(s: string)
    ensures Split(s) == [] <==> Blank(s)
    decreases |s|
  {
    if s != "" && IsSpace(s[0]) {
      SplitBlank(s[1..]);
      assert s == [s[0]] + s[1..];
    }
  }

  predicate IsWord(s: string) {
    s != "" && forall c :: c in s ==> !IsSpace(c)
  }

  /** A line of words with the whitespace around them: a gap, a word, a gap, and so on. */
  function Spread(words: seq<string>, gaps: seq<string>): string
    requires |gaps| == |words| + 1
  {
    if words == [] then gaps[0] else gaps[0] + words[0] + Spread(words[1..], gaps[1..])
  }

  predicate Separates(words: seq<string>, gaps: seq<string>) {
    && |gaps| == |words| + 1
    && (forall w :: w in words ==> IsWord(w))
    && (forall g :: g in gaps ==> Blank(g))
    && (forall i :: 0 < i < |words| ==> gaps[i] != "")
  }

  lemma WordLengthOf(word: string, rest: string)
    requires IsWord(word) && (rest == "" || IsSpace(rest[0]))
    ensures WordLength(word + rest) == |word|
  {
    var s := word + rest;
    assert forall i :: 0 <= i < |word| ==> s[i] == word[i];
    assert rest != "" ==> s[|word|] == rest[0];
  }

  lemma SplitWord(word: string, rest: string)
    requires IsWord(word) && (rest == "" || IsSpace(rest[0]))
    ensures Split(word + rest) == [word] + Split(rest)
  {
    WordLengthOf(word, rest);
    assert (word + rest)[..|word|] == word && (word + rest)[|word|..] == rest;
    assert (word + rest)[0] == word[0];
  }

  lemma {:induction false} SplitPad(pad: string, rest: string)
    requires Blank(pad)
    ensures Split(pad + rest) == Split(rest)
  {
    if pad == "" {
      assert pad + rest == rest;
    } else {
      assert (pad + rest)[1..] == pad[1..] + rest;
      SplitPad(pad[1..], rest);
    }
  }

  /** Splitting gives the words back, whatever whitespace stands around them. */
  lemma {:induction false} SplitSpread(words: seq<string>, gaps: seq<string>)
    requires Separates(words, gaps)
    ensures Split(Spread(words, gaps)) == words
  {
    if words == [] {
      SplitBlank(gaps[0]);
    } else {
      var rest := Spread(words[1..], gaps[1..]);
      SplitSpread(words[1..], gaps[1..]);
      SplitPad(gaps[0], words[0] + rest);
      if |words| > 1 || gaps[1] != "" {
        assert rest[0] == gaps[1][0] && gaps[1] in gaps;
      }
      SplitWord(words[0], rest);
      assert gaps[0] + words[0] + rest == gaps[0] + (words[0] + rest);
      assert words == [words[0]] + words[1..];
    }
  }

  lemma SpreadLonger(c: char, words: seq<string>, gaps: seq<string>)
    requires IsSpace(c) && Separates(words, gaps)
    ensures var longer := [[c] + gaps[0]] + gaps[1..];
            Separates(words, longer) && Spread(words, longer) == [c] + Spread(words, gaps)
  {
    var first := [c] + gaps[0];
    assert Blank(gaps[0]);
    assert forall d :: d in first ==> d == c || d in gaps[0];
    assert ([first] + gaps[1..])[1..] == gaps[1..];
  }

  lemma SpreadMore(word: string, words: seq<string>, gaps: seq<string>)
    requires IsWord(word) && Separates(words, gaps)
    requires Spread(words, gaps) != "" ==> IsSpace(Spread(words, gaps)[0])
    ensures Separates([word] + words, [""] + gaps)
    ensures Spread([word] + words, [""] + gaps) == word + Spread(words, gaps)
  {
    if words != [] {
      assert words[0] in words;
      var first := words[0][0];
      assert first in words[0];
      assert Spread(words, gaps)[0] == if gaps[0] == "" then first else gaps[0][0];
    }
    assert ([""] + gaps)[1..] == gaps && ([word] + words)[1..] == words;
  }

  /** Every line is such a line of its words. */
  lemma {:induction false} EveryLineIsSpread(s: string) returns (gaps: seq<string>)
    decreases |s|
    ensures Separates(Split(s), gaps) && Spread(Split(s), gaps) == s
  {
    if s == "" {
      gaps := [""];
    } else if IsSpace(s[0]) {
      var more := EveryLineIsSpread(s[1..]);
      SpreadLonger(s[0], Split(s), more);
      gaps := [[s[0]] + more[0]] + more[1..];
    } else {
      var n := WordLength(s);
      var more := EveryLineIsSpread(s[n..]);
      SpreadMore(s[..n], Split(s[n..]), more);
      gaps := [""] + more;
      assert s == s[..n] + s[n..];
    }
  }

  /******* Splitting on a character *******/

  function SplitOn(s: string, c: char): (parts: seq<string>)
    ensures |parts| >= 1
  {
    if s == "" then [""]
    else
      var rest := SplitOn(s[1..], c);
      if s[0] == c then [""] + rest else [[s[0]] + rest[0]] + rest[1..]
  }

  function JoinOn(parts: seq<string>, c: char): string
    requires |parts| >= 1
  {
    if |parts| == 1 then parts[0] else parts[0] + [c] + JoinOn(parts[1..], c)
  }

  lemma {:induction false} SplitOnPart(part: string, rest: string, c: char)
    requires c !in part
    ensures SplitOn(part, c) == [part]
    ensures SplitOn(part + [c] + rest, c) == [part] + SplitOn(rest, c)
  {
    if part == "" {
      assert (part + [c] + rest)[1..] == rest;
    } else {
      SplitOnPart(part[1..], rest, c);
      assert (part + [c] + rest)[1..] == part[1..] + [c] + rest;
      assert part == [part[0]] + part[1..];
    }
  }

  /** Splitting on a character undoes joining with it. */
  lemma {:induction false} SplitOnJoin(parts: seq<string>, c: char)
    requires |parts| >= 1 && forall p :: p in parts ==> c !in p
    ensures SplitOn(JoinOn(parts, c), c) == parts
  {
    if |parts| == 1 {
      SplitOnPart(parts[0], "", c);
    } else {
      SplitOnJoin(parts[1..], c);
      SplitOnPart(parts[0], JoinOn(parts[1..], c), c);
      assert parts == [parts[0]] + parts[1..];
    }
  }

  /** And joining undoes splitting. */
  lemma {:induction false} EveryLineIsJoined(s: string, c: char)
    ensures JoinOn(SplitOn(s, c), c) == s
    ensures forall p :: p in SplitOn(s, c) ==> c !in p
  {
    if s != "" {
      EveryLineIsJoined(s[1..], c);
      var rest := SplitOn(s[1..], c);
      assert SplitOn(s, c)[1..] == if s[0] == c then rest else rest[1..];
      assert s == [s[0]] + s[1..];
    }
  }

  /******* Integers *******/

  predicate IsDigit(c: char) {
    '0' <= c <= '9'
  }

  function Digit(d: nat): char
    requires d < 10
  {
    ('0' as int + d) as char
  }

  function DigitValue(c: char): nat
    requires IsDigit(c)
  {
    c as int - '0' as int
  }

  function Decimal(n: nat): (s: string)
    ensures |s| > 0 && forall c :: c in s ==> IsDigit(c)
  {
    if n < 10 then [Digit(n)] else Decimal(n / 10) + [Digit(n % 10)]
  }

  /** `str(i)`. */
  function DecimalInt(i: int): string {
    if i < 0 then "-" + Decimal(-i) else Decimal(i)
  }

  /** Digits, with single underscores allowed between them. */
  function ParseDigits(s: string): Option<nat> {
    if s == "" || !IsDigit(s[|s| - 1]) then None
    else
      var last := DigitValue(s[|s| - 1]);
      if |s| == 1 then Some(last)
      else
        var high := if s[|s| - 2] == '_' then ParseDigits(s[..|s| - 2]) else ParseDigits(s[..|s| - 1]);
        if high.Some? then Some(10 * high.value + last) else None
  }

  /** `int(s)`; `None` stands for the `ValueError`. */
  function ParseInt(s: string): Option<int> {
    var t := Strip(s);
    var signed := t != "" && (t[0] == '-' || t[0] == '+');
    var n := ParseDigits(if signed then t[1..] else t);
    if n.None? then None else if signed && t[0] == '-' then Some(-(n.value as int)) else Some(n.value as int)
  }

  /** Digits from end to end, with single underscores between them. */
  predicate IsNumeral(s: string) {
    && s != "" && IsDigit(s[0]) && IsDigit(s[|s| - 1])
    && (forall i :: 0 <= i < |s| ==> IsDigit(s[i]) || s[i] == '_')
    && (forall i :: 0 < i < |s| ==> s[i] != '_' || s[i - 1] != '_')
  }

  lemma {:induction false} DigitsExactly(s: string)
    ensures ParseDigits(s).Some? <==> IsNumeral(s)
  {
    if |s| > 1 && IsDigit(s[|s| - 1]) {
      var high := if s[|s| - 2] == '_' then s[..|s| - 2] else s[..|s| - 1];
      DigitsExactly(high);
      if IsNumeral(s) && s[|s| - 2] == '_' {
        assert s[|s| - 3] != '_';
      }
    }
  }

  /** `int` reads an integer exactly from a numeral with at most a sign before it, and with
      whitespace around it. */
  lemma IntExactly(s: string)
    ensures var t := Strip(s);
            && (ParseInt(s).Some? <==> IsNumeral(t) || (t != "" && (t[0] == '+' || t[0] == '-') && IsNumeral(t[1..])))
            && (IsNumeral(t) ==> ParseInt(s) == ParseDigits(t))
  {
    var t := Strip(s);
    DigitsExactly(t);
    if t != "" {
      DigitsExactly(t[1..]);
    }
    hide Strip, ParseDigits;
  }

  /** A digit more makes what stands before it worth ten times as much, across an underscore
      too. */
  lemma DigitsAppend(s: string, d: char)
    requires IsDigit(d)
    ensures ParseDigits([d]) == Some(DigitValue(d))
    ensures IsNumeral(s) ==>
              && ParseDigits(s).Some?
              && ParseDigits(s + [d]) == ParseDigits(s + "_" + [d]) == Some(10 * ParseDigits(s).value + DigitValue(d))
  {
    DigitsExactly(s);
    assert (s + [d])[..|s + [d]| - 1] == s;
    assert (s + "_" + [d])[..|s + "_" + [d]| - 2] == s;
  }

  lemma {:induction false} DigitsRoundTrip(n: nat)
    ensures ParseDigits(Decimal(n)) == Some(n)
  {
    if n >= 10 {
      DigitsRoundTrip(n / 10);
      var s := Decimal(n);
      assert s[..|s| - 1] == Decimal(n / 10);
      assert IsDigit(s[|s| - 2]);
    }
  }

  lemma StripTrimmed(s: string)
    requires Trimmed(s)
    ensures Strip(s) == s
  {
    StripPads("", s, "");
    assert "" + s + "" == s;
  }

  lemma IntRoundTrip(i: int)
    ensures ParseInt(DecimalInt(i)) == Some(i)
    ensures forall c :: c in DecimalInt(i) ==> IsDigit(c) || c == '-'
  {
    var s := DecimalInt(i);
    DigitsRoundTrip(if i < 0 then -i else i);
    assert s[|s| - 1] in s && s[0] in s;
    StripTrimmed(s);
    if i < 0 {
      assert s[1..] == Decimal(-i);
    } else {
      assert IsDigit(s[0]);
    }
  }

  /** `int("-" + s)` is `-int(s)` when `s` is unsigned: the sign of "-00" is lost. */
  lemma SignedInt(s: string)
    requires IsWord(s) && IsDigit(s[0])
    ensures ParseInt("-" + s) == (if ParseInt(s).Some? then Some(-ParseInt(s).value) else None)
    ensures ParseInt("+" + s) == ParseInt(s)
    ensures ParseInt(s).Some? ==> ParseInt(s).value >= 0
  {
    StripTrimmed(s);
    StripTrimmed("-" + s);
    StripTrimmed("+" + s);
    assert ("-" + s)[1..] == s && ("+" + s)[1..] == s;
  }

  /******* Floats *******/

  /** Python's `int()` of a float truncates toward zero. */
  function Truncate(r: real): int {
    if r >= 0.0 then r.Floor else -((-r).Floor)
  }

  /** `n` is the nearest whole number on the way from `r` to zero. */
  predicate CutsTo(r: real, n: int) {
    if r >= 0.0 then n as real <= r < n as real + 1.0 else n as real - 1.0 < r <= n as real
  }

  lemma TruncateCuts(r: real)
    ensures forall n :: CutsTo(r, n) <==> n == Truncate(r)
  {
  }

  /** What `float(s)` gives: an error, a finite number, an infinity or a NaN. */
  datatype Float = NotAFloat | Finite(r: real) | Infinite(positive: bool) | NaN

  type FloatParser = string -> Float
}
