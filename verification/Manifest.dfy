/** The manifest a source tree is identified by: which files a scan finds, the text
    fed to the hash, and what that text determines. Facts are about the text; the
    hash is not modelled.

    Models `skycat/ingestion/discovery.py:72-111`. */
module Manifest {
  import opened Wrappers
  import opened Sequences
  import opened Ordering
  import opened PythonText

  /** `size` bytes, modified `mtime` seconds from the epoch. */
  datatype File = File(path: string, size: nat, mtime: real)

  /** What one manifest line records. */
  datatype Entry = Entry(path: string, size: nat, mtime: int)

  function EntryOf(f: File): Entry {
    Entry(f.path, f.size, Truncate(f.mtime))
  }

  function EntriesOf(files: seq<File>): (r: seq<Entry>)
    ensures |r| == |files|
  {
    seq(|files|, i requires 0 <= i < |files| => EntryOf(files[i]))
  }

  /******* The text *******/

  function Line(e: Entry): string {
    e.path + ":" + Decimal(e.size) + ":" + DecimalInt(e.mtime)
  }

  function Text(entries: seq<Entry>): string {
    if entries == [] then "" else Line(entries[0]) + "\n" + Text(entries[1..])
  }

  lemma {:induction false} TextAppend(entries: seq<Entry>, e: Entry)
    ensures Text(entries + [e]) == Text(entries) + Line(e) + "\n"
  {
    if entries == [] {
      assert entries + [e] == [e];
      assert Text([e]) == Line(e) + "\n" + Text([]);
    } else {
      assert (entries + [e])[1..] == entries[1..] + [e];
      TextAppend(entries[1..], e);
    }
  }

  /** The position of the first `c`, or the length. */
  function First(s: string, c: char): (k: nat)
    ensures k <= |s| && (k < |s| ==> s[k] == c) && forall i :: 0 <= i < k ==> s[i] != c
  {
    if s == "" || s[0] == c then 0 else 1 + First(s[1..], c)
  }

  /** The position of the last `c`, if there is one. */
  function Last(s: string, c: char): (k: Option<nat>)
    ensures k.Some? ==> k.value < |s| && s[k.value] == c && forall i :: k.value < i < |s| ==> s[i] != c
    ensures k.None? ==> forall i :: 0 <= i < |s| ==> s[i] != c
  {
    if s == "" then None
    else if s[|s| - 1] == c then Some(|s| - 1)
    else Last(s[..|s| - 1], c)
  }

  lemma LastAt(s: string, c: char, k: nat)
    requires k < |s| && s[k] == c && forall i :: k < i < |s| ==> s[i] != c
    ensures Last(s, c) == Some(k)
  {
    hide Last;
  }

  lemma LastIs(a: string, c: char, b: string)
    requires c !in b
    ensures Last(a + [c] + b, c) == Some(|a|)
  {
    var s := a + [c] + b;
    assert s[|a| + 1..] == b;
    forall i | |a| < i < |s| ensures s[i] != c {
      assert s[i] in s[|a| + 1..];
    }
    LastAt(s, c, |a|);
  }

  lemma FirstIs(a: string, c: char, b: string)
    requires c !in a
    ensures First(a + [c] + b, c) == |a|
  {
    hide First;
    var s := a + [c] + b;
    assert s[|a|] == c;
    forall k | 0 <= k < |a| ensures s[k] != c {
      assert s[k] == a[k];
    }
  }

  /** Read a line from the right: the path may itself hold colons. */
  function ParseLine(line: string): Option<Entry> {
    match Last(line, ':')
    case None => None
    case Some(j) =>
      match Last(line[..j], ':')
      case None => None
      case Some(i) =>
        var size, mtime := ParseInt(line[i + 1..j]), ParseInt(line[j + 1..]);
        if size.Some? && size.value >= 0 && mtime.Some? then Some(Entry(line[..i], size.value, mtime.value)) else None
  }

  function Decode(text: string): Option<seq<Entry>>
    decreases |text|
  {
    if text == "" then Some([])
    else
      var k := First(text, '\n');
      if k == |text| then None
      else
        var e, rest := ParseLine(text[..k]), Decode(text[k + 1..]);
        if e.Some? && rest.Some? then Some([e.value] + rest.value) else None
  }

  /** The two colons a line is read by, whatever the path holds. */
  lemma ColonsFound(path: string, size: string, mtime: string)
    requires ':' !in size && ':' !in mtime
    ensures var line := path + ":" + size + ":" + mtime;
            && Last(line, ':') == Some(|path| + 1 + |size|)
            && Last(line[..|path| + 1 + |size|], ':') == Some(|path|)
            && line[..|path|] == path
            && line[|path| + 1..|path| + 1 + |size|] == size
            && line[|path| + 1 + |size| + 1..] == mtime
  {
    hide Last;
    var line := path + ":" + size + ":" + mtime;
    LastIs(path + ":" + size, ':', mtime);
    LastIs(path, ':', size);
    assert line[..|path| + 1 + |size|] == path + ":" + size;
  }

  lemma LineRoundTrip(e: Entry)
    ensures ParseLine(Line(e)) == Some(e)
  {
    hide Last, ParseInt, Decimal;
    IntRoundTrip(e.size);
    IntRoundTrip(e.mtime);
    ColonsFound(e.path, Decimal(e.size), DecimalInt(e.mtime));
  }

  predicate NewlineFree(entries: seq<Entry>) {
    forall e :: e in entries ==> '\n' !in e.path
  }

  lemma DecodeLine(line: string, rest: string)
    requires '\n' !in line && ParseLine(line).Some? && Decode(rest).Some?
    ensures Decode(line + "\n" + rest) == Some([ParseLine(line).value] + Decode(rest).value)
  {
    hide ParseLine;
    var text := line + "\n" + rest;
    FirstIs(line, '\n', rest);
    assert text[..|line|] == line && text[|line| + 1..] == rest;
  }

  lemma LineNewlineFree(e: Entry)
    ensures '\n' in Line(e) <==> '\n' in e.path
  {
  }

  lemma {:induction false} TextRoundTrip(entries: seq<Entry>)
    requires NewlineFree(entries)
    ensures Decode(Text(entries)) == Some(entries)
  {
    hide ParseLine, Line;
    if entries != [] {
      hide Decode;
      var e, rest := entries[0], entries[1..];
      LineRoundTrip(e);
      LineNewlineFree(e);
      TextRoundTrip(rest);
      DecodeLine(Line(e), Text(rest));
      assert Text(entries) == Line(e) + "\n" + Text(rest);
      assert entries == [e] + rest;
    }
  }

  /******* When the text cannot be read back *******/

  function Newlines(s: string): nat {
    if s == "" then 0 else (if s[0] == '\n' then 1 else 0) + Newlines(s[1..])
  }

  lemma {:induction false} NewlinesAppend(a: string, b: string)
    ensures Newlines(a + b) == Newlines(a) + Newlines(b)
  {
    if a == "" {
      assert a + b == b;
    } else {
      assert (a + b)[1..] == a[1..] + b;
      NewlinesAppend(a[1..], b);
    }
  }

  lemma {:induction false} NoNewlines(s: string)
    ensures Newlines(s) == 0 <==> '\n' !in s
  {
    if s != "" {
      NoNewlines(s[1..]);
    }
  }

  lemma {:induction false} FirstLine(text: string)
    requires First(text, '\n') < |text|
    ensures Newlines(text) == 1 + Newlines(text[First(text, '\n') + 1..])
  {
    if text[0] != '\n' {
      FirstLine(text[1..]);
      assert text[1..][First(text[1..], '\n') + 1..] == text[First(text, '\n') + 1..];
    }
  }

  lemma {:induction false} DecodeCountsLines(text: string)
    requires Decode(text).Some?
    ensures |Decode(text).value| == Newlines(text)
    decreases |text|
  {
    hide ParseLine;
    if text != "" {
      hide Newlines, First;
      DecodeCountsLines(text[First(text, '\n') + 1..]);
      FirstLine(text);
    }
  }

  lemma LineNewlines(e: Entry)
    ensures Newlines(Line(e)) == Newlines(e.path)
  {
    var rest := ":" + Decimal(e.size) + ":" + DecimalInt(e.mtime);
    IntRoundTrip(e.mtime);
    NoNewlines(rest);
    NewlinesAppend(e.path, rest);
    assert Line(e) == e.path + rest;
  }

  lemma {:induction false} TextNewlines(entries: seq<Entry>)
    ensures Newlines(Text(entries)) >= |entries|
    ensures Newlines(Text(entries)) == |entries| <==> NewlineFree(entries)
  {
    if entries != [] {
      var e, rest := entries[0], entries[1..];
      TextNewlines(rest);
      LineNewlines(e);
      NoNewlines(e.path);
      NewlinesAppend(Line(e) + "\n", Text(rest));
      NewlinesAppend(Line(e), "\n");
      assert entries == [e] + rest;
    }
  }

  /** Reading the text line by line, and each line from its right end, recovers the
      entries, colons in paths and negative times included, exactly when no path holds a
      newline. */
  lemma ManifestReadsBack(entries: seq<Entry>)
    ensures Decode(Text(entries)) == Some(entries) <==> NewlineFree(entries)
  {
    if NewlineFree(entries) {
      TextRoundTrip(entries);
    } else if Decode(Text(entries)) == Some(entries) {
      DecodeCountsLines(Text(entries));
      TextNewlines(entries);
    }
  }

  lemma ManifestIsInjective(xs: seq<Entry>, ys: seq<Entry>)
    requires NewlineFree(xs) && NewlineFree(ys) && Text(xs) == Text(ys)
    ensures xs == ys
  {
    TextRoundTrip(xs);
    TextRoundTrip(ys);
  }

  /** The data files of the shipped APASS DR10 release: `z[pm]*.txt`. */
  predicate MatchesDr10(path: string) {
    |path| >= 6 && path[0] == 'z' && (path[1] == 'p' || path[1] == 'm') && path[|path| - 4..] == ".txt" && '/' !in path
  }

  /** Whatever two files are called, a third whose name holds the first's line, a
      newline and the second's name has the manifest text of both. */
  lemma NewlineJoinsLines(a: Entry, b: Entry)
    ensures Text([Entry(Line(a) + "\n" + b.path, b.size, b.mtime)]) == Text([a, b])
  {
    hide Line;
    var both := Entry(Line(a) + "\n" + b.path, b.size, b.mtime);
    JoinedLine(a, b);
    assert [a, b][1..] == [b] && [b][1..] == [] && [both][1..] == [];
    assert Text([b]) == Line(b) + "\n" + "";
    assert Text([a, b]) == Line(a) + "\n" + Text([b]);
    assert Text([both]) == Line(both) + "\n" + "";
  }

  lemma JoinedLine(a: Entry, b: Entry)
    ensures Line(Entry(Line(a) + "\n" + b.path, b.size, b.mtime)) == Line(a) + "\n" + Line(b)
  {
    hide Decimal, DecimalInt;
  }

  /** The name begins with another file's line and a newline. */
  predicate HoldsLine(path: string, e: Entry, k: nat) {
    k < |path| && path[k] == '\n' && path[..k] == Line(e)
  }

  lemma LinesDiffer(x: Entry, y: Entry)
    requires Line(x) == Line(y)
    ensures x == y
  {
    LineRoundTrip(x);
    LineRoundTrip(y);
  }

  lemma NewlineWithin(path: string, suffix: string, line: string, rest: string)
    requires path + suffix + "\n" == line + "\n" + rest && rest != "" && '\n' !in suffix
    ensures |line| < |path| && path[|line|] == '\n' && path[..|line|] == line
  {
    var text, k := path + suffix + "\n", |line|;
    assert text[..k] == line && text[k] == '\n' && k < |text| - 1;
    forall i | |path| <= i < |path| + |suffix| ensures text[i] != '\n' {
      assert text[i] == suffix[i - |path|];
    }
    assert path[..k] == text[..k];
  }

  /** Where the text of one file ends a line early, its name holds that line. */
  lemma EarlyNewline(x: Entry, y: Entry, rest: string)
    requires Line(x) + "\n" == Line(y) + "\n" + rest && rest != ""
    ensures HoldsLine(x.path, y, |Line(y)|)
  {
    var suffix := ":" + Decimal(x.size) + ":" + DecimalInt(x.mtime);
    IntRoundTrip(x.mtime);
    assert Line(x) == x.path + suffix;
    NewlineWithin(x.path, suffix, Line(y), rest);
  }

  /** The other half of a single name that holds a line. */
  function AfterLine(x: Entry, k: nat): Entry
    requires k < |x.path|
  {
    Entry(x.path[k + 1..], x.size, x.mtime)
  }

  lemma SplitsInTwo(x: Entry, e: Entry, k: nat)
    requires HoldsLine(x.path, e, k)
    ensures Text([x]) == Text([e, AfterLine(x, k)])
  {
    hide Text, Line;
    NewlineJoinsLines(e, AfterLine(x, k));
    assert x.path == Line(e) + "\n" + x.path[k + 1..];
  }

  lemma TextOfOne(x: Entry)
    ensures Text([x]) == Line(x) + "\n"
  {
    hide Line;
    assert Text([x]) == Line(x) + "\n" + Text([x][1..]);
  }

  /** The last two files read as one. */
  function LastTwoAsOne(xs: seq<Entry>): seq<Entry>
    requires |xs| >= 2
  {
    var a, b := xs[|xs| - 2], xs[|xs| - 1];
    xs[..|xs| - 2] + [Entry(Line(a) + "\n" + b.path, b.size, b.mtime)]
  }

  lemma LastTwoShorter(xs: seq<Entry>)
    requires |xs| >= 2
    ensures |LastTwoAsOne(xs)| == |xs| - 1
  {
  }

  lemma LastTwoKeepText(xs: seq<Entry>)
    requires |xs| >= 2
    ensures Text(LastTwoAsOne(xs)) == Text(xs)
  {
    hide Line, Text;
    var init, a, b := xs[..|xs| - 2], xs[|xs| - 2], xs[|xs| - 1];
    JoinedLine(a, b);
    TextAppend(init, a);
    TextAppend(init + [a], b);
    TextAppend(init, Entry(Line(a) + "\n" + b.path, b.size, b.mtime));
    assert init + [a] + [b] == xs;
  }

  /** A list of files shares its text with another exactly when it holds two files or
      more, or its one file's name begins with another's line and a newline. */
  lemma SharesTextExactly(xs: seq<Entry>)
    ensures (exists ys :: ys != xs && Text(ys) == Text(xs))
       <==> |xs| >= 2 || (|xs| == 1 && exists k: nat, e :: HoldsLine(xs[0].path, e, k))
  {
    hide Line, Text, LastTwoAsOne;
    if |xs| >= 2 {
      LastTwoKeepText(xs);
      LastTwoShorter(xs);
    } else if |xs| == 1 && exists k: nat, e :: HoldsLine(xs[0].path, e, k) {
      var k: nat, e :| HoldsLine(xs[0].path, e, k);
      SplitsInTwo(xs[0], e, k);
      assert xs == [xs[0]];
      assert [e, AfterLine(xs[0], k)] != xs;
    } else {
      forall ys | Text(ys) == Text(xs) ensures ys == xs {
        NoOtherReading(xs, ys);
      }
    }
  }

  lemma NoOtherReading(xs: seq<Entry>, ys: seq<Entry>)
    requires Text(ys) == Text(xs) && |xs| <= 1
    requires |xs| == 1 ==> forall k: nat, e :: !HoldsLine(xs[0].path, e, k)
    ensures ys == xs
  {
    hide Line, HoldsLine;
    if xs != [] && ys != [] {
      assert xs == [xs[0]];
      TextOfOne(xs[0]);
      assert Text(ys) == Line(ys[0]) + "\n" + Text(ys[1..]);
      assert ys[1..] != [] ==> Text(ys[1..]) != "";
      if Text(ys[1..]) != "" {
        EarlyNewline(xs[0], ys[0], Text(ys[1..]));
      }
      assert (Line(xs[0]) + "\n")[..|Line(xs[0])|] == (Line(ys[0]) + "\n")[..|Line(ys[0])|];
      LinesDiffer(xs[0], ys[0]);
      assert ys == [ys[0]] + ys[1..];
    }
  }

  lemma FirstLineOfTwo()
    ensures Line(Entry("zm.txt", 1, 2)) + "\n" + "zp.txt" == "zm.txt:1:2\nzp.txt"
  {
    assert Decimal(1) == "1" && Decimal(2) == "2";
  }

  lemma AllMatch()
    ensures MatchesDr10("zm.txt:1:2\nzp.txt") && MatchesDr10("zm.txt") && MatchesDr10("zp.txt")
  {
  }

  /** Two different trees of names the release matches, one manifest text. */
  lemma NewlineInPathCollides()
    ensures MatchesDr10("zm.txt:1:2\nzp.txt") && MatchesDr10("zm.txt") && MatchesDr10("zp.txt")
    ensures Text([Entry("zm.txt:1:2\nzp.txt", 3, 4)]) == Text([Entry("zm.txt", 1, 2), Entry("zp.txt", 3, 4)])
  {
    hide Text, Line, MatchesDr10;
    AllMatch();
    var a, b := Entry("zm.txt", 1, 2), Entry("zp.txt", 3, 4);
    NewlineJoinsLines(a, b);
    FirstLineOfTwo();
  }

  /******* Scanning a directory *******/

  /** The directory as a scan sees it: what each pattern matches, and the regular
      files with their sizes and times. */
  datatype Directory = Directory(matches: map<string, seq<string>>, files: map<string, (nat, real)>)

  function FileAt(dir: Directory, path: string): File
    requires path in dir.files
  {
    File(path, dir.files[path].0, dir.files[path].1)
  }

  function Glob(dir: Directory, pattern: string): seq<string> {
    if pattern in dir.matches then dir.matches[pattern] else []
  }

  /** Is this a regular file some pattern matches? */
  predicate Matched(dir: Directory, patterns: seq<string>, path: string) {
    path in dir.files && exists pattern :: pattern in patterns && path in Glob(dir, pattern)
  }

  predicate DistinctPaths(files: seq<File>) {
    forall i, j :: 0 <= i < j < |files| ==> files[i].path != files[j].path
  }

  predicate InFound(found: seq<File>, path: string) {
    exists f :: f in found && f.path == path
  }

  /** Every matched file once, however many patterns match it. */
  method Scan(dir: Directory, patterns: seq<string>) returns (found: seq<File>)
    ensures DistinctPaths(found)
    ensures forall f :: f in found <==> Matched(dir, patterns, f.path) && f == FileAt(dir, f.path)
  {
    found := [];
    for i := 0 to |patterns|
      invariant DistinctPaths(found)
      invariant forall f :: f in found <==> Matched(dir, patterns[..i], f.path) && f == FileAt(dir, f.path)
    {
      var paths := Glob(dir, patterns[i]);
      ghost var before := patterns[..i];
      for j := 0 to |paths|
        invariant DistinctPaths(found)
        invariant forall f :: f in found <==>
                    f.path in dir.files && f == FileAt(dir, f.path) && (Matched(dir, before, f.path) || f.path in paths[..j])
      {
        var path := paths[j];
        if path in dir.files && !InFound(found, path) {
          found := found + [FileAt(dir, path)];
        }
        assert paths[..j + 1] == paths[..j] + [path];
      }
      assert paths[..|paths|] == paths;
      assert patterns[..i + 1] == before + [patterns[i]];
    }
    assert patterns[..|patterns|] == patterns;
  }

  /******* The manifest *******/

  predicate PathLeq(a: File, b: File) {
    StringLeq(a.path, b.path)
  }

  /** The text hashed for these files. */
  function ManifestText(files: seq<File>): string {
    Text(EntriesOf(Sort(PathLeq, files)))
  }

  /** Feeds the hash one line at a time, in path order. */
  method ComputeManifest(files: seq<File>) returns (fed: string)
    ensures fed == ManifestText(files)
  {
    hide Sort, Line, EntryOf;
    fed := "";
    var ordered := Sort(PathLeq, files);
    for i := 0 to |ordered|
      invariant fed == Text(EntriesOf(ordered[..i]))
    {
      var e := EntryOf(ordered[i]);
      fed := fed + Line(e) + "\n";
      TextAppend(EntriesOf(ordered[..i]), e);
      assert EntriesOf(ordered[..i + 1]) == EntriesOf(ordered[..i]) + [e];
    }
    assert ordered[..|ordered|] == ordered;
  }

  lemma PathOrder()
    ensures TotalPreorder(PathLeq)
  {
    forall a: File, b: File ensures PathLeq(a, b) || PathLeq(b, a) {
      StringLeqTotal(a.path, b.path);
    }
    forall a: File, b: File, c: File | PathLeq(a, b) && PathLeq(b, c) ensures PathLeq(a, c) {
      StringLeqTransitive(a.path, b.path, c.path);
    }
  }

  predicate EntryLeq(a: Entry, b: Entry) {
    StringLeq(a.path, b.path)
  }

  /** The text is one line per file, `path:size:seconds`, in strict path order. */
  lemma ManifestInPathOrder(files: seq<File>) returns (entries: seq<Entry>)
    requires DistinctPaths(files)
    ensures ManifestText(files) == Text(entries) && |entries| == |files|
    ensures forall i, j :: 0 <= i < j < |entries| ==> Precedes(entries[i].path, entries[j].path)
    ensures forall f :: f in files ==> exists e :: e in entries && e.path == f.path && e.size == f.size && CutsTo(f.mtime, e.mtime)
  {
    var sorted := Sort(PathLeq, files);
    entries := EntriesOf(sorted);
    SortPermutes(PathLeq, files);
    assert |sorted| == |multiset(sorted)| == |files|;
    ManifestEntries(files);
    forall i, j | 0 <= i < j < |entries| ensures Precedes(entries[i].path, entries[j].path) {
      assert EntryLeq(entries[i], entries[j]);
      StringLeqExactly(entries[i].path, entries[j].path);
    }
    forall f | f in files ensures exists e :: e in entries && e.path == f.path && e.size == f.size && CutsTo(f.mtime, e.mtime) {
      TruncateCuts(f.mtime);
      assert Recorded(files, EntryOf(f));
    }
  }

  /** Two lists of the same entries in path order, each path once, are one list. */
  lemma {:induction false} SortedIsUnique(xs: seq<Entry>, ys: seq<Entry>)
    requires Sorted(EntryLeq, xs) && Sorted(EntryLeq, ys)
    requires forall i, j :: 0 <= i < j < |xs| ==> xs[i].path != xs[j].path
    requires forall i, j :: 0 <= i < j < |ys| ==> ys[i].path != ys[j].path
    requires forall e :: e in xs <==> e in ys
    ensures xs == ys
  {
    assert |xs| > 0 ==> xs[0] in ys;
    assert |ys| > 0 ==> ys[0] in xs;
    if xs != [] {
      StringLeqTotal(xs[0].path, ys[0].path);
      assert EntryLeq(xs[0], ys[0]) && EntryLeq(ys[0], xs[0]);
      forall e ensures e in xs[1..] <==> e in ys[1..] {
        assert e in xs <==> e == xs[0] || e in xs[1..];
        assert e in ys <==> e == ys[0] || e in ys[1..];
      }
      SortedIsUnique(xs[1..], ys[1..]);
    }
  }

  /** Entries as a manifest lists them: in path order, each path once. */
  predicate IsListing(xs: seq<Entry>) {
    Sorted(EntryLeq, xs) && forall i, j :: 0 <= i < j < |xs| ==> xs[i].path != xs[j].path
  }

  lemma {:induction false} PrefixLeq(a: string, b: string)
    ensures StringLeq(a, a + b)
  {
    if a != "" {
      assert (a + b)[1..] == a[1..] + b;
      PrefixLeq(a[1..], b);
    }
  }

  lemma LastTwoKeepOrder(xs: seq<Entry>)
    requires IsListing(xs) && |xs| >= 2
    ensures IsListing(LastTwoAsOne(xs))
  {
    var a := xs[|xs| - 2];
    var ys := LastTwoAsOne(xs);
    var last := |ys| - 1;
    var rest := ":" + Decimal(a.size) + ":" + DecimalInt(a.mtime) + "\n" + xs[|xs| - 1].path;
    assert ys[last].path == a.path + rest;
    PrefixLeq(a.path, rest);
    forall i | 0 <= i < last ensures StringLeq(ys[i].path, ys[last].path) && ys[i].path != ys[last].path {
      assert EntryLeq(xs[i], a);
      StringLeqTransitive(xs[i].path, a.path, ys[last].path);
      if ys[i].path == ys[last].path {
        StringLeqTotal(xs[i].path, a.path);
      }
    }
  }

  /** Every listing of two files or more has the text of another listing: a tree is
      told from others by its manifest only among trees of newline-free names. */
  lemma EveryTreeHasADouble(xs: seq<Entry>)
    requires IsListing(xs) && |xs| >= 2
    ensures exists ys :: ys != xs && IsListing(ys) && Text(ys) == Text(xs)
  {
    LastTwoKeepText(xs);
    LastTwoKeepOrder(xs);
    LastTwoShorter(xs);
  }

  lemma {:induction false} OnePerPath(files: seq<File>, p: File -> bool, path: string)
    requires DistinctPaths(files) && forall f :: p(f) ==> f.path == path
    ensures |Filter(p, files)| <= 1
  {
    if files != [] {
      OnePerPath(files[1..], p, path);
      if p(files[0]) {
        FilterNone(p, files[1..]);
      }
    }
  }

  /** The entries in manifest order: sorted, each path once, and those of the files. */
  lemma ManifestEntries(files: seq<File>)
    requires DistinctPaths(files)
    ensures var entries := EntriesOf(Sort(PathLeq, files));
            && Sorted(EntryLeq, entries)
            && (forall i, j :: 0 <= i < j < |entries| ==> entries[i].path != entries[j].path)
            && (forall e :: e in entries <==> Recorded(files, e))
  {
    hide Sort, Recorded, StringLeq;
    var sorted := Sort(PathLeq, files);
    PathOrder();
    SortSorts(PathLeq, files);
    forall i, j | 0 <= i < j < |sorted| ensures sorted[i].path != sorted[j].path {
      SortedApart(files, i, j);
    }
    forall e ensures e in EntriesOf(sorted) <==> Recorded(files, e) {
      SortedRecords(files, e);
    }
  }

  lemma SortedRecords(files: seq<File>, e: Entry)
    ensures e in EntriesOf(Sort(PathLeq, files)) <==> Recorded(files, e)
  {
    var sorted := Sort(PathLeq, files);
    SortPermutes(PathLeq, files);
    hide Sort;
    if e in EntriesOf(sorted) {
      var i :| 0 <= i < |sorted| && EntryOf(sorted[i]) == e;
      assert sorted[i] in multiset(sorted);
    }
    if f :| f in files && EntryOf(f) == e {
      assert f in multiset(files);
      var i :| 0 <= i < |sorted| && sorted[i] == f;
      assert EntriesOf(sorted)[i] == e;
    }
  }

  predicate Recorded(files: seq<File>, e: Entry) {
    exists f :: f in files && EntryOf(f) == e
  }

  lemma SortedApart(files: seq<File>, i: nat, j: nat)
    requires DistinctPaths(files) && i < j < |Sort(PathLeq, files)|
    ensures Sort(PathLeq, files)[i].path != Sort(PathLeq, files)[j].path
  {
    var sorted := Sort(PathLeq, files);
    var path := sorted[i].path;
    var same := (f: File) => f.path == path;
    StringLeqTotal(path, path);
    SortStable(PathLeq, files, same);
    OnePerPath(files, same, path);
    if same(sorted[j]) {
      var k, l := FilterPlaces(same, sorted, i, j);
      assert false;
    }
  }

  lemma RecordsDecide(xs: seq<File>, ys: seq<File>)
    requires DistinctPaths(xs) && DistinctPaths(ys)
    requires forall f :: f in xs || f in ys ==> '\n' !in f.path
    ensures ManifestText(xs) == ManifestText(ys) <==> (forall e :: Recorded(xs, e) <==> Recorded(ys, e))
  {
    ManifestEntries(xs);
    ManifestEntries(ys);
    var first, second := EntriesOf(Sort(PathLeq, xs)), EntriesOf(Sort(PathLeq, ys));
    forall e | e in first || e in second ensures '\n' !in e.path {
      assert Recorded(xs, e) || Recorded(ys, e);
    }
    if ManifestText(xs) == ManifestText(ys) {
      ManifestIsInjective(first, second);
    }
    if forall e :: Recorded(xs, e) <==> Recorded(ys, e) {
      SortedIsUnique(first, second);
    }
  }

  /** Cut to the same whole second on the way to zero. */
  ghost predicate SameSecond(a: real, b: real) {
    exists t :: CutsTo(a, t) && CutsTo(b, t)
  }

  /** From the epoch on that is the second they fall in; before it, seconds end where others
      begin, and the two around the epoch are one. */
  lemma SecondsAre(a: real, b: real)
    ensures a >= 0.0 && b >= 0.0 ==> (SameSecond(a, b) <==> a.Floor == b.Floor)
    ensures a < 0.0 && b < 0.0 ==> (SameSecond(a, b) <==> (-a).Floor == (-b).Floor)
    ensures a >= 0.0 && b < 0.0 ==> (SameSecond(a, b) <==> a < 1.0 && b > -1.0)
  {
    TruncateCuts(a);
    TruncateCuts(b);
    assert SameSecond(a, b) <==> CutsTo(b, Truncate(a));
  }

  ghost predicate SameFile(f: File, g: File) {
    f.path == g.path && f.size == g.size && SameSecond(f.mtime, g.mtime)
  }

  lemma SameFileExactly(f: File, g: File)
    ensures SameFile(f, g) <==> EntryOf(f) == EntryOf(g)
  {
    TruncateCuts(f.mtime);
    TruncateCuts(g.mtime);
    assert SameSecond(f.mtime, g.mtime) <==> CutsTo(g.mtime, Truncate(f.mtime));
  }

  /** For each file of one scan the other has one of the same path, size and second. */
  ghost predicate Covers(xs: seq<File>, ys: seq<File>) {
    forall f :: f in ys ==> exists g :: g in xs && SameFile(f, g)
  }

  lemma CoversExactly(xs: seq<File>, ys: seq<File>)
    ensures Covers(xs, ys) <==> forall e :: Recorded(ys, e) ==> Recorded(xs, e)
  {
    forall f, g ensures SameFile(f, g) <==> EntryOf(f) == EntryOf(g) {
      SameFileExactly(f, g);
    }
    hide SameFile, EntryOf;
    if forall e :: Recorded(ys, e) ==> Recorded(xs, e) {
      forall f | f in ys ensures exists g :: g in xs && SameFile(f, g) {
        assert Recorded(ys, EntryOf(f));
      }
    }
  }

  /** Two scans have the same manifest text exactly when they are of the same files, with
      the same sizes and the same times to the second: neither the order in which files are
      listed nor the overlap of patterns matters, and no change to these goes unseen. */
  lemma ManifestIdentifiesTree(xs: seq<File>, ys: seq<File>)
    requires DistinctPaths(xs) && DistinctPaths(ys)
    requires forall f :: f in xs || f in ys ==> '\n' !in f.path
    ensures ManifestText(xs) == ManifestText(ys) <==> Covers(xs, ys) && Covers(ys, xs)
  {
    RecordsDecide(xs, ys);
    CoversExactly(xs, ys);
    CoversExactly(ys, xs);
  }

  /** Patterns that match the same files, in any order and with any overlap, give the
      same manifest text, whatever the paths hold. */
  lemma ManifestIgnoresOverlap(dir: Directory, patterns: seq<string>, others: seq<string>, xs: seq<File>, ys: seq<File>)
    requires DistinctPaths(xs) && forall f :: f in xs <==> Matched(dir, patterns, f.path) && f == FileAt(dir, f.path)
    requires DistinctPaths(ys) && forall f :: f in ys <==> Matched(dir, others, f.path) && f == FileAt(dir, f.path)
    requires forall path :: Matched(dir, patterns, path) <==> Matched(dir, others, path)
    ensures ManifestText(xs) == ManifestText(ys)
  {
    ManifestEntries(xs);
    ManifestEntries(ys);
    assert forall f :: f in xs <==> f in ys;
    SortedIsUnique(EntriesOf(Sort(PathLeq, xs)), EntriesOf(Sort(PathLeq, ys)));
  }

  /******* The content stream *******/

  /** What the content checksum hashes: each path and then its bytes. */
  function ContentStream(files: seq<File>, content: map<string, string>): string {
    if files == [] then ""
    else files[0].path + (if files[0].path in content then content[files[0].path] else "") + ContentStream(files[1..], content)
  }

  lemma {:induction false} ContentAppend(files: seq<File>, f: File, content: map<string, string>)
    ensures ContentStream(files + [f], content)
         == ContentStream(files, content) + f.path + (if f.path in content then content[f.path] else "")
  {
    if files == [] {
      assert files + [f] == [f] && [f][1..] == [];
    } else {
      assert (files + [f])[1..] == files[1..] + [f];
      ContentAppend(files[1..], f, content);
    }
  }

  /** Reads each file `chunk` bytes at a time; the stream does not depend on `chunk`. */
  method ComputeContent(files: seq<File>, content: map<string, string>, chunk: nat) returns (fed: string)
    requires chunk > 0
    ensures fed == ContentStream(Sort(PathLeq, files), content)
  {
    fed := "";
    var ordered := Sort(PathLeq, files);
    for i := 0 to |ordered|
      invariant fed == ContentStream(ordered[..i], content)
    {
      var path := ordered[i].path;
      var data := if path in content then content[path] else "";
      ContentAppend(ordered[..i], ordered[i], content);
      assert ordered[..i + 1] == ordered[..i] + [ordered[i]];
      ghost var before := fed + path;
      fed := fed + path;
      var pos := 0;
      while pos < |data|
        invariant pos <= |data| && fed == before + data[..pos]
      {
        var next := if pos + chunk < |data| then pos + chunk else |data|;
        assert data[..next] == data[..pos] + data[pos..next];
        fed := fed + data[pos..next];
        pos := next;
      }
      assert data[..pos] == data;
    }
    assert ordered[..|ordered|] == ordered;
  }
}
