/**
 * Text extraction from a PDF resume (resume_parser/parser.py): grouping positioned words into
 * lines, normalising the extracted text, and choosing between the two extractors. The PDF
 * libraries themselves are outside the model: their output is given as words or as text.
 */
module PdfText {
  import opened Text
  import opened Sorting

  /** A word as the PDF library reports it, with integer coordinates. */
  datatype Word = Word(text: string, top: int, x0: int)

  /** The vertical tolerance; the source divides by it, so it is positive. */
  type Tolerance = t: int | t > 0 witness 5

  function Abs(n: int): nat {
    if n < 0 then -n else n
  }

  /** Python's `round(n / d)`: the nearest integer, ties to the even one. */
  function RoundDiv(n: int, d: Tolerance): (r: int)
    ensures 2 * Abs(n - r * d) <= d
    ensures 2 * Abs(n - r * d) == d ==> r % 2 == 0
  {
    var q, m := n / d, n % d;
    assert n == q * d + m;
    assert (q + 1) * d == q * d + d;
    if 2 * m < d then q
    else if 2 * m > d then q + 1
    else if q % 2 == 0 then q
    else q + 1
  }

  /** The sort key of line 69: the rounded band of `top`, then `x0`. */
  function WordKey(tolerance: Tolerance): Word -> SortKey {
    (w: Word) => SortKey(RoundDiv(w.top, tolerance), w.x0)
  }

  function SortedWords(words: seq<Word>, tolerance: Tolerance): seq<Word> {
    StableSort(words, WordKey(tolerance))
  }

  /** All lines, one after the other. */
  function Flatten(lines: seq<seq<Word>>): seq<Word> {
    if lines == [] then [] else Flatten(lines[..|lines| - 1]) + lines[|lines| - 1]
  }

  /** Consecutive words of the line are at most `tolerance` apart vertically. */
  predicate Close(line: seq<Word>, tolerance: Tolerance) {
    forall j :: 0 < j < |line| ==> Abs(line[j].top - line[j - 1].top) <= tolerance
  }

  /** The first word of `next` is more than `tolerance` below or above the last word of `prev`. */
  predicate Apart(prev: seq<Word>, next: seq<Word>, tolerance: Tolerance) {
    prev != [] && next != [] && Abs(next[0].top - prev[|prev| - 1].top) > tolerance
  }

  /** Every line is non-empty and close, and every line break is a gap above the tolerance. */
  predicate Grouped(lines: seq<seq<Word>>, tolerance: Tolerance) {
    && (forall k :: 0 <= k < |lines| ==> lines[k] != [] && Close(lines[k], tolerance))
    && (forall k :: 0 < k < |lines| ==> Apart(lines[k - 1], lines[k], tolerance))
  }

  lemma GroupedSnoc(lines: seq<seq<Word>>, line: seq<Word>, tolerance: Tolerance)
    requires Grouped(lines, tolerance)
    requires line != [] && Close(line, tolerance)
    requires lines != [] ==> Apart(lines[|lines| - 1], line, tolerance)
    ensures Grouped(lines + [line], tolerance)
  {
    var l := lines + [line];
    forall k | 0 < k < |l| ensures Apart(l[k - 1], l[k], tolerance) {
      if k < |lines| {
        assert l[k - 1] == lines[k - 1] && l[k] == lines[k];
      }
    }
  }

  lemma CloseSnoc(line: seq<Word>, word: Word, tolerance: Tolerance)
    requires line != [] && Close(line, tolerance)
    requires Abs(word.top - line[|line| - 1].top) <= tolerance
    ensures Close(line + [word], tolerance) && (line + [word])[0] == line[0]
  {
  }

  lemma TakeSnoc<T>(s: seq<T>, i: nat)
    requires i < |s|
    ensures s[..i + 1] == s[..i] + [s[i]]
  {
  }

  /**
   * The state of the cut after a prefix of the words: closed lines and a current line that
   * together are the prefix, every line close, and a gap before the current line.
   */
  predicate Cut(lines: seq<seq<Word>>, current: seq<Word>, prefix: seq<Word>, tolerance: Tolerance) {
    && current != [] && Close(current, tolerance)
    && Flatten(lines) + current == prefix
    && Grouped(lines, tolerance)
    && (lines != [] ==> Apart(lines[|lines| - 1], current, tolerance))
  }

  /** The next word is close to the last one: it joins the current line. */
  lemma GrowLine(lines: seq<seq<Word>>, current: seq<Word>, sorted: seq<Word>, i: nat, tolerance: Tolerance)
    requires i < |sorted| && Cut(lines, current, sorted[..i], tolerance)
    requires Abs(sorted[i].top - current[|current| - 1].top) <= tolerance
    ensures Cut(lines, current + [sorted[i]], sorted[..i + 1], tolerance)
  {
    CloseSnoc(current, sorted[i], tolerance);
    TakeSnoc(sorted, i);
  }

  /** The next word is far from the last one: the current line is closed and a new one starts. */
  lemma BreakLine(lines: seq<seq<Word>>, current: seq<Word>, sorted: seq<Word>, i: nat, tolerance: Tolerance)
    requires i < |sorted| && Cut(lines, current, sorted[..i], tolerance)
    requires Abs(sorted[i].top - current[|current| - 1].top) > tolerance
    ensures Cut(lines + [current], [sorted[i]], sorted[..i + 1], tolerance)
  {
    FlattenSnoc(lines, current);
    GroupedSnoc(lines, current, tolerance);
    TakeSnoc(sorted, i);
  }

  /** Closing the current line after the last word gives the grouped lines of all words. */
  lemma FinishCut(lines: seq<seq<Word>>, current: seq<Word>, sorted: seq<Word>, tolerance: Tolerance)
    requires Cut(lines, current, sorted, tolerance)
    ensures Flatten(lines + [current]) == sorted && Grouped(lines + [current], tolerance)
  {
    FlattenSnoc(lines, current);
    GroupedSnoc(lines, current, tolerance);
  }

  lemma FlattenSnoc(lines: seq<seq<Word>>, line: seq<Word>)
    ensures Flatten(lines + [line]) == Flatten(lines) + line
  {
    assert (lines + [line])[..|lines|] == lines;
  }

  /**
   * `_group_words_into_lines`: the sorted words, cut into lines wherever the vertical gap to the
   * previous word exceeds the tolerance.
   */
  method GroupWordsIntoLines(words: seq<Word>, yTolerance: Tolerance) returns (lines: seq<seq<Word>>)
    ensures words == [] ==> lines == []
    ensures Flatten(lines) == SortedWords(words, yTolerance)
    ensures Grouped(lines, yTolerance)
  {
    var sorted := SortedWords(words, yTolerance);
    assert words == [] ==> sorted == [];
    lines := CutLines(sorted, yTolerance);
  }

  /** The loop of lines 71-81 over the sorted words. */
  method CutLines(sorted: seq<Word>, yTolerance: Tolerance) returns (lines: seq<seq<Word>>)
    ensures sorted == [] ==> lines == []
    ensures Flatten(lines) == sorted
    ensures Grouped(lines, yTolerance)
  {
    if sorted == [] {
      return [];
    }
    lines := [];
    var current := [sorted[0]];
    var i := 1;
    while i < |sorted|
      invariant 1 <= i <= |sorted|
      invariant Cut(lines, current, sorted[..i], yTolerance)
    {
      var word := sorted[i];
      var last := current[|current| - 1];
      if Abs(word.top - last.top) <= yTolerance {
        GrowLine(lines, current, sorted, i, yTolerance);
        current := current + [word];
      } else {
        BreakLine(lines, current, sorted, i, yTolerance);
        lines := lines + [current];
        current := [word];
      }
      i := i + 1;
    }
    assert sorted[..i] == sorted;
    FinishCut(lines, current, sorted, yTolerance);
    lines := lines + [current];
  }

  /** The sort of line 69 orders the words by band and then by `x0`, and loses none. */
  lemma SortedWordsOrdered(words: seq<Word>, tolerance: Tolerance)
    ensures multiset(SortedWords(words, tolerance)) == multiset(words)
    ensures forall i, j :: 0 <= i < j < |words| ==>
      var s := SortedWords(words, tolerance);
      RoundDiv(s[i].top, tolerance) < RoundDiv(s[j].top, tolerance)
      || (RoundDiv(s[i].top, tolerance) == RoundDiv(s[j].top, tolerance) && s[i].x0 <= s[j].x0)
  {
    StableSortSorted(words, WordKey(tolerance));
  }

  // ---------------------------------------------------------------------------------------------
  // _clean_text

  /** The replacement table of lines 106-111, in its insertion order. */
  const Ligatures: seq<(char, string)> := [
    ('\U{FB01}', "fi"), ('\U{FB02}', "fl"), ('\U{FB00}', "ff"),
    ('\U{FB03}', "ffi"), ('\U{FB04}', "ffl"), ('\U{2019}', "'"),
    ('\U{2018}', "'"), ('\U{201C}', "\""), ('\U{201D}', "\""),
    ('\U{2013}', "-"), ('\U{2014}', "-"), ('\U{00A0}', " ")
  ]

  /** The characters the table maps. */
  const LigatureChars: set<char> := {
    '\U{FB01}', '\U{FB02}', '\U{FB00}', '\U{FB03}', '\U{FB04}', '\U{2019}',
    '\U{2018}', '\U{201C}', '\U{201D}', '\U{2013}', '\U{2014}', '\U{00A0}'
  }

  predicate NoLigature(s: string) {
    forall c :: c in s ==> c !in LigatureChars
  }

  /** Every replacement of the table, applied in order, each to the whole text. */
  function ReplaceAll(text: string, table: seq<(char, string)>): string {
    if table == [] then text
    else
      var (c, rep) := table[|table| - 1];
      ReplaceChar(ReplaceAll(text, table[..|table| - 1]), c, rep)
  }

  /** How many newlines `s` starts with. */
  function LeadingNewlines(s: string): (n: nat)
    ensures n <= |s| && (s != [] && s[0] == '\n' ==> n >= 1)
  {
    if s != [] && s[0] == '\n' then 1 + LeadingNewlines(s[1..]) else 0
  }

  /** `re.sub(r"\n{3,}", "\n\n", s)`: every run of three or more newlines becomes two. */
  function CollapseNewlines(s: string): string
    decreases |s|
  {
    if s == [] then []
    else if s[0] != '\n' then [s[0]] + CollapseNewlines(s[1..])
    else
      var n := LeadingNewlines(s);
      (if n >= 3 then "\n\n" else s[..n]) + CollapseNewlines(s[n..])
  }

  /** Collapsing introduces no character that was not in the text. */
  lemma {:induction false} CollapseKeepsChars(s: string)
    ensures forall c :: c in CollapseNewlines(s) ==> c in s
    decreases |s|
  {
    if s != [] {
      var n := if s[0] != '\n' then 1 else LeadingNewlines(s);
      CollapseKeepsChars(s[n..]);
      assert forall c :: c in s[n..] ==> c in s;
      assert forall c :: c in s[..n] ==> c in s;
    }
  }

  /** A run of `n` newlines. */
  function NewlineRun(n: nat): string {
    seq(n, _ => '\n')
  }

  /** A run of three or more newlines becomes two; a shorter run is left alone. */
  lemma CollapseRun(n: nat)
    ensures CollapseNewlines(NewlineRun(n)) == if n >= 3 then "\n\n" else NewlineRun(n)
  {
    if n > 0 {
      RunLeadingNewlines(n);
      assert NewlineRun(n)[n..] == [];
      assert NewlineRun(n)[..n] == NewlineRun(n);
    }
  }

  lemma {:induction false} RunLeadingNewlines(n: nat)
    ensures LeadingNewlines(NewlineRun(n)) == n
  {
    if n > 0 {
      RunLeadingNewlines(n - 1);
      assert NewlineRun(n)[1..] == NewlineRun(n - 1);
    }
  }

  /**
   * The collapse works run by run: a character other than a newline separates the text into two
   * parts collapsed independently. With `CollapseRun` this determines the result of every text.
   */
  lemma {:induction false} CollapseAround(a: string, c: char, b: string)
    requires c != '\n'
    ensures CollapseNewlines(a + [c] + b) == CollapseNewlines(a) + [c] + CollapseNewlines(b)
    decreases |a|
  {
    if a == [] {
      assert (a + [c] + b)[1..] == b;
    } else if a[0] != '\n' {
      CollapseAround(a[1..], c, b);
      CollapseAroundLetter(a, c, b);
    } else {
      CollapseAround(a[LeadingNewlines(a)..], c, b);
      CollapseAroundRun(a, c, b);
    }
  }

  /** One step of `CollapseAround` past a leading character other than a newline. */
  lemma CollapseAroundLetter(a: string, c: char, b: string)
    requires a != [] && a[0] != '\n'
    requires CollapseNewlines(a[1..] + [c] + b) == CollapseNewlines(a[1..]) + [c] + CollapseNewlines(b)
    ensures CollapseNewlines(a + [c] + b) == CollapseNewlines(a) + [c] + CollapseNewlines(b)
  {
    var s := a + [c] + b;
    assert s[1..] == a[1..] + [c] + b;
    assert CollapseNewlines(s) == [a[0]] + CollapseNewlines(s[1..]);
  }

  /** One step of `CollapseAround` past a leading run of newlines. */
  lemma CollapseAroundRun(a: string, c: char, b: string)
    requires a != [] && a[0] == '\n' && c != '\n'
    requires CollapseNewlines(a[LeadingNewlines(a)..] + [c] + b)
      == CollapseNewlines(a[LeadingNewlines(a)..]) + [c] + CollapseNewlines(b)
    ensures CollapseNewlines(a + [c] + b) == CollapseNewlines(a) + [c] + CollapseNewlines(b)
  {
    var w := [c] + b;
    var n := LeadingNewlines(a);
    var rest, tail := CollapseNewlines(a[n..]), CollapseNewlines(b);
    calc {
      CollapseNewlines(a + [c] + b);
      { SeqAssoc(a, [c], b); }
      CollapseNewlines(a + w);
      { CollapseAfterRun(a, w); }
      RunOf(a) + CollapseNewlines(a[n..] + w);
      { SeqAssoc(a[n..], [c], b); }
      RunOf(a) + (rest + [c] + tail);
      { SeqAssoc(RunOf(a), rest + [c], tail); SeqAssoc(RunOf(a), rest, [c]); }
      RunOf(a) + rest + [c] + tail;
      { CollapseUnfold(a); }
      CollapseNewlines(a) + [c] + tail;
    }
  }

  /** The collapsed leading run of newlines of `s`. */
  function RunOf(s: string): string {
    var n := LeadingNewlines(s);
    if n >= 3 then "\n\n" else s[..n]
  }

  /** The collapse of a text that starts with a newline: its run, then the rest. */
  lemma CollapseUnfold(s: string)
    requires s != [] && s[0] == '\n'
    ensures CollapseNewlines(s) == RunOf(s) + CollapseNewlines(s[LeadingNewlines(s)..])
  {
  }

  /** A run of newlines followed by a non-newline collapses as the run alone would. */
  lemma CollapseAfterRun(a: string, w: string)
    requires a != [] && a[0] == '\n' && w != [] && w[0] != '\n'
    ensures CollapseNewlines(a + w) == RunOf(a) + CollapseNewlines(a[LeadingNewlines(a)..] + w)
  {
    RunThenRest(a, w);
    CollapseUnfold(a + w);
    assert RunOf(a + w) == RunOf(a);
  }

  /** Text after a leading run of newlines, when the text goes on with a non-newline. */
  lemma RunThenRest(a: string, w: string)
    requires a != [] && a[0] == '\n' && w != [] && w[0] != '\n'
    ensures var n := LeadingNewlines(a);
      && LeadingNewlines(a + w) == n
      && (a + w)[..n] == a[..n]
      && (a + w)[n..] == a[n..] + w
  {
    LeadingNewlinesAppend(a, w);
  }

  /** Concatenation is associative. */
  lemma SeqAssoc<T>(x: seq<T>, y: seq<T>, z: seq<T>)
    ensures x + (y + z) == (x + y) + z
  {
  }

  lemma {:induction false} LeadingNewlinesAppend(a: string, w: string)
    requires w != [] && w[0] != '\n'
    ensures LeadingNewlines(a + w) == LeadingNewlines(a)
  {
    if a == [] {
      assert a + w == w;
    } else if a[0] == '\n' {
      assert (a + w)[1..] == a[1..] + w;
      LeadingNewlinesAppend(a[1..], w);
    }
  }

  /** `str.isalpha()`: non-empty and made of letters. */
  predicate IsAlphaStr(s: string) {
    |s| > 0 && AllAlpha(s)
  }

  predicate AllAlpha(s: string) {
    s == [] || (IsAlphaAscii(s[0]) && AllAlpha(s[1..]))
  }

  /** The filter of line 120: more than one character once stripped, or alphabetic. */
  predicate KeepLine(line: string) {
    var t := Strip(line);
    |t| > 1 || IsAlphaStr(t)
  }

  /** The comprehension of line 120: the lines that pass the test, each as often as it occurs. */
  function FilterLines(lines: seq<string>): (r: seq<string>)
    ensures forall x :: x in r ==> KeepLine(x) && x in lines
    ensures forall x :: x in lines && KeepLine(x) ==> x in r
  {
    if lines == [] then []
    else
      assert forall x :: x in lines ==> x == lines[0] || x in lines[1..];
      assert forall x :: x in lines[1..] ==> x in lines;
      (if KeepLine(lines[0]) then [lines[0]] else []) + FilterLines(lines[1..])
  }

  /** Filtering works line by line: the kept lines of two parts, one after the other, in order. */
  lemma {:induction false} FilterLinesAppend(a: seq<string>, b: seq<string>)
    ensures FilterLines(a + b) == FilterLines(a) + FilterLines(b)
  {
    if a == [] {
      assert a + b == b;
    } else {
      assert (a + b)[1..] == a[1..] + b;
      FilterLinesAppend(a[1..], b);
    }
  }

  /** Every line that passes is kept as often as it occurs; every other line is dropped. */
  lemma {:induction false} FilterLinesCount(lines: seq<string>, x: string)
    ensures multiset(FilterLines(lines))[x] == if KeepLine(x) then multiset(lines)[x] else 0
  {
    if lines != [] {
      assert multiset(lines) == multiset([lines[0]]) + multiset(lines[1..]) by {
        assert lines == [lines[0]] + lines[1..];
      }
      FilterLinesCount(lines[1..], x);
      var rest := FilterLines(lines[1..]);
      if KeepLine(lines[0]) {
        assert FilterLines(lines) == [lines[0]] + rest;
        assert multiset(FilterLines(lines)) == multiset([lines[0]]) + multiset(rest);
      } else {
        assert FilterLines(lines) == rest;
        assert lines[0] == x ==> !KeepLine(x);
      }
    }
  }

  /** Lines that all pass are all kept, unchanged and in order. */
  lemma {:induction false} FilterLinesKeepsPassing(lines: seq<string>)
    requires forall i :: 0 <= i < |lines| ==> KeepLine(lines[i])
    ensures FilterLines(lines) == lines
  {
    if lines != [] {
      assert KeepLine(lines[0]);
      assert FilterLines(lines) == [lines[0]] + FilterLines(lines[1..]);
      FilterLinesKeepsPassing(lines[1..]);
    }
  }

  /** The lines of `_clean_text` that survive the filter, before they are joined. */
  function KeptLines(text: string): seq<string> {
    FilterLines(Split(CollapseNewlines(ReplaceAll(text, Ligatures)), '\n'))
  }

  /** What `_clean_text` returns. */
  function Clean(text: string): string {
    Strip(Join(KeptLines(text), "\n"))
  }

  /** `_clean_text`: the replacement loop of lines 112-113, then the collapse, filter and strip. */
  method CleanText(text: string) returns (cleaned: string)
    ensures cleaned == Clean(text)
  {
    var t := text;
    for i := 0 to |Ligatures|
      invariant t == ReplaceAll(text, Ligatures[..i])
    {
      var (c, rep) := Ligatures[i];
      assert Ligatures[..i + 1][..i] == Ligatures[..i];
      t := ReplaceChar(t, c, rep);
    }
    assert Ligatures[..|Ligatures|] == Ligatures;
    t := CollapseNewlines(t);
    var lines := Split(t, '\n');
    var kept := FilterLines(lines);
    cleaned := Strip(Join(kept, "\n"));
  }

  /**
   * `extract_text_from_pdf`: the fallback extractor's text is used exactly when the primary text,
   * stripped, is shorter than 100 characters; either way the result is cleaned.
   */
  method ExtractTextFromPdf(primary: string, fallback: string) returns (text: string, usedFallback: bool)
    ensures usedFallback <==> |Strip(primary)| < 100
    ensures text == Clean(if usedFallback then fallback else primary)
  {
    var raw := primary;
    usedFallback := |Strip(raw)| < 100;
    if usedFallback {
      raw := fallback;
    }
    text := CleanText(raw);
  }

  // ---------------------------------------------------------------------------------------------
  // Properties of the cleaned text

  /** The replacements are ASCII, so after the table no mapped character is left. */
  lemma {:induction false} ReplaceAllRemoves(text: string, n: nat)
    requires n <= |Ligatures|
    ensures forall i, c :: 0 <= i < n && c in ReplaceAll(text, Ligatures[..n]) ==> c != Ligatures[i].0
    ensures forall c :: c in ReplaceAll(text, Ligatures[..n]) ==> c in text || c < '\U{0080}'
  {
    if n > 0 {
      var table := Ligatures[..n];
      assert table[..n - 1] == Ligatures[..n - 1];
      ReplaceAllRemoves(text, n - 1);
      var (c, rep) := Ligatures[n - 1];
      assert forall d :: d in rep ==> d < '\U{0080}';
    }
  }

  lemma ReplacedNoLigature(text: string)
    ensures NoLigature(ReplaceAll(text, Ligatures))
  {
    ReplaceAllRemoves(text, |Ligatures|);
    assert Ligatures[..|Ligatures|] == Ligatures;
    var r := ReplaceAll(text, Ligatures);
    forall c | c in r ensures c !in LigatureChars {
      assert c != Ligatures[0].0 && c != Ligatures[1].0 && c != Ligatures[2].0;
      assert c != Ligatures[3].0 && c != Ligatures[4].0 && c != Ligatures[5].0;
      assert c != Ligatures[6].0 && c != Ligatures[7].0 && c != Ligatures[8].0;
      assert c != Ligatures[9].0 && c != Ligatures[10].0 && c != Ligatures[11].0;
    }
  }

  /** `_clean_text`'s output holds none of the twelve mapped characters. */
  lemma CleanHasNoLigature(text: string)
    ensures NoLigature(Clean(text))
  {
    var t := ReplaceAll(text, Ligatures);
    ReplacedNoLigature(text);
    var collapsed := CollapseNewlines(t);
    CollapseKeepsChars(t);
    assert NoLigature(collapsed);
    var lines := Split(collapsed, '\n');
    SplitChars(collapsed, '\n');
    var kept := FilterLines(lines);
    forall i, c | 0 <= i < |kept| && c in kept[i] ensures c !in LigatureChars {
      assert kept[i] in lines;
    }
    assert '\n' !in LigatureChars;
    JoinAvoids(kept, "\n", LigatureChars);
    StripChars(Join(kept, "\n"));
  }

  /** `_clean_text`'s output neither starts nor ends with whitespace. */
  lemma CleanIsStripped(text: string)
    ensures var r := Clean(text); r == [] || (!IsSpace(r[0]) && !IsSpace(r[|r| - 1]))
  {
    assert Clean(text) == Strip(Join(KeptLines(text), "\n"));
  }

  /** A kept line has a non-space character. */
  lemma KeptHasNonSpace(line: string) returns (k: nat)
    requires KeepLine(line)
    ensures k < |line| && !IsSpace(line[k])
  {
    var l := LStrip(line);
    var r := Strip(line);
    k := |line| - |l|;
    assert r[0] == l[0];
  }

  /** Stripping one side of a kept line keeps it a kept line. */
  lemma KeepAfterStrip(line: string)
    requires KeepLine(line)
    ensures KeepLine(LStrip(line)) && KeepLine(RStrip(line)) && KeepLine(Strip(line))
  {
    StripAfterLStrip(line);
    StripAfterRStrip(line);
    StripIdem(line);
  }

  lemma LStripChars(s: string)
    ensures forall c :: c in LStrip(s) ==> c in s
  {
    var l := LStrip(s);
    assert l == s[|s| - |l|..];
  }

  lemma RStripChars(s: string)
    ensures forall c :: c in RStrip(s) ==> c in s
  {
    var r := RStrip(s);
    assert r == s[..|r|];
  }

  /** Left-stripping a join whose first part has a non-space strips only that part. */
  lemma LStripJoin(parts: seq<string>, k: nat)
    requires |parts| >= 2 && k < |parts[0]| && !IsSpace(parts[0][k])
    ensures LStrip(Join(parts, "\n")) == Join([LStrip(parts[0])] + parts[1..], "\n")
  {
    var rest := "\n" + Join(parts[1..], "\n");
    assert Join(parts, "\n") == parts[0] + rest;
    LStripAppend(parts[0], rest);
    var m := [LStrip(parts[0])] + parts[1..];
    assert m[1..] == parts[1..];
  }

  /** Right-stripping a join whose last part has a non-space strips only that part. */
  lemma RStripJoin(parts: seq<string>, k: nat)
    requires |parts| >= 2 && k < |parts[|parts| - 1]| && !IsSpace(parts[|parts| - 1][k])
    ensures RStrip(Join(parts, "\n"))
      == Join(parts[..|parts| - 1] + [RStrip(parts[|parts| - 1])], "\n")
  {
    var n := |parts|;
    var init, last := parts[..n - 1], parts[n - 1];
    assert parts == init + [last];
    JoinSnoc(init, last, "\n");
    RStripPrepend(Join(init, "\n") + "\n", last);
    JoinSnoc(init, RStrip(last), "\n");
  }

  lemma ReplaceFirstThenLast<T>(parts: seq<T>, first: T, last: T)
    requires |parts| >= 2
    ensures var n := |parts|;
      ([first] + parts[1..])[..n - 1] + [last] == [first] + parts[1..n - 1] + [last]
  {
    var n := |parts|;
    assert ([first] + parts[1..])[..n - 1] == [first] + parts[1..n - 1];
  }

  /** Stripping a join of two or more parts strips the front of the first and the back of the last. */
  lemma StripJoin(parts: seq<string>, k0: nat, kl: nat)
    requires |parts| >= 2
    requires k0 < |parts[0]| && !IsSpace(parts[0][k0])
    requires kl < |parts[|parts| - 1]| && !IsSpace(parts[|parts| - 1][kl])
    ensures var n := |parts|;
      Strip(Join(parts, "\n"))
      == Join([LStrip(parts[0])] + parts[1..n - 1] + [RStrip(parts[n - 1])], "\n")
  {
    var joined := Join(parts, "\n");
    LStripJoin(parts, k0);
    RStripAfterLStripJoin(parts, kl);
    assert Strip(joined) == RStrip(LStrip(joined));
  }

  lemma RStripAfterLStripJoin(parts: seq<string>, kl: nat)
    requires |parts| >= 2
    requires kl < |parts[|parts| - 1]| && !IsSpace(parts[|parts| - 1][kl])
    ensures var n := |parts|;
      RStrip(Join([LStrip(parts[0])] + parts[1..], "\n"))
      == Join([LStrip(parts[0])] + parts[1..n - 1] + [RStrip(parts[n - 1])], "\n")
  {
    var n := |parts|;
    var m := [LStrip(parts[0])] + parts[1..];
    assert m[n - 1] == parts[n - 1];
    RStripJoin(m, kl);
    ReplaceFirstThenLast(parts, LStrip(parts[0]), RStrip(parts[n - 1]));
  }


  /** A single kept line, stripped, is still one kept line. */
  lemma StrippedSingleLine(line: string)
    requires KeepLine(line) && '\n' !in line
    ensures forall l :: l in Split(Strip(line), '\n') ==> KeepLine(l)
  {
    StripChars(line);
    SplitNoSep(Strip(line), '\n');
    KeepAfterStrip(line);
  }

  /** Stripping one side of a kept line that has no newline leaves a kept line with no newline. */
  lemma StrippedEndsKept(line: string)
    requires KeepLine(line) && '\n' !in line
    ensures LineOk(LStrip(line)) && LineOk(RStrip(line))
  {
    KeepAfterStrip(line);
    LStripChars(line);
    RStripChars(line);
  }

  /** A line that passes the filter and holds no newline. */
  predicate LineOk(line: string) {
    KeepLine(line) && '\n' !in line
  }

  /** Replacing the first and the last of two or more elements by ones with a property keeps it. */
  lemma ReplaceEnds<T>(s: seq<T>, first: T, last: T, p: T -> bool)
    requires |s| >= 2
    requires forall i :: 0 <= i < |s| ==> p(s[i])
    requires p(first) && p(last)
    ensures var n := |s|;
      var r := [first] + s[1..n - 1] + [last];
      forall i :: 0 <= i < |r| ==> p(r[i])
  {
    var n := |s|;
    var r := [first] + s[1..n - 1] + [last];
    forall i | 0 <= i < |r| ensures p(r[i]) {
      if 0 < i < n - 1 {
        assert r[i] == s[i];
      }
    }
  }

  /** Joining lines that pass the filter and splitting again gives lines that pass it. */
  lemma SplitJoinedEnds(kept: seq<string>, first: string, last: string)
    requires |kept| >= 2
    requires forall i :: 0 <= i < |kept| ==> LineOk(kept[i])
    requires LineOk(first) && LineOk(last)
    ensures var lines := [first] + kept[1..|kept| - 1] + [last];
      Split(Join(lines, "\n"), '\n') == lines && forall line :: line in lines ==> KeepLine(line)
  {
    var n := |kept|;
    var lines := [first] + kept[1..n - 1] + [last];
    ReplaceEnds(kept, first, last, LineOk);
    assert forall i :: 0 <= i < |lines| ==> '\n' !in lines[i];
    SplitJoin(lines, '\n');
  }

  /** The lines of a joined, stripped text of two or more filtered lines pass the filter. */
  lemma JoinedStrippedMany(kept: seq<string>)
    requires |kept| >= 2
    requires forall i :: 0 <= i < |kept| ==> LineOk(kept[i])
    ensures forall line :: line in Split(Strip(Join(kept, "\n")), '\n') ==> KeepLine(line)
  {
    var n := |kept|;
    var lines := [LStrip(kept[0])] + kept[1..n - 1] + [RStrip(kept[n - 1])];
    assert Strip(Join(kept, "\n")) == Join(lines, "\n") by {
      var k0 := KeptHasNonSpace(kept[0]);
      var kl := KeptHasNonSpace(kept[n - 1]);
      StripJoin(kept, k0, kl);
    }
    assert Split(Join(lines, "\n"), '\n') == lines && forall line :: line in lines ==> KeepLine(line) by {
      StrippedEndsKept(kept[0]);
      StrippedEndsKept(kept[n - 1]);
      SplitJoinedEnds(kept, LStrip(kept[0]), RStrip(kept[n - 1]));
    }
  }

  /** Each line of a joined, stripped text of filtered lines passes the filter. */
  lemma JoinedStrippedLines(kept: seq<string>)
    requires |kept| >= 1
    requires forall i :: 0 <= i < |kept| ==> LineOk(kept[i])
    ensures forall line :: line in Split(Strip(Join(kept, "\n")), '\n') ==> KeepLine(line)
  {
    if |kept| == 1 {
      assert Join(kept, "\n") == kept[0];
      StrippedSingleLine(kept[0]);
    } else {
      JoinedStrippedMany(kept);
    }
  }

  /**
   * `_clean_text`'s output has no blank or whitespace-only line: unless it is empty, every line
   * has more than one character between its first and last non-space, or is one letter.
   */
  lemma CleanHasNoBlankLine(text: string)
    ensures var r := Clean(text);
      r == [] || forall line :: line in Split(r, '\n') ==> KeepLine(line)
  {
    var kept := KeptLines(text);
    if kept != [] {
      forall i | 0 <= i < |kept| ensures LineOk(kept[i]) {
        var lines := Split(CollapseNewlines(ReplaceAll(text, Ligatures)), '\n');
        assert kept[i] in lines;
      }
      JoinedStrippedLines(kept);
    }
  }
}
