/** Where the words of a right-to-left line stand: `measureLine` of
    text-shaping.ts over shaped glyphs, and `layoutLine` of
    canvas-caption-renderer.ts over text widths. */
module WordBoxes {
  import opened JsText

  /** The length of a text in UTF-16 units, in which clusters are counted. */
  function Length16(s: string): nat {
    if s == "" then 0 else Length16(s[..|s| - 1]) + if s[|s| - 1] as int >= 0x1_0000 then 2 else 1
  }

  lemma {:induction false} Length16Concat(a: string, b: string)
    ensures Length16(a + b) == Length16(a) + Length16(b)
  {
    if b == "" {
      assert a + b == a;
    } else {
      Length16Concat(a, b[..|b| - 1]);
      assert (a + b)[..|a + b| - 1] == a + b[..|b| - 1];
    }
  }

  /** A character beyond the first plane takes two units. */
  lemma UnitsOfChar(c: char)
    ensures Length16([c]) == if c as int > 0xFFFF then 2 else 1
  {
    assert [c][..0] == [];
  }

  lemma NonEmptyLength(s: string)
    requires s != ""
    ensures Length16(s) > 0
  {
  }

  datatype Glyph = Glyph(cluster: nat, advance: int)

  /** The text before word `i`, with the space that follows it. A space is only put
      after something. */
  function TextBefore(words: seq<string>, i: nat): string
    requires i <= |words|
  {
    if i == 0 then "" else
    var done := TextBefore(words, i - 1) + words[i - 1];
    if done != "" && i < |words| then done + " " else done
  }

  function StartOf(words: seq<string>, i: nat): nat
    requires i < |words|
  {
    Length16(TextBefore(words, i))
  }

  function EndOf(words: seq<string>, i: nat): nat
    requires i < |words|
  {
    StartOf(words, i) + Length16(words[i])
  }

  datatype Range = Range(start: nat, end: nat)

  function RangesUpTo(words: seq<string>, n: nat): seq<Range>
    requires n <= |words|
  {
    seq(n, i requires 0 <= i < n => Range(StartOf(words, i), EndOf(words, i)))
  }

  lemma EmptyLength(s: string)
    ensures Length16(s) == 0 <==> s == ""
  {
    if s != "" { NonEmptyLength(s); }
  }

  /** The line after `i` words. */
  function LineUpTo(words: seq<string>, i: nat): string
    requires i <= |words|
  {
    if i == 0 then "" else TextBefore(words, i - 1) + words[i - 1]
  }

  lemma NothingYet(words: seq<string>)
    ensures Length16("") == 0 && LineUpTo(words, 0) == "" && RangesUpTo(words, 0) == []
  {
  }

  lemma LineIsText(words: seq<string>)
    ensures LineUpTo(words, |words|) == TextBefore(words, |words|)
  {
  }

  lemma TextFromLine(words: seq<string>, i: nat)
    requires i < |words|
    ensures var line := LineUpTo(words, i); TextBefore(words, i) == if line == "" then "" else line + " "
  {
  }

  lemma NextWord(words: seq<string>, i: nat)
    requires i < |words|
    ensures var line := LineUpTo(words, i);
      && TextBefore(words, i) == (if Length16(line) > 0 then line + " " else line)
      && StartOf(words, i) == (if Length16(line) > 0 then Length16(line) + 1 else 0)
      && LineUpTo(words, i + 1) == TextBefore(words, i) + words[i]
      && Length16(LineUpTo(words, i + 1)) == StartOf(words, i) + Length16(words[i])
  {
    hide Length16, TextBefore;
    TextFromLine(words, i);
    EmptyLength(LineUpTo(words, i));
    SpaceLength(LineUpTo(words, i));
    Length16Concat(TextBefore(words, i), words[i]);
  }

  lemma NextRange(words: seq<string>, i: nat)
    requires i < |words|
    ensures RangesUpTo(words, i + 1)
         == RangesUpTo(words, i) + [Range(StartOf(words, i), StartOf(words, i) + Length16(words[i]))]
  {
    hide Length16, StartOf;
  }

  /** The first loop: character ranges of the words, and the line that is shaped. */
  method LineOf(words: seq<string>) returns (ranges: seq<Range>, lineText: string)
    ensures ranges == RangesUpTo(words, |words|) && lineText == TextBefore(words, |words|)
  {
    hide Length16, TextBefore, LineUpTo, StartOf, EndOf, RangesUpTo;
    var cursor := 0;
    lineText, ranges := "", [];
    NothingYet(words);
    for i := 0 to |words|
      invariant cursor == Length16(lineText)
      invariant lineText == LineUpTo(words, i)
      invariant ranges == RangesUpTo(words, i)
    {
      NextWord(words, i);
      NextRange(words, i);
      if cursor > 0 {
        lineText := lineText + " ";
        cursor := cursor + 1;
      }
      var start := cursor;
      lineText := lineText + words[i];
      cursor := cursor + Length16(words[i]);
      ranges := ranges + [Range(start, cursor)];
    }
    LineIsText(words);
  }

  lemma SpaceLength(s: string)
    ensures Length16(s + " ") == Length16(s) + 1
  {
    Length16Concat(s, " ");
    assert Length16(" ") == 1;
  }

  /** The advances of all glyphs whose cluster lies in `[lo, hi)`. */
  function Between(glyphs: seq<Glyph>, lo: nat, hi: nat): int {
    if glyphs == [] then 0 else
    var g := glyphs[|glyphs| - 1];
    Between(glyphs[..|glyphs| - 1], lo, hi) + if lo <= g.cluster < hi then g.advance else 0
  }

  lemma BetweenNext(glyphs: seq<Glyph>, k: nat, lo: nat, hi: nat)
    requires k < |glyphs|
    ensures Between(glyphs[..k + 1], lo, hi)
         == Between(glyphs[..k], lo, hi) + if lo <= glyphs[k].cluster < hi then glyphs[k].advance else 0
  {
    assert glyphs[..k + 1][..k] == glyphs[..k];
  }

  /** The inner loop: one glyph is added to the word it belongs to and to the prefix
      of every later word. */
  method AddGlyph(g: Glyph, ranges: seq<Range>, widths: array<int>, prefixes: array<int>)
    requires widths.Length == prefixes.Length == |ranges| && widths != prefixes
    modifies widths, prefixes
    ensures forall i | 0 <= i < |ranges| ::
      widths[i] == old(widths[i]) + if ranges[i].start <= g.cluster < ranges[i].end then g.advance else 0
    ensures forall i | 0 <= i < |ranges| ::
      prefixes[i] == old(prefixes[i]) + if g.cluster < ranges[i].start then g.advance else 0
  {
    for i := 0 to |ranges|
      invariant forall j | 0 <= j < i ::
        widths[j] == old(widths[j]) + if ranges[j].start <= g.cluster < ranges[j].end then g.advance else 0
      invariant forall j | 0 <= j < i ::
        prefixes[j] == old(prefixes[j]) + if g.cluster < ranges[j].start then g.advance else 0
      invariant forall j | i <= j < |ranges| :: widths[j] == old(widths[j]) && prefixes[j] == old(prefixes[j])
    {
      if ranges[i].start <= g.cluster < ranges[i].end {
        widths[i] := widths[i] + g.advance;
      } else if g.cluster < ranges[i].start {
        prefixes[i] := prefixes[i] + g.advance;
      }
    }
  }

  function Prefix(words: seq<string>, glyphs: seq<Glyph>, i: nat): int
    requires i < |words|
  {
    Between(glyphs, 0, StartOf(words, i))
  }

  function Width(words: seq<string>, glyphs: seq<Glyph>, i: nat): int
    requires i < |words|
  {
    Between(glyphs, StartOf(words, i), EndOf(words, i))
  }

  function Total(glyphs: seq<Glyph>): int {
    if glyphs == [] then 0 else Total(glyphs[..|glyphs| - 1]) + glyphs[|glyphs| - 1].advance
  }

  method MeasureLine(words: seq<string>, glyphs: seq<Glyph>)
    returns (total: int, widths: seq<int>, prefixes: seq<int>)
    ensures |widths| == |prefixes| == |words|
    ensures forall i | 0 <= i < |words| ::
      widths[i] == Width(words, glyphs, i) && prefixes[i] == Prefix(words, glyphs, i)
    ensures total == Total(glyphs)
  {
    hide Between, StartOf, EndOf;
    var ranges, lineText := LineOf(words);
    var w, p := new int[|words|](_ => 0), new int[|words|](_ => 0);
    total := 0;
    BetweenNothing(words);
    for k := 0 to |glyphs|
      invariant forall i | 0 <= i < |words| :: w[i] == Width(words, glyphs[..k], i)
      invariant forall i | 0 <= i < |words| :: p[i] == Prefix(words, glyphs[..k], i)
    {
      AddGlyph(glyphs[k], ranges, w, p);
      forall i | 0 <= i < |words|
        ensures w[i] == Width(words, glyphs[..k + 1], i) && p[i] == Prefix(words, glyphs[..k + 1], i)
      {
        BetweenNext(glyphs, k, StartOf(words, i), EndOf(words, i));
        BetweenNext(glyphs, k, 0, StartOf(words, i));
      }
    }
    for k := 0 to |glyphs|
      invariant total == Total(glyphs[..k])
    {
      assert glyphs[..k + 1][..k] == glyphs[..k];
      total := total + glyphs[k].advance;
    }
    assert glyphs[..|glyphs|] == glyphs;
    widths, prefixes := w[..], p[..];
  }

  lemma BetweenNothing(words: seq<string>)
    ensures forall i | 0 <= i < |words| :: Width(words, [], i) == 0 && Prefix(words, [], i) == 0
  {
  }

  // ----- boxes -----

  lemma {:induction false} BetweenSplits(glyphs: seq<Glyph>, lo: nat, mid: nat, hi: nat)
    requires lo <= mid <= hi
    ensures Between(glyphs, lo, hi) == Between(glyphs, lo, mid) + Between(glyphs, mid, hi)
  {
    if glyphs != [] { BetweenSplits(glyphs[..|glyphs| - 1], lo, mid, hi); }
  }

  lemma {:induction false} BetweenAll(glyphs: seq<Glyph>, hi: nat)
    requires forall k | 0 <= k < |glyphs| :: glyphs[k].cluster < hi
    ensures Between(glyphs, 0, hi) == Total(glyphs)
  {
    if glyphs != [] { BetweenAll(glyphs[..|glyphs| - 1], hi); }
  }

  lemma {:induction false} BetweenPositive(glyphs: seq<Glyph>, lo: nat, hi: nat)
    requires forall k | 0 <= k < |glyphs| :: glyphs[k].advance >= 0
    ensures Between(glyphs, lo, hi) >= 0
  {
    if glyphs != [] { BetweenPositive(glyphs[..|glyphs| - 1], lo, hi); }
  }

  ghost predicate NonEmptyWords(words: seq<string>) { forall i | 0 <= i < |words| :: words[i] != "" }

  lemma NextStart(words: seq<string>, i: nat)
    requires NonEmptyWords(words) && i + 1 < |words|
    ensures StartOf(words, i + 1) == EndOf(words, i) + 1
  {
    hide Length16;
    var before := TextBefore(words, i) + words[i];
    Length16Concat(TextBefore(words, i), words[i]);
    SpaceLength(before);
  }

  /** The next prefix is this prefix, this word, and the space between. */
  lemma PrefixAdds(words: seq<string>, glyphs: seq<Glyph>, i: nat)
    requires NonEmptyWords(words) && i + 1 < |words|
    ensures Prefix(words, glyphs, i + 1) == Prefix(words, glyphs, i) + Width(words, glyphs, i)
      + Between(glyphs, EndOf(words, i), EndOf(words, i) + 1)
  {
    hide Between, Length16, TextBefore;
    NextStart(words, i);
    BetweenSplits(glyphs, 0, StartOf(words, i), StartOf(words, i + 1));
    BetweenSplits(glyphs, StartOf(words, i), EndOf(words, i), EndOf(words, i) + 1);
  }

  /** All glyphs belong to the line. */
  ghost predicate InLine(words: seq<string>, glyphs: seq<Glyph>)
    requires words != []
  {
    forall k | 0 <= k < |glyphs| :: glyphs[k].cluster < EndOf(words, |words| - 1)
  }

  lemma LastEndsLine(words: seq<string>, glyphs: seq<Glyph>)
    requires words != [] && InLine(words, glyphs)
    ensures Prefix(words, glyphs, |words| - 1) + Width(words, glyphs, |words| - 1) == Total(glyphs)
  {
    hide Between, Length16, TextBefore;
    var n := |words| - 1;
    BetweenSplits(glyphs, 0, StartOf(words, n), EndOf(words, n));
    BetweenAll(glyphs, EndOf(words, n));
  }

  /** The left and right edge of the box of word `i`, counted from the left end of the
      line: the first word is the rightmost. */
  function BoxRight(words: seq<string>, glyphs: seq<Glyph>, i: nat): int
    requires i < |words|
  {
    Total(glyphs) - Prefix(words, glyphs, i)
  }

  function BoxLeft(words: seq<string>, glyphs: seq<Glyph>, i: nat): int
    requires i < |words|
  {
    BoxRight(words, glyphs, i) - Width(words, glyphs, i)
  }

  lemma {:induction false} BoxesInOrder(words: seq<string>, glyphs: seq<Glyph>, i: nat, j: nat)
    requires NonEmptyWords(words) && i < j < |words|
    requires forall k | 0 <= k < |glyphs| :: glyphs[k].advance >= 0
    ensures BoxRight(words, glyphs, j) <= BoxLeft(words, glyphs, i)
    decreases j - i
  {
    hide Between, Length16, TextBefore, StartOf, EndOf;
    PrefixAdds(words, glyphs, j - 1);
    BetweenPositive(glyphs, EndOf(words, j - 1), EndOf(words, j - 1) + 1);
    if i < j - 1 {
      BoxesInOrder(words, glyphs, i, j - 1);
      BetweenPositive(glyphs, StartOf(words, j - 1), EndOf(words, j - 1));
    }
  }

  /** With advances that are not negative the boxes run from right to left, do not
      overlap and stay inside the line. */
  lemma BoxesApart(words: seq<string>, glyphs: seq<Glyph>)
    requires NonEmptyWords(words) && words != [] && InLine(words, glyphs)
    requires forall k | 0 <= k < |glyphs| :: glyphs[k].advance >= 0
    ensures forall i | 0 <= i < |words| ::
      0 <= BoxLeft(words, glyphs, i) <= BoxRight(words, glyphs, i) <= Total(glyphs)
    ensures forall i, j | 0 <= i < j < |words| :: BoxRight(words, glyphs, j) <= BoxLeft(words, glyphs, i)
    ensures BoxLeft(words, glyphs, |words| - 1) == 0
  {
    hide Between, Length16, TextBefore, StartOf, EndOf;
    var n := |words| - 1;
    LastEndsLine(words, glyphs);
    forall i | 0 <= i < |words|
      ensures 0 <= BoxLeft(words, glyphs, i) <= BoxRight(words, glyphs, i) <= Total(glyphs)
    {
      BetweenPositive(glyphs, 0, StartOf(words, i));
      BetweenPositive(glyphs, StartOf(words, i), EndOf(words, i));
      if i < n {
        BoxesInOrder(words, glyphs, i, n);
        BetweenPositive(glyphs, StartOf(words, n), EndOf(words, n));
      }
    }
    forall i, j | 0 <= i < j < |words| ensures BoxRight(words, glyphs, j) <= BoxLeft(words, glyphs, i) {
      BoxesInOrder(words, glyphs, i, j);
    }
  }

  // ----- the canvas layout -----

  /** The text that `layoutLine` has behind its cursor before word `i`. */
  function Cursor(words: seq<string>, i: nat): string
    requires i <= |words|
  {
    if i == 0 then "" else Cursor(words, i - 1) + (words[i - 1] + if i < |words| then " " else "")
  }

  /** The centre of a word from the middle of its line. */
  function Centre(total: real, prefix: real, width: real): real { total / 2.0 - (prefix + width / 2.0) }

  /** The same from shaped glyphs. */
  function ShapedCentre(words: seq<string>, glyphs: seq<Glyph>, pxPerUnit: real, i: nat): real
    requires i < |words|
  {
    Centre(Total(glyphs) as real * pxPerUnit, Prefix(words, glyphs, i) as real * pxPerUnit,
      Width(words, glyphs, i) as real * pxPerUnit)
  }

  /** The centre of a word is the middle of its box, seen from the middle of the line. */
  lemma CentreOfBox(words: seq<string>, glyphs: seq<Glyph>, pxPerUnit: real, i: nat)
    requires i < |words|
    ensures 2.0 * ShapedCentre(words, glyphs, pxPerUnit, i)
         == (BoxLeft(words, glyphs, i) + BoxRight(words, glyphs, i) - Total(glyphs)) as real * pxPerUnit
  {
    hide Prefix, Width, Total;
    var t, p, w := Total(glyphs), Prefix(words, glyphs, i), Width(words, glyphs, i);
    assert BoxLeft(words, glyphs, i) + BoxRight(words, glyphs, i) - t == t - 2 * p - w;
    assert (t - 2 * p - w) as real * pxPerUnit
        == t as real * pxPerUnit - 2.0 * (p as real * pxPerUnit) - w as real * pxPerUnit;
  }

  method LayoutLine(words: seq<string>, measure: string -> real) returns (total: real, centres: seq<real>)
    ensures total == measure(Join(words, " "))
    ensures |centres| == |words|
    ensures forall i | 0 <= i < |words| ::
      centres[i] == Centre(total, measure(Cursor(words, i)), measure(words[i]))
  {
    hide Cursor, Join, Centre;
    total := measure(Join(words, " "));
    var cursor := "";
    var prefixes, widths := [], [];
    NoCursorYet(words);
    for i := 0 to |words|
      invariant cursor == Cursor(words, i)
      invariant |prefixes| == |widths| == i
      invariant forall j | 0 <= j < i :: prefixes[j] == measure(Cursor(words, j)) && widths[j] == measure(words[j])
    {
      NextCursor(words, i);
      prefixes := prefixes + [measure(cursor)];
      widths := widths + [measure(words[i])];
      cursor := cursor + (words[i] + if i < |words| - 1 then " " else "");
    }
    centres := seq(|words|, i requires 0 <= i < |words| => Centre(total, prefixes[i], widths[i]));
  }

  lemma NoCursorYet(words: seq<string>)
    ensures Cursor(words, 0) == ""
  {
  }

  lemma NextCursor(words: seq<string>, i: nat)
    requires i < |words|
    ensures Cursor(words, i + 1) == Cursor(words, i) + (words[i] + if i < |words| - 1 then " " else "")
  {
  }

  lemma {:induction false} SameText(words: seq<string>, i: nat)
    requires NonEmptyWords(words) && i <= |words|
    ensures TextBefore(words, i) == Cursor(words, i)
  {
    if i > 0 { SameText(words, i - 1); }
  }

  lemma {:induction false} CursorEndsJoin(words: seq<string>, n: nat)
    requires n < |words|
    ensures Cursor(words, n) + words[n] == Join(words[..n + 1], " ")
  {
    if n > 0 {
      CursorEndsJoin(words, n - 1);
      JoinConcat(words[..n], [words[n]], " ");
      assert words[..n] + [words[n]] == words[..n + 1];
    } else {
      assert words[..1] == [words[0]];
    }
  }

  lemma WholeCursor(words: seq<string>)
    requires words != []
    ensures Cursor(words, |words|) == Join(words, " ")
  {
    CursorEndsJoin(words, |words| - 1);
    assert words[..|words|] == words;
  }

  /** Shaping is additive for `measure`: the glyphs of any stretch of the line
      add up to the width of that stretch alone. */
  ghost predicate Additive(glyphs: seq<Glyph>, line: string, pxPerUnit: real, measure: string -> real) {
    forall before: string, part: string, rest: string | line == before + (part + rest) ::
      Between(glyphs, Length16(before), Length16(before) + Length16(part)) as real * pxPerUnit == measure(part)
  }

  lemma Stretch(glyphs: seq<Glyph>, line: string, pxPerUnit: real, measure: string -> real,
      before: string, part: string, rest: string)
    requires Additive(glyphs, line, pxPerUnit, measure) && line == before + (part + rest)
    ensures Between(glyphs, Length16(before), Length16(before) + Length16(part)) as real * pxPerUnit == measure(part)
  {
    hide Between, Length16;
  }

  /** What of the line comes after word `i`. */
  lemma {:induction false} CursorSplits(words: seq<string>, i: nat, n: nat) returns (rest: string)
    requires i < n <= |words|
    ensures Cursor(words, n) == Cursor(words, i) + (words[i] + rest)
    decreases n
  {
    var tail := words[n - 1] + if n < |words| then " " else "";
    if i == n - 1 {
      rest := if n < |words| then " " else "";
    } else {
      var r := CursorSplits(words, i, n - 1);
      rest := r + tail;
      Regroup(Cursor(words, i), words[i], r, tail);
    }
  }

  lemma Regroup(a: string, b: string, c: string, d: string)
    ensures (a + (b + c)) + d == a + (b + (c + d))
  {
  }

  /** Both back ends put the centre of a word at the same distance from the middle of
      its line, before rounding. */
  lemma LayoutsAgree(words: seq<string>, glyphs: seq<Glyph>, pxPerUnit: real, measure: string -> real, i: nat)
    requires NonEmptyWords(words) && i < |words| && InLine(words, glyphs)
    requires Additive(glyphs, Join(words, " "), pxPerUnit, measure)
    ensures Centre(measure(Join(words, " ")), measure(Cursor(words, i)), measure(words[i]))
         == ShapedCentre(words, glyphs, pxPerUnit, i)
  {
    hide Between, Length16, TextBefore, Additive, InLine, Cursor;
    var line, cursor := Join(words, " "), Cursor(words, i);
    WholeCursor(words);
    SameText(words, i);
    var rest := CursorSplits(words, i, |words|);
    EmptyLength("");
    assert "" + (cursor + (words[i] + rest)) == line;
    Stretch(glyphs, line, pxPerUnit, measure, "", cursor, words[i] + rest);
    Stretch(glyphs, line, pxPerUnit, measure, cursor, words[i], rest);
    assert Length16("") + Length16(cursor) == StartOf(words, i);
    assert Prefix(words, glyphs, i) as real * pxPerUnit == measure(cursor);
    assert Width(words, glyphs, i) as real * pxPerUnit == measure(words[i]);
    WholeWidth(words, glyphs, pxPerUnit, measure);
  }

  lemma WholeWidth(words: seq<string>, glyphs: seq<Glyph>, pxPerUnit: real, measure: string -> real)
    requires NonEmptyWords(words) && words != [] && InLine(words, glyphs)
    requires Additive(glyphs, Join(words, " "), pxPerUnit, measure)
    ensures measure(Join(words, " ")) == Total(glyphs) as real * pxPerUnit
  {
    hide Between, Length16, TextBefore, Additive, Cursor;
    var line, n := Join(words, " "), |words| - 1;
    assert "" + (line + "") == line;
    EmptyLength("");
    Stretch(glyphs, line, pxPerUnit, measure, "", line, "");
    CursorEndsJoin(words, n);
    assert words[..n + 1] == words;
    SameText(words, n);
    Length16Concat(Cursor(words, n), words[n]);
    BetweenAll(glyphs, EndOf(words, n));
  }
}
