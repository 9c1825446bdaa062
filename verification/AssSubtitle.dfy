/** The ASS file of ass-subtitle-builder.ts: one base event per segment, one
    highlight event per highlight interval, and their lines of text. */
module AssSubtitle {
  import opened JsText
  import opened CaptionCatalog
  import opened CaptionFrames
  import opened SubtitleExport
  import WordBoxes

  // ----- escaping -----

  function Drop(s: string, c: char): string {
    if s == "" then "" else if s[0] == c then Drop(s[1..], c) else [s[0]] + Drop(s[1..], c)
  }

  /** `\r?\n` becomes one space. */
  function FlattenBreaks(s: string): string {
    if s == "" then ""
    else if |s| >= 2 && s[0] == '\r' && s[1] == '\n' then " " + FlattenBreaks(s[2..])
    else if s[0] == '\n' then " " + FlattenBreaks(s[1..])
    else [s[0]] + FlattenBreaks(s[1..])
  }

  function Kept(text: string): string { Drop(Drop(Drop(text, '\\'), '{'), '}') }

  function EscapeAssText(text: string): string { FlattenBreaks(Kept(text)) }

  lemma DropStep(s: string, c: char)
    requires s != ""
    ensures Drop(s, c) == (if s[0] == c then "" else [s[0]]) + Drop(s[1..], c)
  {
  }

  lemma {:induction false} DropConcat(a: string, b: string, c: char)
    ensures Drop(a + b, c) == Drop(a, c) + Drop(b, c)
  {
    hide Drop;
    if a == "" {
      DropOne(c, c);
      assert a + b == b && "" + Drop(b, c) == Drop(b, c);
    } else {
      DropConcat(a[1..], b, c);
      assert (a + b)[1..] == a[1..] + b;
      DropStep(a, c);
      DropStep(a + b, c);
    }
  }

  /** Breaks are replaced one by one: a text may be cut anywhere but between the two characters of a break. */
  lemma {:induction false} FlattenConcat(a: string, b: string)
    requires a == "" || b == "" || a[|a| - 1] != '\r' || b[0] != '\n'
    ensures FlattenBreaks(a + b) == FlattenBreaks(a) + FlattenBreaks(b)
    decreases |a|
  {
    hide FlattenBreaks;
    if a == "" {
      FlattenNothing();
      assert a + b == b && "" + FlattenBreaks(b) == FlattenBreaks(b);
    } else {
      var n := FirstStep(a, b);
      FlattenConcat(a[n..], b);
      FlattenStep(a, n);
      FlattenStep(a + b, n);
      var first := if n == 2 || a[0] == '\n' then " " else [a[0]];
      assert first + (FlattenBreaks(a[n..]) + FlattenBreaks(b)) == first + FlattenBreaks(a[n..]) + FlattenBreaks(b);
    }
  }

  lemma FlattenNothing()
    ensures FlattenBreaks("") == ""
  {
  }

  lemma FirstStep(a: string, b: string) returns (n: nat)
    requires a != "" && (b == "" || a[|a| - 1] != '\r' || b[0] != '\n')
    ensures n == if |a| >= 2 && a[0] == '\r' && a[1] == '\n' then 2 else 1
    ensures n == if |a + b| >= 2 && (a + b)[0] == '\r' && (a + b)[1] == '\n' then 2 else 1
    ensures n <= |a| && (a + b)[n..] == a[n..] + b && (a + b)[0] == a[0]
    ensures a[n..] == "" || a[n..][|a[n..]| - 1] == a[|a| - 1]
  {
    n := if |a| >= 2 && a[0] == '\r' && a[1] == '\n' then 2 else 1;
  }

  lemma FlattenStep(s: string, n: nat)
    requires s != "" && n == if |s| >= 2 && s[0] == '\r' && s[1] == '\n' then 2 else 1
    ensures FlattenBreaks(s) == (if n == 2 || s[0] == '\n' then " " else [s[0]]) + FlattenBreaks(s[n..])
  {
  }

  lemma KeptConcat(a: string, b: string)
    ensures Kept(a + b) == Kept(a) + Kept(b)
  {
    DropConcat(a, b, '\\');
    DropConcat(Drop(a, '\\'), Drop(b, '\\'), '{');
    DropConcat(Drop(Drop(a, '\\'), '{'), Drop(Drop(b, '\\'), '{'), '}');
  }

  lemma KeptOne(c: char)
    ensures Kept([c]) == if c in "\\{}" then "" else [c]
  {
    DropOne(c, '\\');
    DropOne(c, '{');
    DropOne(c, '}');
  }

  lemma DropOne(c: char, d: char)
    ensures Drop([c], d) == (if c == d then "" else [c]) && Drop("", d) == ""
  {
    assert [c][1..] == "";
  }

  lemma LastKept(a: string)
    requires a != "" && a[|a| - 1] !in "\r\\{}"
    ensures Kept(a) != "" && Kept(a)[|Kept(a)| - 1] != '\r'
  {
    var n := |a| - 1;
    assert a == a[..n] + [a[n]];
    hide Kept;
    KeptConcat(a[..n], [a[n]]);
    KeptOne(a[n]);
  }

  lemma BreakFlat(mark: string, b: string)
    requires mark == "\r\n" || mark == "\n"
    ensures FlattenBreaks(mark + b) == " " + FlattenBreaks(b)
  {
    assert (mark + b)[|mark|..] == b;
    FlattenStep(mark + b, |mark|);
  }

  lemma MarkIsKept(mark: string)
    requires mark == "\r\n" || mark == "\n"
    ensures Kept(mark) == mark
  {
    KeptOne('\r');
    KeptOne('\n');
    assert "\r" + "\n" == "\r\n";
    hide Kept;
    KeptConcat("\r", "\n");
  }

  /** Backslashes and braces vanish from a text, wherever they stand. */
  lemma ControlsVanish(a: string, c: char, b: string)
    requires c in "\\{}"
    ensures EscapeAssText(a + ([c] + b)) == EscapeAssText(a + b)
  {
    hide Kept, FlattenBreaks;
    KeptOne(c);
    KeptConcat(a, b);
    KeptConcat([c], b);
    KeptConcat(a, [c] + b);
    assert "" + Kept(b) == Kept(b);
  }

  /** A break of either kind is one blank, wherever it stands. */
  lemma BreakIsBlank(a: string, mark: string, b: string)
    requires mark == "\r\n" || (mark == "\n" && (a == "" || a[|a| - 1] !in "\r\\{}"))
    ensures EscapeAssText(a + (mark + b)) == EscapeAssText(a) + (" " + EscapeAssText(b))
  {
    MarkIsKept(mark);
    KeptConcat(mark, b);
    KeptConcat(a, mark + b);
    if a == "" { assert Kept(a) == ""; } else if mark == "\n" { LastKept(a); }
    hide Kept, FlattenBreaks;
    BreakFlat(mark, Kept(b));
    FlattenConcat(Kept(a), mark + Kept(b));
  }

  predicate Harmless(s: string) { Lacks(s, '\\') && Lacks(s, '{') && Lacks(s, '}') && Lacks(s, '\n') }

  lemma {:induction false} DropLacks(s: string, c: char, d: char)
    ensures Lacks(Drop(s, c), c)
    ensures Lacks(s, d) ==> Lacks(Drop(s, c), d)
    ensures Lacks(s, c) ==> Drop(s, c) == s
  {
    if s != "" {
      DropLacks(s[1..], c, d);
      assert s == [s[0]] + s[1..];
    }
  }

  lemma {:induction false} FlattenLacks(s: string, d: char)
    ensures Lacks(FlattenBreaks(s), '\n')
    ensures Lacks(s, d) && d != ' ' ==> Lacks(FlattenBreaks(s), d)
    ensures Lacks(s, '\n') ==> FlattenBreaks(s) == s
    decreases |s|
  {
    if s != "" {
      FlattenLacks(s[1..], d);
      if |s| >= 2 { FlattenLacks(s[2..], d); }
      assert s == [s[0]] + s[1..];
    }
  }

  /** The text of a user cannot open a tag, start a command or end its line, and a
      text that does none of this is kept as it is. */
  lemma EscapeIsHarmless(text: string)
    ensures Harmless(EscapeAssText(text))
    ensures Harmless(text) ==> EscapeAssText(text) == text
  {
    var a := Drop(text, '\\');
    var b := Drop(a, '{');
    var c := Drop(b, '}');
    DropLacks(text, '\\', '{');
    DropLacks(text, '\\', '}');
    DropLacks(text, '\\', '\n');
    DropLacks(a, '{', '\\');
    DropLacks(a, '{', '}');
    DropLacks(a, '{', '\n');
    DropLacks(b, '}', '\\');
    DropLacks(b, '}', '{');
    DropLacks(b, '}', '\n');
    FlattenLacks(c, '\\');
    FlattenLacks(c, '{');
    FlattenLacks(c, '}');
  }

  // ----- events -----

  datatype Event = Event(layer: nat, startMs: real, endMs: real, style: string, x: int, y: int, text: string) {
    predicate Covers(t: real) { startMs <= t < endMs }
  }

  /** Where the caption stands, how high a line is, and how a line of text is shaped. */
  datatype Place = Place(posX: int, posY: int, lineHeight: real, wordsPerLine: nat, pxPerUnit: real,
    shape: string -> seq<WordBoxes.Glyph>)
  {
    function Glyphs(line: seq<string>): seq<WordBoxes.Glyph> { shape(WordBoxes.TextBefore(line, |line|)) }

    /** The distance of a word centre from the middle of its line, before rounding. */
    function Offset(line: seq<string>, slot: nat): real
      requires slot < |line|
    {
      WordBoxes.ShapedCentre(line, Glyphs(line), pxPerUnit, slot)
    }

    function LineY(line: nat, lines: nat): int {
      Round(posY as real + (line as real - (lines as real - 1.0) / 2.0) * lineHeight)
    }
  }

  /** The lines of a caption are one line height apart, their middle at `posY`, to the nearest pixel. */
  lemma LinesAroundPos(p: Place, line: nat, lines: nat)
    requires line < lines
    ensures -1.0 <= 2.0 * (p.posY - p.LineY(line, lines)) as real + (2 * line + 1 - lines) as real * p.lineHeight < 1.0
  {
    var x := p.posY as real + (line as real - (lines as real - 1.0) / 2.0) * p.lineHeight;
    Halved(line as real, lines as real, p.lineHeight);
    assert p.LineY(line, lines) as real <= x + 0.5 < p.LineY(line, lines) as real + 1.0;
  }

  lemma Halved(line: real, lines: real, height: real)
    ensures 2.0 * ((line - (lines - 1.0) / 2.0) * height) == (2.0 * line + 1.0 - lines) * height
  {
    assert 2.0 * (line - (lines - 1.0) / 2.0) == 2.0 * line + 1.0 - lines;
  }

  function Escaped(words: seq<CaptionWord>): seq<string> {
    seq(|words|, i requires 0 <= i < |words| => EscapeAssText(Trim(words[i].word)))
  }

  function JoinLines(lines: seq<seq<string>>): seq<string> {
    seq(|lines|, i requires 0 <= i < |lines| => Join(lines[i], " "))
  }

  function Highlight(seg: CaptionSegment, p: Place, iv: Interval): Event
    requires p.wordsPerLine > 0 && iv.wordIndex < |seg.words|
  {
    var words := Escaped(seg.words);
    var lines := Lines(words, p.wordsPerLine);
    var line, slot := iv.wordIndex / p.wordsPerLine, iv.wordIndex % p.wordsPerLine;
    WordInLine(words, p.wordsPerLine, iv.wordIndex);
    Event(1, iv.startMs, iv.endMs, "Highlight",
      Round(p.posX as real + p.Offset(lines[line], slot)), p.LineY(line, |lines|), words[iv.wordIndex])
  }

  function BaseText(seg: CaptionSegment, p: Place): string
    requires p.wordsPerLine > 0
  {
    if seg.words == [] then EscapeAssText(seg.text)
    else Join(JoinLines(Lines(Escaped(seg.words), p.wordsPerLine)), "\\N")
  }

  function Base(seg: CaptionSegment, p: Place): Event
    requires p.wordsPerLine > 0
  {
    Event(0, seg.startMs, seg.endMs, "Default", p.posX, p.posY, BaseText(seg, p))
  }

  predicate OfWords(ivs: seq<Interval>, seg: CaptionSegment) {
    forall k | 0 <= k < |ivs| :: ivs[k].wordIndex < |seg.words|
  }

  function Highlights(seg: CaptionSegment, p: Place, ivs: seq<Interval>): seq<Event>
    requires p.wordsPerLine > 0 && OfWords(ivs, seg)
  {
    seq(|ivs|, k requires 0 <= k < |ivs| => Highlight(seg, p, ivs[k]))
  }

  lemma IntervalsOfWords(seg: CaptionSegment)
    ensures OfWords(Intervals(seg), seg)
  {
    forall k | 0 <= k < |Intervals(seg)| ensures Intervals(seg)[k].wordIndex < |seg.words| {
      IntervalIs(seg, |seg.words|, k);
    }
  }

  function EventsOf(seg: CaptionSegment, p: Place): seq<Event>
    requires p.wordsPerLine > 0
  {
    IntervalsOfWords(seg);
    [Base(seg, p)] + Highlights(seg, p, Intervals(seg))
  }

  function AllEvents(segs: seq<CaptionSegment>, p: Place): seq<Event>
    requires p.wordsPerLine > 0
  {
    if segs == [] then [] else AllEvents(segs[..|segs| - 1], p) + EventsOf(segs[|segs| - 1], p)
  }

  method BuildEvents(segs: seq<CaptionSegment>, p: Place) returns (events: seq<Event>)
    requires p.wordsPerLine > 0
    ensures events == AllEvents(segs, p)
  {
    hide Base, EventsOf;
    events := [];
    for j := 0 to |segs|
      invariant events == AllEvents(segs[..j], p)
    {
      assert segs[..j + 1][..j] == segs[..j];
      var own := SegmentEvents(segs[j], p);
      events := events + own;
    }
    assert segs[..|segs|] == segs;
  }

  method SegmentEvents(seg: CaptionSegment, p: Place) returns (events: seq<Event>)
    requires p.wordsPerLine > 0
    ensures events == EventsOf(seg, p)
  {
    hide Highlight;
    if |seg.words| == 0 {
      events := [Event(0, seg.startMs, seg.endMs, "Default", p.posX, p.posY, EscapeAssText(seg.text))];
      assert Intervals(seg) == [];
      return;
    }
    var words := Escaped(seg.words);
    var lines := SplitLines(words, p.wordsPerLine);
    events := [Event(0, seg.startMs, seg.endMs, "Default", p.posX, p.posY, Join(JoinLines(lines), "\\N"))];
    var intervals := ComputeWordHighlightIntervals(seg);
    IntervalsOfWords(seg);
    for k := 0 to |intervals|
      invariant events == [Base(seg, p)] + Highlights(seg, p, intervals)[..k]
    {
      events := events + [Highlight(seg, p, intervals[k])];
    }
    assert Highlights(seg, p, intervals)[..|intervals|] == Highlights(seg, p, intervals);
  }

  // ----- the two back ends agree -----

  /** At every moment of a segment with words one highlight event is shown, it shows the
      active word, and it stands in the line and slot that the frame of that moment lights. */
  lemma EventLightsSameWord(seg: CaptionSegment, p: Place, t: real) returns (k: nat)
    requires p.wordsPerLine > 0 && InRange(seg) && seg.words != [] && seg.startMs <= t < seg.endMs
    ensures var ivs := Intervals(seg);
      && OfWords(ivs, seg) && k < |ivs| && Active(seg, t) < |seg.words|
      && var e := Highlights(seg, p, ivs)[k];
      var shown := Showing(seg, p.wordsPerLine, t);
      var lines := Lines(Escaped(seg.words), p.wordsPerLine);
      && e.Covers(t) && e.text == EscapeAssText(Trim(seg.words[Active(seg, t)].word))
      && shown.Words? && shown.lit < |lines| && shown.slot < |lines[shown.lit]|
      && e.text == lines[shown.lit][shown.slot]
      && e.x == Round(p.posX as real + p.Offset(lines[shown.lit], shown.slot))
      && e.y == p.LineY(shown.lit, |lines|)
  {
    IntervalsOfWords(seg);
    k := ExactlyActiveIsLit(seg, t);
    IntervalLightsActive(seg, k, t);
    WordInLine(Escaped(seg.words), p.wordsPerLine, Active(seg, t));
    HighlightIs(seg, p, Intervals(seg)[k]);
  }

  lemma HighlightIs(seg: CaptionSegment, p: Place, iv: Interval)
    requires p.wordsPerLine > 0 && iv.wordIndex < |seg.words|
    ensures var e, words := Highlight(seg, p, iv), Escaped(seg.words);
      var lines := Lines(words, p.wordsPerLine);
      var line, slot := iv.wordIndex / p.wordsPerLine, iv.wordIndex % p.wordsPerLine;
      && line < |lines| && slot < |lines[line]|
      && e.startMs == iv.startMs && e.endMs == iv.endMs && e.text == words[iv.wordIndex]
      && e.x == Round(p.posX as real + p.Offset(lines[line], slot)) && e.y == p.LineY(line, |lines|)
  {
    WordInLine(Escaped(seg.words), p.wordsPerLine, iv.wordIndex);
  }

  /** Where shaping is additive, the highlight is centred on the very point where the
      canvas centres the same word of the same line. */
  lemma OffsetIsCanvasCentre(p: Place, line: seq<string>, slot: nat, measure: string -> real)
    requires WordBoxes.NonEmptyWords(line) && slot < |line| && WordBoxes.InLine(line, p.Glyphs(line))
    requires WordBoxes.Additive(p.Glyphs(line), Join(line, " "), p.pxPerUnit, measure)
    ensures p.Offset(line, slot) == WordBoxes.Centre(measure(Join(line, " ")),
      measure(WordBoxes.Cursor(line, slot)), measure(line[slot]))
  {
    hide WordBoxes.Additive, WordBoxes.InLine, WordBoxes.NonEmptyWords;
    WordBoxes.LayoutsAgree(line, p.Glyphs(line), p.pxPerUnit, measure, slot);
  }

  /** No other event of the segment is shown at that moment but the base event. */
  lemma OnlyOneHighlight(seg: CaptionSegment, p: Place, t: real, j: nat, k: nat)
    requires p.wordsPerLine > 0 && InRange(seg) && OfWords(Intervals(seg), seg)
    requires j < |Intervals(seg)| && k < |Intervals(seg)|
    requires Highlights(seg, p, Intervals(seg))[j].Covers(t) && Highlights(seg, p, Intervals(seg))[k].Covers(t)
    ensures j == k
  {
    hide Highlight, InRange;
    HighlightIs(seg, p, Intervals(seg)[j]);
    HighlightIs(seg, p, Intervals(seg)[k]);
    IntervalLightsActive(seg, j, t);
    IntervalLightsActive(seg, k, t);
    if j < k { IndexesRise(seg, |seg.words|, j, k); } else if k < j { IndexesRise(seg, |seg.words|, k, j); }
  }

  lemma {:induction false} IndexesRise(seg: CaptionSegment, n: nat, j: nat, k: nat)
    requires n <= |seg.words| && j < k < |IntervalsUpTo(seg, n)|
    ensures IntervalsUpTo(seg, n)[j].wordIndex < IntervalsUpTo(seg, n)[k].wordIndex
  {
    if k < |IntervalsUpTo(seg, n - 1)| { IndexesRise(seg, n - 1, j, k); }
    else { IntervalIs(seg, n - 1, j); }
  }

  /** After rounding to hundredths of a second the highlights of a segment still begin
      with it, end with it and share every boundary between them. */
  lemma {:induction false} RoundedChain(ivs: seq<Interval>, a: real, b: real)
    requires Chain(ivs, a, b) && ivs != []
    ensures Centis(ivs[0].startMs) == Centis(a) && Centis(ivs[|ivs| - 1].endMs) == Centis(b)
    ensures forall k | 0 < k < |ivs| :: Centis(ivs[k - 1].endMs) == Centis(ivs[k].startMs)
    ensures forall k | 0 <= k < |ivs| :: Centis(ivs[k].startMs) <= Centis(ivs[k].endMs)
  {
    hide Centis;
    var init, last := ivs[..|ivs| - 1], ivs[|ivs| - 1];
    AssTimesInOrder(last.startMs, last.endMs);
    if init != [] { RoundedChain(init, a, last.startMs); }
  }

  lemma HighlightsShareBoundaries(seg: CaptionSegment, p: Place)
    requires p.wordsPerLine > 0 && InRange(seg) && OfWords(Intervals(seg), seg) && seg.startMs < seg.endMs && seg.words != []
    ensures var es := Highlights(seg, p, Intervals(seg));
      && es != [] && Centis(es[0].startMs) == Centis(seg.startMs) && Centis(es[|es| - 1].endMs) == Centis(seg.endMs)
      && forall k | 0 < k < |es| :: Centis(es[k - 1].endMs) == Centis(es[k].startMs)
  {
    hide Highlight, Centis, InRange, Chain;
    var ivs, es := Intervals(seg), Highlights(seg, p, Intervals(seg));
    IntervalsChain(seg);
    var k := ChainCovers(ivs, seg.startMs, seg.endMs, seg.startMs);
    RoundedChain(ivs, seg.startMs, seg.endMs);
    forall k | 0 <= k < |es| ensures es[k].startMs == ivs[k].startMs && es[k].endMs == ivs[k].endMs {
      HighlightIs(seg, p, ivs[k]);
    }
  }

  // ----- the lines of the file -----

  function IntText(n: int): string { if n < 0 then "-" + NatText(-n) else NatText(n) }

  function Fields(fs: seq<string>, rest: string): string {
    if fs == [] then rest else fs[0] + ("," + Fields(fs[1..], rest))
  }

  const POS := "{\\an5\\pos("

  function PosTag(x: int, y: int): string { POS + IntText(x) + "," + IntText(y) + ")}" }

  const DIALOGUE := "Dialogue: "

  function HeadFields(e: Event): seq<string> {
    [DIALOGUE + NatText(e.layer), AssTime(e.startMs), AssTime(e.endMs), e.style, "", "0", "0", "0", ""]
  }

  function EventLine(e: Event): string { Fields(HeadFields(e), PosTag(e.x, e.y) + e.text) }

  function EventLines(es: seq<Event>): seq<string> {
    seq(|es|, i requires 0 <= i < |es| => EventLine(es[i]))
  }

  function AssFile(header: seq<string>, es: seq<Event>): string {
    Join(header, "\n") + "\n" + (Join(EventLines(es), "\n") + "\n")
  }

  /** Reads `n` fields, each up to a comma, and what follows them. */
  function ReadFields(s: string, n: nat): Option<(seq<string>, string)> {
    if n == 0 then Some(([], s)) else
    match Find(s, ",")
    case None => None
    case Some(i) =>
      var rest := ReadFields(s[i + 1..], n - 1);
      if rest.Some? then Some(([s[..i]] + rest.value.0, rest.value.1)) else None
  }

  function ReadInt(s: string): Option<int> {
    var minus := s != "" && s[0] == '-';
    var digits := if minus then s[1..] else s;
    if !Numeral(digits) then None else
    var n: int := Number(Digits(digits));
    Some(if minus then -n else n)
  }

  /** The tag that places a text at (x, y), and the text. */
  datatype Placed = Placed(x: int, y: int, text: string)

  function ReadPlaced(s: string): Option<Placed> {
    if !(POS <= s) then None else
    var t := s[|POS|..];
    var i := Find(t, ",");
    if i.None? then None else
    var j := Find(t[i.value + 1..], ")}");
    if j.None? then None else
    var x, y := ReadInt(t[..i.value]), ReadInt(t[i.value + 1..][..j.value]);
    if x.None? || y.None? then None else Some(Placed(x.value, y.value, t[i.value + 1..][j.value + 2..]))
  }

  datatype Heard = Heard(layer: nat, start: nat, end: nat, style: string, placed: Placed)

  function ReadEvent(line: string): Option<Heard> {
    var r := ReadFields(line, 9);
    if r.None? then None else
    var fs := r.value.0;
    if |fs| != 9 || !(DIALOGUE <= fs[0]) || !Numeral(fs[0][|DIALOGUE|..]) then None else
    var start, end, placed := ReadStamp(fs[1], '.', 100), ReadStamp(fs[2], '.', 100), ReadPlaced(r.value.1);
    if start.None? || end.None? || placed.None? then None
    else Some(Heard(Number(Digits(fs[0][|DIALOGUE|..])), start.value, end.value, fs[3], placed.value))
  }

  /** What a reader should hear of an event. */
  function HeardOf(e: Event): Heard {
    Heard(e.layer, Centis(e.startMs), Centis(e.endMs), e.style, Placed(e.x, e.y, e.text))
  }

  lemma NatIsPlain(n: nat)
    ensures Numeral(NatText(n)) && NatText(n)[0] != '-' && Number(Digits(NatText(n))) == n
    ensures Lacks(NatText(n), ',') && Lacks(NatText(n), ')')
  {
    hide Number, Digits, NatText;
    assert IsDigit(NatText(n)[0]);
  }

  lemma IntReadBack(n: int)
    ensures ReadInt(IntText(n)) == Some(n) && Lacks(IntText(n), ',') && Lacks(IntText(n), ')')
    ensures IntText(n)[..1] == "-" <==> n < 0
  {
    hide Number, Digits, NatText, Numeral;
    if n < 0 {
      NatIsPlain(-n);
      assert IntText(n)[1..] == NatText(-n);
    } else {
      NatIsPlain(n);
    }
  }

  lemma FirstBrace(a: string, b: string)
    requires Lacks(a, ')')
    ensures Find(a + (")}" + b), ")}") == Some(|a|)
    ensures (a + (")}" + b))[..|a|] == a && (a + (")}" + b))[|a| + 2..] == b
  {
    hide Find;
    LacksFind(a, ")}");
    Associative(a, ")}", b);
    FindPrefix(a + ")}", b, ")}");
  }

  /** The place is read to its numbers, the text to its last character. */
  lemma PlacedReadBack(x: int, y: int, text: string)
    ensures ReadPlaced(PosTag(x, y) + text) == Some(Placed(x, y, text))
  {
    hide IntText, Find, ReadInt, PosTag;
    IntReadBack(x);
    IntReadBack(y);
    var b := IntText(y) + (")}" + text);
    var t := IntText(x) + ("," + b);
    TagBefore(x, y, text);
    FirstComma(IntText(x), b);
    AroundComma(IntText(x), b);
    FirstBrace(IntText(y), text);
  }

  lemma TagBefore(x: int, y: int, text: string)
    ensures var s, t := PosTag(x, y) + text, IntText(x) + ("," + (IntText(y) + (")}" + text)));
      POS <= s && s[|POS|..] == t
  {
    hide IntText;
    assert PosTag(x, y) + text == POS + (IntText(x) + ("," + (IntText(y) + (")}" + text))));
  }

  lemma FirstComma(a: string, b: string)
    requires Lacks(a, ',')
    ensures Find(a + ("," + b), ",") == Some(|a|)
  {
    hide Find;
    LacksFind(a, ",");
    Associative(a, ",", b);
    FindPrefix(a + ",", b, ",");
  }

  lemma AroundComma(a: string, b: string)
    ensures (a + ("," + b))[..|a|] == a && (a + ("," + b))[|a| + 1..] == b
  {
  }

  lemma {:induction false} FieldsReadBack(fs: seq<string>, rest: string)
    requires forall i | 0 <= i < |fs| :: Lacks(fs[i], ',')
    ensures ReadFields(Fields(fs, rest), |fs|) == Some((fs, rest))
  {
    if fs != [] {
      FieldsReadBack(fs[1..], rest);
      FirstComma(fs[0], Fields(fs[1..], rest));
      AroundComma(fs[0], Fields(fs[1..], rest));
      assert [fs[0]] + fs[1..] == fs;
    }
  }

  lemma StampLacks(ms: real, c: char)
    requires !IsDigit(c) && c != ':' && c != '.'
    ensures Lacks(AssTime(ms), c)
  {
    var t := Centis(ms);
    Pieces(NatText(t / 100 / 60 / 60), Padded(t / 100 / 60 % 60, 2), Padded(t / 100 % 60, 2), Padded(t % 100, 2), c);
  }

  lemma Pieces(h: string, m: string, sec: string, f: string, c: char)
    requires AllDigits(h) && AllDigits(m) && AllDigits(sec) && AllDigits(f) && !IsDigit(c) && c != ':' && c != '.'
    ensures Lacks(h + ":" + (m + ":" + (sec + "." + f)), c)
  {
    assert Lacks(sec + "." + f, c);
    assert Lacks(m + ":" + (sec + "." + f), c);
  }

  predicate Styled(e: Event) { e.style == "Default" || e.style == "Highlight" }

  lemma LayerField(layer: nat, c: char)
    requires c == ',' || c == '\n'
    ensures Lacks(DIALOGUE + NatText(layer), c)
    ensures (DIALOGUE + NatText(layer))[|DIALOGUE|..] == NatText(layer) && DIALOGUE <= DIALOGUE + NatText(layer)
  {
  }

  lemma PlainFields(c: char)
    requires c == ',' || c == '\n'
    ensures Lacks("", c) && Lacks("0", c) && Lacks("Default", c) && Lacks("Highlight", c)
  {
  }

  lemma HeadLacks(e: Event, c: char)
    requires Styled(e) && (c == ',' || c == '\n')
    ensures forall i | 0 <= i < 9 :: Lacks(HeadFields(e)[i], c)
  {
    hide AssTime, NatText, Lacks;
    LayerField(e.layer, c);
    StampLacks(e.startMs, c);
    StampLacks(e.endMs, c);
    PlainFields(c);
    var fs := HeadFields(e);
    assert fs[4] == fs[8] == "" && fs[5] == fs[6] == fs[7] == "0";
  }

  /** A line of the file says what its event says: layer, times to the hundredth, style,
      the two numbers of the place, and the text. */
  lemma EventReadBack(e: Event)
    requires Styled(e)
    ensures ReadEvent(EventLine(e)) == Some(HeardOf(e))
  {
    hide AssTime, ReadStamp, Styled, PosTag, ReadPlaced;
    HeadLacks(e, ',');
    FieldsReadBack(HeadFields(e), PosTag(e.x, e.y) + e.text);
    LayerField(e.layer, ',');
    AssTimeReadBack(e.startMs);
    AssTimeReadBack(e.endMs);
    PlacedReadBack(e.x, e.y, e.text);
  }

  lemma {:induction false} FieldsLack(fs: seq<string>, rest: string)
    requires (forall i | 0 <= i < |fs| :: Lacks(fs[i], '\n')) && Lacks(rest, '\n')
    ensures Lacks(Fields(fs, rest), '\n')
  {
    if fs != [] { FieldsLack(fs[1..], rest); }
  }

  lemma IntLacks(n: int)
    ensures Lacks(IntText(n), '\n')
  {
  }

  lemma PosTagLacks(x: int, y: int)
    ensures Lacks(PosTag(x, y), '\n')
  {
    IntLacks(x);
    IntLacks(y);
    hide IntText;
    var a, b := IntText(x), IntText(y);
    assert Lacks(POS + a, '\n');
    assert Lacks(POS + a + "," + b, '\n');
  }

  lemma LineLacks(e: Event)
    requires Styled(e) && Lacks(e.text, '\n')
    ensures Lacks(EventLine(e), '\n')
  {
    hide HeadFields, PosTag;
    HeadLacks(e, '\n');
    PosTagLacks(e.x, e.y);
    assert |HeadFields(e)| == 9 by { NineFields(e); }
    FieldsLack(HeadFields(e), PosTag(e.x, e.y) + e.text);
  }

  lemma NineFields(e: Event)
    ensures |HeadFields(e)| == 9
  {
  }

  lemma {:induction false} LinesLack(words: seq<string>, i: nat, wordsPerLine: nat, j: nat)
    requires wordsPerLine > 0 && forall k | 0 <= k < |words| :: Lacks(words[k], '\n')
    requires j < |LinesFrom(words, i, wordsPerLine)|
    ensures Lacks(Join(LinesFrom(words, i, wordsPerLine)[j], " "), '\n')
    decreases |words| - i
  {
    if j > 0 { LinesLack(words, i + wordsPerLine, wordsPerLine, j - 1); }
    else { JoinLacks(words[i..Min(i + wordsPerLine, |words|)], " ", '\n'); }
  }

  lemma EscapedLack(words: seq<CaptionWord>)
    ensures forall k | 0 <= k < |words| :: Lacks(Escaped(words)[k], '\n')
  {
    forall k | 0 <= k < |words| ensures Lacks(Escaped(words)[k], '\n') { EscapeIsHarmless(Trim(words[k].word)); }
  }

  lemma BaseLacks(seg: CaptionSegment, p: Place)
    requires p.wordsPerLine > 0
    ensures Lacks(BaseText(seg, p), '\n')
  {
    hide EscapeAssText;
    EscapeIsHarmless(seg.text);
    EscapedLack(seg.words);
    var lines := Lines(Escaped(seg.words), p.wordsPerLine);
    forall j | 0 <= j < |lines| ensures Lacks(JoinLines(lines)[j], '\n') {
      LinesLack(Escaped(seg.words), 0, p.wordsPerLine, j);
    }
    JoinLacks(JoinLines(lines), "\\N", '\n');
  }

  predicate OneLine(e: Event) { Styled(e) && Lacks(e.text, '\n') }

  lemma EventsOneLine(seg: CaptionSegment, p: Place)
    requires p.wordsPerLine > 0
    ensures forall k | 0 <= k < |EventsOf(seg, p)| :: OneLine(EventsOf(seg, p)[k])
  {
    hide BaseText, EscapeAssText;
    BaseLacks(seg, p);
    IntervalsOfWords(seg);
    EscapedLack(seg.words);
    forall iv: Interval | iv.wordIndex < |seg.words| ensures OneLine(Highlight(seg, p, iv)) {
      HighlightIs(seg, p, iv);
    }
  }

  lemma {:induction false} AllOneLine(segs: seq<CaptionSegment>, p: Place)
    requires p.wordsPerLine > 0
    ensures forall k | 0 <= k < |AllEvents(segs, p)| :: OneLine(AllEvents(segs, p)[k])
  {
    if segs != [] {
      hide OneLine, EventsOf;
      AllOneLine(segs[..|segs| - 1], p);
      EventsOneLine(segs[|segs| - 1], p);
    }
  }

  /** The lines of the file after its header; without events one empty line. */
  function Body(texts: seq<string>): seq<string> { (if texts == [] then [""] else texts) + [""] }

  /** Whatever the captions say, the file has exactly one line for each event, and that
      line reads back as the event. */
  lemma FileReadBack(segs: seq<CaptionSegment>, p: Place, header: seq<string>)
    requires p.wordsPerLine > 0 && header != [] && NoBreaks(header)
    ensures var es := AllEvents(segs, p);
      var lines := Split(AssFile(header, es), "\n");
      && lines == header + Body(EventLines(es))
      && forall k | 0 <= k < |es| :: ReadEvent(lines[|header| + k]) == Some(HeardOf(es[k]))
  {
    hide AllEvents, EventLine, ReadEvent, HeardOf, Split, Join, NoBreaks;
    var es := AllEvents(segs, p);
    AllOneLine(segs, p);
    LinesHaveNoBreaks(es);
    FileSplits(header, EventLines(es));
    forall k | 0 <= k < |es| ensures ReadEvent(EventLine(es[k])) == Some(HeardOf(es[k])) {
      assert OneLine(es[k]);
      EventReadBack(es[k]);
    }
  }

  lemma LinesHaveNoBreaks(es: seq<Event>)
    requires forall k | 0 <= k < |es| :: OneLine(es[k])
    ensures NoBreaks(EventLines(es))
  {
    hide EventLine;
    forall k | 0 <= k < |es| ensures Lacks(EventLine(es[k]), '\n') {
      assert OneLine(es[k]);
      LineLacks(es[k]);
    }
  }

  lemma FileSplits(header: seq<string>, texts: seq<string>)
    requires header != [] && NoBreaks(header) && NoBreaks(texts)
    ensures Split(Join(header, "\n") + "\n" + (Join(texts, "\n") + "\n"), "\n") == header + Body(texts)
  {
    hide NoBreaks, Split, Join;
    BodyJoins(texts);
    BodyNoBreaks(texts);
    JoinConcat(header, Body(texts), "\n");
    NoBreaksConcat(header, Body(texts));
    LinesCut(header + Body(texts));
    JoinSplit(header + Body(texts), "\n");
  }

  lemma BodyNoBreaks(texts: seq<string>)
    requires NoBreaks(texts)
    ensures NoBreaks(Body(texts)) && Body(texts) != []
  {
  }

  lemma BodyJoins(texts: seq<string>)
    ensures Join(Body(texts), "\n") == Join(texts, "\n") + "\n"
  {
    var body := if texts == [] then [""] else texts;
    JoinConcat(body, [""], "\n");
    assert Join(body, "\n") + "\n" + "" == Join(body, "\n") + "\n";
  }
}
