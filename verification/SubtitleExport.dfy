/** The SRT and VTT printers of subtitle-export.ts, the ASS stamp of
    ass-subtitle-builder.ts, and readers that get everything back. */
module SubtitleExport {
  import opened JsText
  import opened CaptionCatalog

  // ----- time stamps -----

  function Padded(n: nat, width: nat): (s: string)
    ensures AllDigits(s) && Number(Digits(s)) == n && |s| >= width && s != ""
  {
    PadKeepsNumber(NatText(n), width);
    PadStart(NatText(n), width)
  }

  lemma {:induction false} PadKeepsNumber(s: string, width: nat)
    requires AllDigits(s)
    ensures Number(Digits(PadStart(s, width))) == Number(Digits(s))
    decreases width - |s|
  {
    if |s| < width {
      PadKeepsNumber("0" + s, width);
      LeadingZero(Digits(s));
      assert Digits("0" + s) == [0] + Digits(s);
    }
  }

  lemma {:induction false} LeadingZero(ds: seq<Digit>)
    ensures Number([0] + ds) == Number(ds)
  {
    if ds == [] {
      assert ([0] + ds)[..0] == [];
    } else {
      LeadingZero(ds[..|ds| - 1]);
      assert ([0] + ds)[..|ds|] == [0] + ds[..|ds| - 1];
    }
  }

  /** Whole, non-negative milliseconds, as both printers round them. */
  function Millis(ms: real): nat { Max(0, Round(ms)) }

  function SrtTime(ms: real): string { SrtStamp(Millis(ms)) }

  function SrtStamp(totalMs: nat): string {
    var totalSec := totalMs / 1000;
    var totalMin := totalSec / 60;
    Padded(totalMin / 60, 2) + ":" + (Padded(totalMin % 60, 2) + ":" + (Padded(totalSec % 60, 2)
      + "," + Padded(totalMs % 1000, 3)))
  }

  /** `replace` with a character pattern: the first one only. */
  function ReplaceFirst(s: string, what: char, with: char): string {
    if s == "" then ""
    else if s[0] == what then [with] + s[1..]
    else [s[0]] + ReplaceFirst(s[1..], what, with)
  }

  function VttTime(ms: real): string { ReplaceFirst(SrtTime(ms), ',', '.') }

  function Centis(ms: real): nat { Max(0, Round(ms / 10.0)) }

  function AssTime(ms: real): string { AssStamp(Centis(ms)) }

  function AssStamp(totalCs: nat): string {
    var totalSec := totalCs / 100;
    var totalMin := totalSec / 60;
    NatText(totalMin / 60) + ":" + (Padded(totalMin % 60, 2) + ":" + (Padded(totalSec % 60, 2)
      + "." + Padded(totalCs % 100, 2)))
  }

  // ----- reading a stamp -----

  predicate Numeral(s: string) { s != "" && AllDigits(s) }

  /** Reads seconds and a fraction after `mark`, in units of 1/`unit` s. */
  function ReadSeconds(s: string, mark: char, unit: nat): Option<nat> {
    var parts := Split(s, [mark]);
    if |parts| == 2 && Numeral(parts[0]) && Numeral(parts[1])
    then Some(Number(Digits(parts[0])) * unit + Number(Digits(parts[1])))
    else None
  }

  /** Reads `h:m:s` with a fraction. */
  function ReadStamp(s: string, mark: char, unit: nat): Option<nat> {
    var parts := Split(s, ":");
    if |parts| == 3 && Numeral(parts[0]) && Numeral(parts[1]) && ReadSeconds(parts[2], mark, unit).Some?
    then Some((Number(Digits(parts[0])) * 60 + Number(Digits(parts[1]))) * 60 * unit
              + ReadSeconds(parts[2], mark, unit).value)
    else None
  }

  lemma SplitPair(a: string, b: string, sep: string)
    requires sep != "" && Lacks(a, sep[0]) && Lacks(b, sep[0])
    ensures Split(a + sep + b, sep) == [a, b]
  {
    LacksFind(a, sep);
    LacksFind(b, sep);
    var parts := [a, b];
    assert parts[1..] == [b];
    JoinSplit(parts, sep);
  }

  lemma SplitTriple(a: string, b: string, d: string, sep: string)
    requires sep != "" && Lacks(a, sep[0]) && Lacks(b, sep[0]) && Lacks(d, sep[0])
    ensures Split(a + sep + (b + sep + d), sep) == [a, b, d]
  {
    LacksFind(a, sep);
    LacksFind(b, sep);
    LacksFind(d, sep);
    var parts := [a, b, d];
    assert parts[1..] == [b, d] && [b, d][1..] == [d];
    assert Join([b, d], sep) == b + sep + d;
    assert Join(parts, sep) == a + sep + (b + sep + d);
    JoinSplit(parts, sep);
  }

  lemma DigitsLack(s: string, c: char)
    requires AllDigits(s) && !IsDigit(c)
    ensures Lacks(s, c)
  {
  }

  lemma ReadSecondsBack(sec: string, mark: char, f: string, unit: nat)
    requires Numeral(sec) && Numeral(f) && !IsDigit(mark)
    ensures ReadSeconds(sec + [mark] + f, mark, unit)
         == Some(Number(Digits(sec)) * unit + Number(Digits(f)))
  {
    DigitsLack(sec, mark);
    DigitsLack(f, mark);
    SplitPair(sec, f, [mark]);
  }

  lemma ReadBack(h: string, m: string, sec: string, mark: char, f: string, unit: nat)
    requires Numeral(h) && Numeral(m) && Numeral(sec) && Numeral(f)
    requires !IsDigit(mark) && mark != ':'
    ensures ReadStamp(h + ":" + (m + ":" + (sec + [mark] + f)), mark, unit)
         == Some((Number(Digits(h)) * 60 + Number(Digits(m))) * 60 * unit
                 + (Number(Digits(sec)) * unit + Number(Digits(f))))
  {
    var tail := sec + [mark] + f;
    assert Lacks(h, ':') && Lacks(m, ':') && Lacks(tail, ':') by {
      DigitsLack(h, ':');
      DigitsLack(m, ':');
      TailLacks(sec, mark, f, ':');
    }
    ReadSecondsBack(sec, mark, f, unit);
    SplitTriple(h, m, tail, ":");
    ReadParts(h + ":" + (m + ":" + tail), h, m, tail, mark, unit);
  }

  lemma TailLacks(sec: string, mark: char, f: string, c: char)
    requires AllDigits(sec) && AllDigits(f) && !IsDigit(c) && mark != c
    ensures Lacks(sec + [mark] + f, c)
  {
  }

  lemma ReadParts(s: string, h: string, m: string, tail: string, mark: char, unit: nat)
    requires Split(s, ":") == [h, m, tail]
    requires Numeral(h) && Numeral(m) && ReadSeconds(tail, mark, unit).Some?
    ensures ReadStamp(s, mark, unit)
         == Some((Number(Digits(h)) * 60 + Number(Digits(m))) * 60 * unit + ReadSeconds(tail, mark, unit).value)
  {
  }

  /** Hours, minutes, seconds and the fraction make up the whole time again. */
  lemma Clock(t: nat, unit: nat)
    requires unit > 0
    ensures (t / unit / 60 / 60 * 60 + t / unit / 60 % 60) * 60 * unit
          + (t / unit % 60 * unit + t % unit) == t
  {
    var minutes := t / unit / 60;
    assert minutes / 60 * 60 + minutes % 60 == minutes;
    var sec := t / unit;
    assert minutes * 60 + sec % 60 == sec;
    Euclid(t, unit);
    assert minutes * 60 * unit + sec % 60 * unit == (minutes * 60 + sec % 60) * unit;
  }

  lemma Euclid(t: nat, unit: nat)
    requires unit > 0
    ensures t / unit * unit + t % unit == t
  {
  }

  lemma SrtTimeReadBack(ms: real)
    ensures ReadStamp(SrtTime(ms), ',', 1000) == Some(Millis(ms))
    ensures ms >= 0.0 ==> -0.5 <= ms - Millis(ms) as real < 0.5
    ensures ms < 0.0 ==> Millis(ms) == 0
  {
    SrtStampReadBack(Millis(ms));
    NearestMillis(ms);
  }

  lemma NearestMillis(ms: real)
    ensures ms >= 0.0 ==> -0.5 <= ms - Millis(ms) as real < 0.5
    ensures ms < 0.0 ==> Millis(ms) == 0
  {
  }

  lemma SrtStampReadBack(t: nat)
    ensures ReadStamp(SrtStamp(t), ',', 1000) == Some(t)
  {
    hide ReadStamp, NatText, PadStart;
    ReadBack(Padded(t / 1000 / 60 / 60, 2), Padded(t / 1000 / 60 % 60, 2), Padded(t / 1000 % 60, 2), ',',
             Padded(t % 1000, 3), 1000);
    Clock(t, 1000);
  }

  /** An ASS stamp reads back as the time to the nearest hundredth. */
  lemma AssTimeReadBack(ms: real)
    ensures ReadStamp(AssTime(ms), '.', 100) == Some(Centis(ms))
    ensures ms >= 0.0 ==> -5.0 <= ms - 10.0 * Centis(ms) as real < 5.0
    ensures ms < 0.0 ==> Centis(ms) == 0
  {
    AssStampReadBack(Centis(ms));
    NearestCentis(ms);
  }

  lemma NearestCentis(ms: real)
    ensures ms >= 0.0 ==> -5.0 <= ms - 10.0 * Centis(ms) as real < 5.0
    ensures ms < 0.0 ==> Centis(ms) == 0
  {
  }

  lemma AssStampReadBack(t: nat)
    ensures ReadStamp(AssStamp(t), '.', 100) == Some(t)
  {
    hide ReadStamp, PadStart;
    ReadBack(NatText(t / 100 / 60 / 60), Padded(t / 100 / 60 % 60, 2), Padded(t / 100 % 60, 2), '.',
             Padded(t % 100, 2), 100);
    Clock(t, 100);
  }

  lemma {:induction false} ReplacePast(a: string, rest: string, what: char, with: char)
    requires Lacks(a, what)
    ensures ReplaceFirst(a + rest, what, with) == a + ReplaceFirst(rest, what, with)
  {
    if a != "" {
      hide ReplaceFirst;
      ReplacePast(a[1..], rest, what, with);
      assert a + rest == [a[0]] + (a[1..] + rest);
      ReplaceLater(a[0], a[1..] + rest, what, with);
      assert a == [a[0]] + a[1..];
    } else {
      assert a + rest == rest;
    }
  }

  lemma ReplaceLater(c: char, rest: string, what: char, with: char)
    requires c != what
    ensures ReplaceFirst([c] + rest, what, with) == [c] + ReplaceFirst(rest, what, with)
  {
    assert ([c] + rest)[1..] == rest;
  }

  lemma VttTimeReadBack(ms: real)
    ensures ReadStamp(VttTime(ms), '.', 1000) == Some(Millis(ms))
  {
    VttStampReadBack(Millis(ms));
  }

  lemma VttStampReadBack(t: nat)
    ensures ReadStamp(ReplaceFirst(SrtStamp(t), ',', '.'), '.', 1000) == Some(t)
  {
    hide ReadStamp, NatText, PadStart, ReplaceFirst;
    var h, m, sec, f := Padded(t / 1000 / 60 / 60, 2), Padded(t / 1000 / 60 % 60, 2), Padded(t / 1000 % 60, 2), Padded(t % 1000, 3);
    VttShape(h, m, sec, f);
    ReadBack(h, m, sec, '.', f, 1000);
    Clock(t, 1000);
  }

  lemma VttShape(h: string, m: string, sec: string, f: string)
    requires AllDigits(h) && AllDigits(m) && AllDigits(sec)
    ensures ReplaceFirst(h + ":" + (m + ":" + (sec + "," + f)), ',', '.') == h + ":" + (m + ":" + (sec + "." + f))
  {
    ReplacePast(h + ":", m + ":" + (sec + "," + f), ',', '.');
    ReplacePast(m + ":", sec + "," + f, ',', '.');
    ReplaceMark(sec, f);
  }

  lemma ReplaceMark(sec: string, f: string)
    requires AllDigits(sec)
    ensures ReplaceFirst(sec + "," + f, ',', '.') == sec + "." + f
  {
    ReplacePast(sec, "," + f, ',', '.');
    assert ("," + f)[1..] == f;
    assert sec + "," + f == sec + ("," + f);
    assert sec + "." + f == sec + ("." + f);
  }

  // ----- printing and reading whole files -----

  function Arrow(start: string, end: string): string { start + " --> " + end }

  /** What is printed for one segment: a number line in SRT only, the time line, the text. */
  datatype Entry = Entry(number: Option<nat>, line: string, text: string)

  function EntryOf(number: Option<nat>, seg: CaptionSegment): Entry {
    match number
    case Some(n) => Entry(number, Arrow(SrtTime(seg.startMs), SrtTime(seg.endMs)), seg.text)
    case None => Entry(number, Arrow(VttTime(seg.startMs), VttTime(seg.endMs)), seg.text)
  }

  /** SRT numbers its cues from 1; VTT does not number them. */
  function NumberOf(numbered: bool, i: nat): Option<nat> { if numbered then Some(i + 1) else None }

  function EntriesOf(segs: seq<CaptionSegment>, numbered: bool): seq<Entry> {
    seq(|segs|, i requires 0 <= i < |segs| => EntryOf(NumberOf(numbered, i), segs[i]))
  }

  function Block(e: Entry): string {
    match e.number
    case Some(n) => NatText(n) + "\n" + (e.line + "\n" + (e.text + "\n"))
    case None => e.line + "\n" + (e.text + "\n")
  }

  function Blocks(es: seq<Entry>): seq<string> {
    if es == [] then [] else [Block(es[0])] + Blocks(es[1..])
  }

  function BuildSrt(segs: seq<CaptionSegment>): string { Join(Blocks(EntriesOf(segs, true)), "\n") }

  function BuildVtt(segs: seq<CaptionSegment>): string { "WEBVTT\n\n" + Join(Blocks(EntriesOf(segs, false)), "\n") }

  /** Times in milliseconds; VTT cues carry no number. */
  datatype Cue = Cue(number: Option<nat>, start: nat, end: nat, text: string)

  function ReadTimes(line: string, mark: char): Option<(nat, nat)> {
    var parts := Split(line, " --> ");
    if |parts| == 2 && ReadStamp(parts[0], mark, 1000).Some? && ReadStamp(parts[1], mark, 1000).Some?
    then Some((ReadStamp(parts[0], mark, 1000).value, ReadStamp(parts[1], mark, 1000).value))
    else None
  }

  /** A block: a number line when `numbered`, the time line, then text lines. */
  function ReadBlock(block: seq<string>, numbered: bool, mark: char): Option<Cue> {
    var first := if numbered then 1 else 0;
    if |block| <= first || (numbered && !Numeral(block[0])) then None
    else match ReadTimes(block[first], mark)
      case None => None
      case Some((start, end)) =>
        var number := if numbered then Some(Number(Digits(block[0]))) else None;
        Some(Cue(number, start, end, Join(block[first + 1..], "\n")))
  }

  function BlockEnd(lines: seq<string>): (n: nat)
    ensures n <= |lines|
    ensures lines != [] && lines[0] != "" ==> n > 0
  {
    if lines == [] || lines[0] == "" then 0 else 1 + BlockEnd(lines[1..])
  }

  /** Blocks are runs of non-empty lines. */
  function ReadCues(lines: seq<string>, numbered: bool, mark: char): Option<seq<Cue>>
    decreases |lines|
  {
    if lines == [] then Some([])
    else if lines[0] == "" then ReadCues(lines[1..], numbered, mark)
    else
      var n := BlockEnd(lines);
      var cue, rest := ReadBlock(lines[..n], numbered, mark), ReadCues(lines[n..], numbered, mark);
      if cue.Some? && rest.Some? then Some([cue.value] + rest.value) else None
  }

  function ReadSrt(text: string): Option<seq<Cue>> { ReadCues(Split(text, "\n"), true, ',') }

  function ReadVtt(text: string): Option<seq<Cue>> {
    var lines := Split(text, "\n");
    if lines[0] == "WEBVTT" then ReadCues(lines[1..], false, '.') else None
  }

  // ----- the round trip -----

  /** Texts that a format with blank lines between blocks can carry: empty, or
      without an empty line. Every text without a line break is one of them. */
  predicate Carried(text: string) {
    text == "" || Filled(Split(text, "\n"))
  }

  lemma OneLineIsCarried(text: string)
    requires Lacks(text, '\n')
    ensures Carried(text)
  {
    LacksFind(text, "\n");
  }

  /** The cues a file stands for. */
  function CuesOf(segs: seq<CaptionSegment>, numbered: bool): seq<Cue> {
    seq(|segs|, i requires 0 <= i < |segs| => CueOf(NumberOf(numbered, i), segs[i]))
  }

  function CueOf(number: Option<nat>, seg: CaptionSegment): Cue {
    Cue(number, Millis(seg.startMs), Millis(seg.endMs), seg.text)
  }

  function HeadLines(e: Entry): seq<string> {
    match e.number
    case Some(n) => [NatText(n), e.line]
    case None => [e.line]
  }

  function BlockLines(e: Entry): seq<string> { HeadLines(e) + (Split(e.text, "\n") + [""]) }

  /** The lines of a file, block after block, each block closed by an empty line. */
  function LinesOf(es: seq<Entry>): seq<string> {
    if es == [] then [] else BlockLines(es[0]) + LinesOf(es[1..])
  }

  ghost predicate NoBreaks(lines: seq<string>) {
    forall i | 0 <= i < |lines| :: Lacks(lines[i], '\n')
  }

  lemma {:induction false} LinesCut(lines: seq<string>)
    requires lines != [] && NoBreaks(lines)
    ensures Cut(lines, "\n")
  {
    LacksFind(lines[0], "\n");
    if |lines| > 1 { LinesCut(lines[1..]); }
  }

  lemma BreakAt(s: string, i: nat)
    requires i < |s|
    ensures At(s, "\n", i) <==> s[i] == '\n'
  {
    assert s[i..i + 1] == [s[i]];
  }

  lemma FindNone(s: string)
    requires Find(s, "\n") == None
    ensures Lacks(s, '\n')
  {
    FindMeans(s, "\n");
    forall i | 0 <= i < |s| ensures s[i] != '\n' { BreakAt(s, i); }
  }

  lemma FindEnd(s: string)
    requires Find(s + "\n", "\n") == Some(|s|)
    ensures Lacks(s, '\n')
  {
    var t := s + "\n";
    FindMeans(t, "\n");
    forall i | 0 <= i < |s| ensures s[i] != '\n' {
      BreakAt(t, i);
      assert t[i] == s[i];
    }
  }

  lemma {:induction false} CutLines(lines: seq<string>)
    requires Cut(lines, "\n")
    ensures NoBreaks(lines)
  {
    if |lines| == 1 {
      FindNone(lines[0]);
    } else {
      FindEnd(lines[0]);
      CutLines(lines[1..]);
      assert forall i | 1 <= i < |lines| :: lines[i] == lines[1..][i - 1];
    }
  }

  lemma BlockJoin(e: Entry)
    ensures Join(BlockLines(e), "\n") == Block(e)
  {
    TextJoin(e.text);
    JoinConcat(HeadLines(e), Split(e.text, "\n") + [""], "\n");
    if e.number.Some? { assert HeadLines(e)[1..] == [e.line]; }
  }

  lemma TextJoin(text: string)
    ensures Join(Split(text, "\n") + [""], "\n") == text + "\n"
  {
    SplitJoin(text, "\n");
    JoinConcat(Split(text, "\n"), [""], "\n");
    assert text + "\n" + "" == text + "\n";
  }

  lemma {:induction false} BlocksJoin(es: seq<Entry>)
    requires es != []
    ensures LinesOf(es) != []
    ensures Join(Blocks(es), "\n") == Join(LinesOf(es), "\n")
  {
    BlockJoin(es[0]);
    var rest := es[1..];
    if rest == [] {
      assert LinesOf(es) == BlockLines(es[0]);
    } else {
      BlocksJoin(rest);
      JoinConcat(BlockLines(es[0]), LinesOf(rest), "\n");
      JoinConcat([Block(es[0])], Blocks(rest), "\n");
    }
  }

  predicate NoMarks(s: string) { Lacks(s, '\n') && Lacks(s, ' ') }

  lemma StampMarks(h: string, m: string, sec: string, mark: char, f: string)
    requires AllDigits(h) && AllDigits(m) && AllDigits(sec) && AllDigits(f) && mark != '\n' && mark != ' '
    ensures NoMarks(h + ":" + (m + ":" + (sec + [mark] + f)))
  {
    var tail := sec + [mark] + f;
    assert NoMarks(tail);
    assert NoMarks(m + ":" + tail);
  }

  lemma SrtMarks(ms: real)
    ensures NoMarks(SrtTime(ms))
  {
    var t := Millis(ms);
    StampMarks(Padded(t / 1000 / 60 / 60, 2), Padded(t / 1000 / 60 % 60, 2), Padded(t / 1000 % 60, 2), ',', Padded(t % 1000, 3));
  }

  lemma VttMarks(ms: real)
    ensures NoMarks(VttTime(ms))
  {
    var t := Millis(ms);
    var h, m, sec, f := Padded(t / 1000 / 60 / 60, 2), Padded(t / 1000 / 60 % 60, 2), Padded(t / 1000 % 60, 2), Padded(t % 1000, 3);
    VttShape(h, m, sec, f);
    StampMarks(h, m, sec, '.', f);
  }

  lemma TimesReadBack(start: string, end: string, mark: char)
    requires NoMarks(start) && NoMarks(end)
    requires ReadStamp(start, mark, 1000).Some? && ReadStamp(end, mark, 1000).Some?
    ensures ReadTimes(Arrow(start, end), mark)
         == Some((ReadStamp(start, mark, 1000).value, ReadStamp(end, mark, 1000).value))
    ensures Lacks(Arrow(start, end), '\n') && Arrow(start, end) != ""
  {
    SplitPair(start, end, " --> ");
  }

  function Mark(number: Option<nat>): char { if number.Some? then ',' else '.' }

  lemma SrtArrow(a: real, b: real)
    ensures var line := Arrow(SrtTime(a), SrtTime(b));
      ReadTimes(line, ',') == Some((Millis(a), Millis(b))) && Lacks(line, '\n') && line != ""
  {
    SrtMarks(a);
    SrtMarks(b);
    SrtTimeReadBack(a);
    SrtTimeReadBack(b);
    TimesReadBack(SrtTime(a), SrtTime(b), ',');
  }

  lemma VttArrow(a: real, b: real)
    ensures var line := Arrow(VttTime(a), VttTime(b));
      ReadTimes(line, '.') == Some((Millis(a), Millis(b))) && Lacks(line, '\n') && line != ""
  {
    VttMarks(a);
    VttMarks(b);
    VttTimeReadBack(a);
    VttTimeReadBack(b);
    TimesReadBack(VttTime(a), VttTime(b), '.');
  }

  /** An entry that a reader takes for the cue `c`. */
  predicate Says(e: Entry, c: Cue) {
    && e.number == c.number && e.text == c.text
    && ReadTimes(e.line, Mark(e.number)) == Some((c.start, c.end))
    && Lacks(e.line, '\n') && e.line != ""
  }

  lemma EntrySays(number: Option<nat>, seg: CaptionSegment)
    ensures Says(EntryOf(number, seg), CueOf(number, seg))
  {
    match number
    case Some(n) => SrtArrow(seg.startMs, seg.endMs);
    case None => VttArrow(seg.startMs, seg.endMs);
  }

  ghost predicate AllSay(es: seq<Entry>, cs: seq<Cue>) {
    |es| == |cs| && forall i | 0 <= i < |es| :: Says(es[i], cs[i])
  }

  lemma EntriesSay(segs: seq<CaptionSegment>, numbered: bool)
    ensures AllSay(EntriesOf(segs, numbered), CuesOf(segs, numbered))
  {
    forall i | 0 <= i < |segs| ensures Says(EntriesOf(segs, numbered)[i], CuesOf(segs, numbered)[i]) {
      EntrySays(NumberOf(numbered, i), segs[i]);
    }
  }

  predicate Filled(lines: seq<string>) { forall i | 0 <= i < |lines| :: lines[i] != "" }

  /** The text lines a reader sees before the closing empty line. */
  function TextLines(text: string): seq<string> { if text == "" then [] else Split(text, "\n") }

  lemma BlockReadBack(e: Entry, c: Cue)
    requires Says(e, c)
    ensures ReadBlock(HeadLines(e) + TextLines(e.text), e.number.Some?, Mark(e.number)) == Some(c)
    ensures Filled(HeadLines(e))
  {
    var head, lines := HeadLines(e), TextLines(e.text);
    SplitJoin(e.text, "\n");
    var block := head + lines;
    assert block[|head|..] == lines;
    assert block[|head| - 1] == e.line;
    assert Join(lines, "\n") == e.text;
  }

  lemma {:induction false} BlockEndAt(block: seq<string>, rest: seq<string>)
    requires Filled(block)
    requires rest != [] && rest[0] == ""
    ensures BlockEnd(block + rest) == |block|
  {
    if block == [] {
      assert block + rest == rest;
    } else {
      BlockEndAt(block[1..], rest);
      assert (block + rest)[1..] == block[1..] + rest;
    }
  }

  lemma ReadOneBlock(block: seq<string>, rest: seq<string>, numbered: bool, mark: char)
    requires block != [] && Filled(block)
    requires ReadBlock(block, numbered, mark).Some? && ReadCues(rest, numbered, mark).Some?
    ensures ReadCues(block + ([""] + rest), numbered, mark)
         == Some([ReadBlock(block, numbered, mark).value] + ReadCues(rest, numbered, mark).value)
  {
    var lines := block + ([""] + rest);
    BlockEndAt(block, [""] + rest);
    assert lines[..|block|] == block && lines[|block|..] == [""] + rest;
    SkipEmpty(rest, numbered, mark);
  }

  /** All entries numbered, or none, and all texts carried. */
  predicate Uniform(es: seq<Entry>, numbered: bool) {
    forall i | 0 <= i < |es| :: es[i].number.Some? == numbered && Carried(es[i].text)
  }

  lemma {:induction false} CuesReadBack(es: seq<Entry>, cs: seq<Cue>, numbered: bool, mark: char)
    requires AllSay(es, cs) && Uniform(es, numbered) && mark == (if numbered then ',' else '.')
    ensures ReadCues(LinesOf(es), numbered, mark) == Some(cs)
    decreases |es|
  {
    hide Says, Carried, ReadBlock, BlockLines, AllSay, Uniform, ReadCues, LinesOf;
    if es == [] {
      NoCues(es, cs, numbered, mark);
    } else {
      Rest(es, cs, numbered);
      var rest := LinesOf(es[1..]);
      CuesReadBack(es[1..], cs[1..], numbered, mark);
      FirstEntry(es[0], cs[0], rest);
      LinesOfCons(es);
      HeadAndTail(cs);
    }
  }

  lemma NoCues(es: seq<Entry>, cs: seq<Cue>, numbered: bool, mark: char)
    requires AllSay(es, cs) && es == []
    ensures ReadCues(LinesOf(es), numbered, mark) == Some(cs)
  {
  }

  lemma HeadAndTail(cs: seq<Cue>)
    requires cs != []
    ensures [cs[0]] + cs[1..] == cs
  {
  }

  lemma LinesOfCons(es: seq<Entry>)
    requires es != []
    ensures LinesOf(es) == BlockLines(es[0]) + LinesOf(es[1..])
  {
  }

  lemma Rest(es: seq<Entry>, cs: seq<Cue>, numbered: bool)
    requires AllSay(es, cs) && Uniform(es, numbered) && es != []
    ensures AllSay(es[1..], cs[1..]) && Uniform(es[1..], numbered)
    ensures cs != [] && Says(es[0], cs[0]) && es[0].number.Some? == numbered && Carried(es[0].text)
  {
    forall i | 0 <= i < |es| - 1 ensures es[1..][i] == es[i + 1] && cs[1..][i] == cs[i + 1] {}
  }

  lemma FirstEntry(e: Entry, c: Cue, rest: seq<string>)
    requires Says(e, c) && Carried(e.text)
    requires ReadCues(rest, e.number.Some?, Mark(e.number)).Some?
    ensures ReadCues(BlockLines(e) + rest, e.number.Some?, Mark(e.number))
         == Some([c] + ReadCues(rest, e.number.Some?, Mark(e.number)).value)
  {
    BlockReadBack(e, c);
    FirstBlock(HeadLines(e), e.text, rest, e.number.Some?, Mark(e.number));
  }

  /** Printed text lines and the closing empty line are what the reader calls the
      text and a run of empty lines. */
  lemma ClosingLines(head: seq<string>, text: string, rest: seq<string>) returns (tail: seq<string>)
    requires Carried(text)
    ensures head + (Split(text, "\n") + [""]) + rest == (head + TextLines(text)) + ([""] + tail)
    ensures tail == if text == "" then [""] + rest else rest
    ensures Filled(TextLines(text))
  {
    if text == "" {
      LacksFind("", "\n");
      tail := [""] + rest;
    } else {
      tail := rest;
    }
  }

  lemma SkipEmpty(rest: seq<string>, numbered: bool, mark: char)
    ensures ReadCues([""] + rest, numbered, mark) == ReadCues(rest, numbered, mark)
  {
    assert ([""] + rest)[1..] == rest;
  }

  lemma FirstBlock(head: seq<string>, text: string, rest: seq<string>, numbered: bool, mark: char)
    requires head != [] && Filled(head) && Carried(text)
    requires ReadBlock(head + TextLines(text), numbered, mark).Some?
    requires ReadCues(rest, numbered, mark).Some?
    ensures ReadCues(head + (Split(text, "\n") + [""]) + rest, numbered, mark)
         == Some([ReadBlock(head + TextLines(text), numbered, mark).value] + ReadCues(rest, numbered, mark).value)
  {
    var tail := ClosingLines(head, text, rest);
    SkipEmpty(rest, numbered, mark);
    var block := head + TextLines(text);
    assert Filled(block);
    ReadOneBlock(block, tail, numbered, mark);
  }

  lemma {:induction false} LinesHaveNoBreaks(es: seq<Entry>, cs: seq<Cue>)
    requires AllSay(es, cs)
    ensures NoBreaks(LinesOf(es))
  {
    if es != [] {
      BlockHasNoBreaks(es[0], cs[0]);
      LinesHaveNoBreaks(es[1..], cs[1..]);
      NoBreaksConcat(BlockLines(es[0]), LinesOf(es[1..]));
    }
  }

  lemma NoBreaksConcat(xs: seq<string>, ys: seq<string>)
    requires NoBreaks(xs) && NoBreaks(ys)
    ensures NoBreaks(xs + ys)
  {
  }

  lemma BlockHasNoBreaks(e: Entry, c: Cue)
    requires Says(e, c)
    ensures NoBreaks(BlockLines(e))
  {
    hide NoBreaks, Says, Split, HeadLines;
    var text := Split(e.text, "\n");
    SplitJoin(e.text, "\n");
    CutLines(text);
    EmptyLineHasNoBreaks();
    NoBreaksConcat(text, [""]);
    HeadHasNoBreaks(e, c);
    NoBreaksConcat(HeadLines(e), text + [""]);
  }

  lemma EmptyLineHasNoBreaks()
    ensures NoBreaks([""])
  {
  }

  lemma HeadHasNoBreaks(e: Entry, c: Cue)
    requires Says(e, c)
    ensures NoBreaks(HeadLines(e))
  {
  }

  // ----- what a reader can ever return -----

  lemma {:induction false} BlockIsFilled(lines: seq<string>)
    ensures Filled(lines[..BlockEnd(lines)])
  {
    if lines != [] && lines[0] != "" {
      BlockIsFilled(lines[1..]);
      var n := BlockEnd(lines[1..]);
      assert forall i | 1 <= i < n + 1 :: lines[i] == lines[1..][..n][i - 1];
    }
  }

  lemma LinesAreCarried(lines: seq<string>)
    requires NoBreaks(lines) && Filled(lines)
    ensures Carried(Join(lines, "\n"))
  {
    if lines != [] {
      LinesCut(lines);
      JoinSplit(lines, "\n");
    }
  }

  lemma BlockIsCarried(block: seq<string>, numbered: bool, mark: char)
    requires NoBreaks(block) && Filled(block) && ReadBlock(block, numbered, mark).Some?
    ensures Carried(ReadBlock(block, numbered, mark).value.text)
  {
    hide Carried, ReadTimes;
    LinesAreCarried(block[if numbered then 2 else 1..]);
  }

  /** Whatever lines it reads, a reader never returns a text with an empty line. */
  lemma {:induction false} CuesAreCarried(lines: seq<string>, numbered: bool, mark: char)
    requires NoBreaks(lines) && ReadCues(lines, numbered, mark).Some?
    ensures forall i | 0 <= i < |ReadCues(lines, numbered, mark).value| ::
      Carried(ReadCues(lines, numbered, mark).value[i].text)
    decreases |lines|
  {
    hide Carried, ReadBlock, Filled;
    if lines != [] {
      if lines[0] == "" {
        CuesAreCarried(lines[1..], numbered, mark);
      } else {
        var n := BlockEnd(lines);
        BlockIsFilled(lines);
        BlockIsCarried(lines[..n], numbered, mark);
        CuesAreCarried(lines[n..], numbered, mark);
      }
    }
  }

  lemma TextLinesHaveNoBreaks(text: string)
    ensures NoBreaks(Split(text, "\n"))
  {
    SplitJoin(text, "\n");
    CutLines(Split(text, "\n"));
  }

  lemma CuesCarryTexts(segs: seq<CaptionSegment>, numbered: bool)
    requires forall i | 0 <= i < |segs| :: Carried(CuesOf(segs, numbered)[i].text)
    ensures forall i | 0 <= i < |segs| :: Carried(segs[i].text)
  {
    hide Carried;
    forall i | 0 <= i < |segs| ensures Carried(segs[i].text) {
      assert CuesOf(segs, numbered)[i].text == segs[i].text;
    }
  }

  /** An SRT file gives back number, times and text of every cue if and only if no text
      has an empty line in it. */
  lemma SrtRoundTrip(segs: seq<CaptionSegment>)
    ensures ReadSrt(BuildSrt(segs)) == Some(CuesOf(segs, true)) <==> forall i | 0 <= i < |segs| :: Carried(segs[i].text)
    ensures forall i | 0 <= i < |segs| ::
      CuesOf(segs, true)[i] == Cue(Some(i + 1), Millis(segs[i].startMs), Millis(segs[i].endMs), segs[i].text)
  {
    hide Carried, CuesOf, BuildSrt, Split, ReadCues;
    CuesAre(segs, true);
    if ReadSrt(BuildSrt(segs)) == Some(CuesOf(segs, true)) {
      TextLinesHaveNoBreaks(BuildSrt(segs));
      CuesAreCarried(Split(BuildSrt(segs), "\n"), true, ',');
      CuesCarryTexts(segs, true);
    } else if forall i | 0 <= i < |segs| :: Carried(segs[i].text) {
      SrtReadBack(segs);
    }
  }

  /** SRT numbers its cues from 1 and WebVTT does not number them. */
  lemma CuesAre(segs: seq<CaptionSegment>, numbered: bool)
    ensures |CuesOf(segs, numbered)| == |segs|
    ensures forall i | 0 <= i < |segs| ::
      CuesOf(segs, numbered)[i]
        == Cue(if numbered then Some(i + 1) else None, Millis(segs[i].startMs), Millis(segs[i].endMs), segs[i].text)
  {
  }

  lemma SrtReadBack(segs: seq<CaptionSegment>)
    requires forall i | 0 <= i < |segs| :: Carried(segs[i].text)
    ensures ReadSrt(BuildSrt(segs)) == Some(CuesOf(segs, true))
  {
    EntriesSay(segs, true);
    SrtFile(EntriesOf(segs, true), CuesOf(segs, true));
  }

  lemma SrtFile(es: seq<Entry>, cs: seq<Cue>)
    requires AllSay(es, cs) && Uniform(es, true)
    ensures ReadSrt(Join(Blocks(es), "\n")) == Some(cs)
  {
    if es == [] {
      LacksFind("", "\n");
      SkipEmpty([], true, ',');
    } else {
      BlocksJoin(es);
      LinesHaveNoBreaks(es, cs);
      LinesCut(LinesOf(es));
      JoinSplit(LinesOf(es), "\n");
      CuesReadBack(es, cs, true, ',');
    }
  }

  /** The same for WebVTT. */
  lemma VttRoundTrip(segs: seq<CaptionSegment>)
    ensures ReadVtt(BuildVtt(segs)) == Some(CuesOf(segs, false)) <==> forall i | 0 <= i < |segs| :: Carried(segs[i].text)
    ensures forall i | 0 <= i < |segs| ::
      CuesOf(segs, false)[i] == Cue(None, Millis(segs[i].startMs), Millis(segs[i].endMs), segs[i].text)
  {
    hide Carried, CuesOf, BuildVtt, Split, ReadCues;
    CuesAre(segs, false);
    if ReadVtt(BuildVtt(segs)) == Some(CuesOf(segs, false)) {
      var lines := Split(BuildVtt(segs), "\n");
      TextLinesHaveNoBreaks(BuildVtt(segs));
      assert NoBreaks(lines[1..]);
      CuesAreCarried(lines[1..], false, '.');
      CuesCarryTexts(segs, false);
    } else if forall i | 0 <= i < |segs| :: Carried(segs[i].text) {
      VttReadBack(segs);
    }
  }

  lemma VttReadBack(segs: seq<CaptionSegment>)
    requires forall i | 0 <= i < |segs| :: Carried(segs[i].text)
    ensures ReadVtt(BuildVtt(segs)) == Some(CuesOf(segs, false))
  {
    EntriesSay(segs, false);
    VttFile(EntriesOf(segs, false), CuesOf(segs, false));
  }

  lemma VttFile(es: seq<Entry>, cs: seq<Cue>)
    requires AllSay(es, cs) && Uniform(es, false)
    ensures ReadVtt("WEBVTT\n\n" + Join(Blocks(es), "\n")) == Some(cs)
  {
    if es == [] {
      VttHeader([""]);
      SkipEmpty([], false, '.');
    } else {
      BlocksJoin(es);
      LinesHaveNoBreaks(es, cs);
      VttHeader(LinesOf(es));
      CuesReadBack(es, cs, false, '.');
    }
  }

  lemma VttHeader(body: seq<string>)
    requires body != [] && NoBreaks(body)
    ensures ReadVtt("WEBVTT\n\n" + Join(body, "\n")) == ReadCues(body, false, '.')
  {
    hide ReadCues, NoBreaks;
    VttHeaderSplits(body);
    assert (["WEBVTT"] + ([""] + body))[1..] == [""] + body;
    SkipEmpty(body, false, '.');
  }

  lemma VttHeaderSplits(body: seq<string>)
    requires body != [] && NoBreaks(body)
    ensures Split("WEBVTT\n\n" + Join(body, "\n"), "\n") == ["WEBVTT"] + ([""] + body)
  {
    var lines := ["WEBVTT"] + ([""] + body);
    JoinConcat([""], body, "\n");
    JoinConcat(["WEBVTT"], [""] + body, "\n");
    assert "" + "\n" + Join(body, "\n") == "\n" + Join(body, "\n");
    assert "WEBVTT" + "\n" + ("\n" + Join(body, "\n")) == "WEBVTT\n\n" + Join(body, "\n");
    LinesCut(lines);
    JoinSplit(lines, "\n");
  }

  /** Rounding to hundredths keeps the order of times. */
  lemma AssTimesInOrder(a: real, b: real)
    requires a <= b
    ensures Centis(a) <= Centis(b)
  {
  }
}
