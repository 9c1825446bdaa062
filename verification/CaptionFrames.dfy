/** The frame timeline of canvas-caption-renderer.ts: a frame for every state of
    the caption, blank frames between, drawn here as data instead of pixels. */
module CaptionFrames {
  import opened JsText
  import opened CaptionCatalog

  /** What one frame shows: nothing, a text without highlight, or lines of words with
      the word at `slot` of line `lit` highlighted. */
  datatype Content = Blank | Plain(text: string) | Words(lines: seq<seq<string>>, lit: nat, slot: nat)

  datatype Frame = Frame(content: Content, startMs: real, endMs: real) {
    predicate Covers(t: real) { startMs <= t < endMs }
  }

  // ----- lines of words -----

  function LinesFrom(words: seq<string>, i: nat, wordsPerLine: nat): seq<seq<string>>
    requires wordsPerLine > 0
    decreases |words| - i
  {
    if i >= |words| then []
    else [words[i..Min(i + wordsPerLine, |words|)]] + LinesFrom(words, i + wordsPerLine, wordsPerLine)
  }

  function Lines(words: seq<string>, wordsPerLine: nat): seq<seq<string>>
    requires wordsPerLine > 0
  {
    LinesFrom(words, 0, wordsPerLine)
  }

  method SplitLines(words: seq<string>, wordsPerLine: nat) returns (lines: seq<seq<string>>)
    requires wordsPerLine > 0
    ensures lines == Lines(words, wordsPerLine)
  {
    lines := [];
    var i := 0;
    while i < |words|
      invariant lines + LinesFrom(words, i, wordsPerLine) == Lines(words, wordsPerLine)
    {
      lines := lines + [words[i..Min(i + wordsPerLine, |words|)]];
      i := i + wordsPerLine;
    }
  }

  lemma {:induction false} WordInLineFrom(words: seq<string>, i: nat, wordsPerLine: nat, k: nat)
    requires wordsPerLine > 0 && i + k < |words|
    ensures var lines := LinesFrom(words, i, wordsPerLine);
      k / wordsPerLine < |lines| && k % wordsPerLine < |lines[k / wordsPerLine]|
      && lines[k / wordsPerLine][k % wordsPerLine] == words[i + k]
    decreases |words| - i
  {
    if k >= wordsPerLine {
      WordInLineFrom(words, i + wordsPerLine, wordsPerLine, k - wordsPerLine);
      DropOneLine(k, wordsPerLine);
      var rest := LinesFrom(words, i + wordsPerLine, wordsPerLine);
      var q, r := (k - wordsPerLine) / wordsPerLine, (k - wordsPerLine) % wordsPerLine;
      assert LinesFrom(words, i, wordsPerLine)[q + 1] == rest[q];
      assert rest[q][r] == words[i + k];
    } else {
      SmallDivision(k, wordsPerLine);
    }
  }

  lemma DropOneLine(k: nat, n: nat)
    requires 0 < n <= k
    ensures k / n == (k - n) / n + 1 && k % n == (k - n) % n
  {
    assert k == n * (k / n) + k % n;
    assert k - n == n * (k / n - 1) + k % n;
    DivisionIs(k - n, n, k / n - 1, k % n);
  }

  lemma SmallDivision(k: nat, n: nat)
    requires k < n
    ensures k / n == 0 && k % n == k
  {
  }

  lemma DivisionIs(a: int, n: int, q: int, r: int)
    requires n > 0 && a == n * q + r && 0 <= r < n
    ensures a / n == q && a % n == r
  {
    var d := a / n - q;
    assert n * d == r - a % n by { assert n * d == n * (a / n) - n * q; }
    if d != 0 { FarMultiple(n, d); }
  }

  lemma FarMultiple(n: int, d: int)
    requires n > 0 && d != 0
    ensures n * d >= n || n * d <= -n
  {
    if d > 0 { assert n * (d - 1) >= 0; } else { assert n * (-d - 1) >= 0; }
  }

  /** Word `k` of a segment stands at slot `k % wordsPerLine` of line `k / wordsPerLine`. */
  lemma WordInLine(words: seq<string>, wordsPerLine: nat, k: nat)
    requires wordsPerLine > 0 && k < |words|
    ensures var lines := Lines(words, wordsPerLine);
      k / wordsPerLine < |lines| && k % wordsPerLine < |lines[k / wordsPerLine]|
      && lines[k / wordsPerLine][k % wordsPerLine] == words[k]
  {
    WordInLineFrom(words, 0, wordsPerLine, k);
  }

  // ----- the timeline -----

  /** The frames so far and the time they reach. */
  datatype Reel = Reel(frames: seq<Frame>, cursor: real) {
    /** `pushGapIfNeeded`. */
    function Gap(until: real): Reel {
      if until > cursor then Reel(frames + [Frame(Blank, cursor, until)], until) else this
    }

    function Show(f: Frame): Reel { Reel(frames + [f], f.endMs) }
  }

  function Lit(seg: CaptionSegment, wordsPerLine: nat, i: nat): Content
    requires wordsPerLine > 0
  {
    Words(Lines(Trimmed(seg.words), wordsPerLine), i / wordsPerLine, i % wordsPerLine)
  }

  function ShowIntervals(r: Reel, seg: CaptionSegment, wordsPerLine: nat, ivs: seq<Interval>): Reel
    requires wordsPerLine > 0
  {
    if ivs == [] then r else
    var before, iv := ShowIntervals(r, seg, wordsPerLine, ivs[..|ivs| - 1]), ivs[|ivs| - 1];
    before.Gap(iv.startMs).Show(Frame(Lit(seg, wordsPerLine, iv.wordIndex), iv.startMs, iv.endMs))
  }

  function ShowSegment(r: Reel, seg: CaptionSegment, wordsPerLine: nat): Reel
    requires wordsPerLine > 0
  {
    var s := r.Gap(seg.startMs);
    if seg.words == [] then s.Show(Frame(Plain(Trim(seg.text)), seg.startMs, seg.endMs))
    else ShowIntervals(s, seg, wordsPerLine, Intervals(seg)).Gap(seg.endMs)
  }

  function ShowAll(segs: seq<CaptionSegment>, wordsPerLine: nat): Reel
    requires wordsPerLine > 0
  {
    if segs == [] then Reel([], 0.0)
    else ShowSegment(ShowAll(segs[..|segs| - 1], wordsPerLine), segs[|segs| - 1], wordsPerLine)
  }

  function PerLine(wordsPerLine: int): nat { if wordsPerLine > 0 then wordsPerLine else 4 }

  function Frames(segs: seq<CaptionSegment>, wordsPerLine: int, durationMs: real): seq<Frame> {
    ShowAll(segs, PerLine(wordsPerLine)).Gap(durationMs).frames
  }

  method RenderSegment(r: Reel, seg: CaptionSegment, wordsPerLine: nat) returns (frames: seq<Frame>, cursorMs: real)
    requires wordsPerLine > 0
    ensures Reel(frames, cursorMs) == ShowSegment(r, seg, wordsPerLine)
  {
    frames, cursorMs := r.frames, r.cursor;
    var words := Trimmed(seg.words);
    if seg.startMs > cursorMs {
      frames, cursorMs := frames + [Frame(Blank, cursorMs, seg.startMs)], seg.startMs;
    }
    if |words| == 0 {
      frames := frames + [Frame(Plain(Trim(seg.text)), seg.startMs, seg.endMs)];
      cursorMs := seg.endMs;
      return;
    }
    ghost var start := Reel(frames, cursorMs);
    var lines := SplitLines(words, wordsPerLine);
    var intervals := ComputeWordHighlightIntervals(seg);
    for k := 0 to |intervals|
      invariant Reel(frames, cursorMs) == ShowIntervals(start, seg, wordsPerLine, intervals[..k])
    {
      var iv := intervals[k];
      assert intervals[..k + 1][..k] == intervals[..k];
      if iv.startMs > cursorMs {
        frames, cursorMs := frames + [Frame(Blank, cursorMs, iv.startMs)], iv.startMs;
      }
      frames := frames + [Frame(Words(lines, iv.wordIndex / wordsPerLine, iv.wordIndex % wordsPerLine), iv.startMs, iv.endMs)];
      cursorMs := iv.endMs;
    }
    assert intervals[..|intervals|] == intervals;
    if seg.endMs > cursorMs {
      frames, cursorMs := frames + [Frame(Blank, cursorMs, seg.endMs)], seg.endMs;
    }
  }

  method RenderCaptionFrames(segs: seq<CaptionSegment>, wordsPerLine: int, durationMs: real) returns (frames: seq<Frame>)
    ensures frames == Frames(segs, wordsPerLine, durationMs)
  {
    var perLine := if wordsPerLine > 0 then wordsPerLine else 4;
    frames := [];
    var cursorMs := 0.0;
    for j := 0 to |segs|
      invariant Reel(frames, cursorMs) == ShowAll(segs[..j], perLine)
    {
      assert segs[..j + 1][..j] == segs[..j];
      frames, cursorMs := RenderSegment(Reel(frames, cursorMs), segs[j], perLine);
    }
    assert segs[..|segs|] == segs;
    if durationMs > cursorMs {
      frames := frames + [Frame(Blank, cursorMs, durationMs)];
    }
  }

  // ----- the frames tile the video -----

  /** Each frame begins where the one before it ended, from `a` to `b`. */
  ghost predicate Tiles(frames: seq<Frame>, a: real, b: real) {
    if frames == [] then a == b else
    var last := frames[|frames| - 1];
    last.endMs == b && last.startMs <= b && Tiles(frames[..|frames| - 1], a, last.startMs)
  }

  lemma ShowTiles(frames: seq<Frame>, a: real, f: Frame)
    requires Tiles(frames, a, f.startMs) && f.startMs <= f.endMs
    ensures Tiles(frames + [f], a, f.endMs)
  {
    assert (frames + [f])[..|frames|] == frames;
  }

  lemma GapTiles(r: Reel, until: real)
    requires Tiles(r.frames, 0.0, r.cursor) && r.cursor <= until
    ensures Tiles(r.Gap(until).frames, 0.0, until) && r.Gap(until).cursor == until
  {
    if r.cursor < until { ShowTiles(r.frames, 0.0, Frame(Blank, r.cursor, until)); }
  }

  lemma {:induction false} IntervalsTile(r: Reel, seg: CaptionSegment, wordsPerLine: nat, ivs: seq<Interval>, b: real)
    requires wordsPerLine > 0 && Tiles(r.frames, 0.0, r.cursor) && Chain(ivs, r.cursor, b)
    ensures var s := ShowIntervals(r, seg, wordsPerLine, ivs); Tiles(s.frames, 0.0, b) && s.cursor == b
  {
    if ivs != [] {
      hide Lit;
      var last := ivs[|ivs| - 1];
      IntervalsTile(r, seg, wordsPerLine, ivs[..|ivs| - 1], last.startMs);
      var before := ShowIntervals(r, seg, wordsPerLine, ivs[..|ivs| - 1]);
      ShowTiles(before.frames, 0.0, Frame(Lit(seg, wordsPerLine, last.wordIndex), last.startMs, last.endMs));
    }
  }

  lemma SegmentTiles(r: Reel, seg: CaptionSegment, wordsPerLine: nat)
    requires wordsPerLine > 0 && InRange(seg) && Tiles(r.frames, 0.0, r.cursor) && r.cursor <= seg.startMs
    ensures var s := ShowSegment(r, seg, wordsPerLine); Tiles(s.frames, 0.0, seg.endMs) && s.cursor == seg.endMs
  {
    hide Tiles, Chain, InRange, Intervals;
    GapTiles(r, seg.startMs);
    var s := r.Gap(seg.startMs);
    assert seg.startMs <= seg.endMs by { RangeMeans(seg); }
    if seg.words == [] {
      ShowTiles(s.frames, 0.0, Frame(Plain(Trim(seg.text)), seg.startMs, seg.endMs));
    } else {
      IntervalsChain(seg);
      IntervalsTile(s, seg, wordsPerLine, Intervals(seg), seg.endMs);
    }
  }

  lemma RangeMeans(seg: CaptionSegment)
    requires InRange(seg)
    ensures seg.startMs <= seg.endMs
  {
  }

  lemma OrderedInit(segs: seq<CaptionSegment>, from: real)
    requires InOrder(segs, from) && segs != []
    ensures InOrder(segs[..|segs| - 1], from)
  {
    hide InRange;
    var init := segs[..|segs| - 1];
    forall j | 0 < j < |init| ensures init[j - 1].endMs <= init[j].startMs {}
  }

  /** Where the segments end, from time zero. */
  function EndOf(segs: seq<CaptionSegment>): real { if segs == [] then 0.0 else segs[|segs| - 1].endMs }

  lemma {:induction false} AllTile(segs: seq<CaptionSegment>, wordsPerLine: nat)
    requires wordsPerLine > 0 && InOrder(segs, 0.0)
    ensures var r := ShowAll(segs, wordsPerLine); Tiles(r.frames, 0.0, EndOf(segs)) && r.cursor == EndOf(segs)
  {
    if segs != [] {
      hide Tiles, ShowSegment, InRange;
      var init := segs[..|segs| - 1];
      OrderedInit(segs, 0.0);
      AllTile(init, wordsPerLine);
      SegmentTiles(ShowAll(init, wordsPerLine), segs[|segs| - 1], wordsPerLine);
    }
  }

  /** The frames of ordered segments fill the video from its start to its end. */
  lemma FramesTile(segs: seq<CaptionSegment>, wordsPerLine: int, durationMs: real)
    requires InOrder(segs, 0.0) && EndOf(segs) <= durationMs
    ensures Tiles(Frames(segs, wordsPerLine, durationMs), 0.0, durationMs)
  {
    AllTile(segs, PerLine(wordsPerLine));
    GapTiles(ShowAll(segs, PerLine(wordsPerLine)), durationMs);
  }

  function TotalMs(frames: seq<Frame>): real {
    if frames == [] then 0.0
    else TotalMs(frames[..|frames| - 1]) + (frames[|frames| - 1].endMs - frames[|frames| - 1].startMs)
  }

  lemma {:induction false} TilesSum(frames: seq<Frame>, a: real, b: real)
    requires Tiles(frames, a, b)
    ensures TotalMs(frames) == b - a
  {
    if frames != [] { TilesSum(frames[..|frames| - 1], a, frames[|frames| - 1].startMs); }
  }

  /** From recognised words to the whole video: the frames of the default segments
      tile it and their lengths add up to its duration. */
  lemma EndToEnd(words: seq<CaptionWord>, perCue: nat, wordsPerLine: int, durationMs: real)
    requires Spoken(words) && perCue > 0 && LastEnd(words) <= durationMs
    ensures var frames := Frames(SegmentsFrom(words, 0, perCue), wordsPerLine, durationMs);
      Tiles(frames, 0.0, durationMs) && TotalMs(frames) == durationMs
  {
    hide Tiles, TotalMs, InOrder, Spoken, SegmentOf, Frames;
    FromZero(words, perCue);
    if words != [] { LastSegmentEnds(words, 0, perCue); }
    var segs := SegmentsFrom(words, 0, perCue);
    FramesTile(segs, wordsPerLine, durationMs);
    TilesSum(Frames(segs, wordsPerLine, durationMs), 0.0, durationMs);
  }

  // ----- what is on the screen at a moment -----

  /** The caption at time `t` inside a segment. */
  function Showing(seg: CaptionSegment, wordsPerLine: nat, t: real): Content
    requires wordsPerLine > 0
  {
    if seg.words == [] then Plain(Trim(seg.text)) else Lit(seg, wordsPerLine, Active(seg, t))
  }

  /** The caption at time `t`: that of the segment that covers it, or nothing. */
  function ContentAt(segs: seq<CaptionSegment>, wordsPerLine: nat, t: real): Content
    requires wordsPerLine > 0
  {
    if segs == [] then Blank else
    var last := segs[|segs| - 1];
    if last.startMs <= t < last.endMs then Showing(last, wordsPerLine, t)
    else ContentAt(segs[..|segs| - 1], wordsPerLine, t)
  }

  /** Every frame shows what is to be seen at each moment it covers. */
  ghost predicate Shows(frames: seq<Frame>, segs: seq<CaptionSegment>, wordsPerLine: nat)
    requires wordsPerLine > 0
  {
    forall k, t | 0 <= k < |frames| && frames[k].Covers(t) :: frames[k].content == ContentAt(segs, wordsPerLine, t)
  }

  lemma {:induction false} BlankLater(segs: seq<CaptionSegment>, wordsPerLine: nat, t: real)
    requires wordsPerLine > 0 && InOrder(segs, 0.0) && EndOf(segs) <= t
    ensures ContentAt(segs, wordsPerLine, t) == Blank
  {
    if segs != [] {
      hide InRange, Showing;
      OrderedInit(segs, 0.0);
      var last := segs[|segs| - 1];
      RangeMeans(last);
      if |segs| > 1 { assert segs[|segs| - 2].endMs <= last.startMs; }
      BlankLater(segs[..|segs| - 1], wordsPerLine, t);
    }
  }

  lemma {:induction false} TilesBounds(frames: seq<Frame>, a: real, b: real, k: nat)
    requires Tiles(frames, a, b) && k < |frames|
    ensures a <= frames[k].startMs <= frames[k].endMs <= b
  {
    var last := |frames| - 1;
    if k < last {
      TilesBounds(frames[..last], a, frames[last].startMs, k);
    } else {
      TilesUp(frames[..last], a, frames[last].startMs);
    }
  }

  lemma {:induction false} TilesUp(frames: seq<Frame>, a: real, b: real)
    requires Tiles(frames, a, b)
    ensures a <= b
  {
    if frames != [] { TilesUp(frames[..|frames| - 1], a, frames[|frames| - 1].startMs); }
  }

  lemma {:induction false} TilesCover(frames: seq<Frame>, a: real, b: real, t: real) returns (k: nat)
    requires Tiles(frames, a, b) && a <= t < b
    ensures k < |frames| && frames[k].Covers(t)
    ensures forall j | 0 <= j < |frames| && frames[j].Covers(t) :: j == k
  {
    var last := |frames| - 1;
    if frames[last].startMs <= t {
      k := last;
      forall j | 0 <= j < last ensures !frames[j].Covers(t) {
        TilesBounds(frames[..last], a, frames[last].startMs, j);
      }
    } else {
      k := TilesCover(frames[..last], a, frames[last].startMs, t);
    }
  }

  /** Old frames end before the new segment starts, so it changes nothing for them. */
  lemma OlderShow(frames: seq<Frame>, segs: seq<CaptionSegment>, wordsPerLine: nat)
    requires wordsPerLine > 0 && segs != []
    requires Shows(frames, segs[..|segs| - 1], wordsPerLine)
    requires forall k | 0 <= k < |frames| :: frames[k].endMs <= segs[|segs| - 1].startMs
    ensures Shows(frames, segs, wordsPerLine)
  {
    hide Showing;
    forall k, t | 0 <= k < |frames| && frames[k].Covers(t)
      ensures frames[k].content == ContentAt(segs, wordsPerLine, t)
    {
      assert frames[k].endMs <= segs[|segs| - 1].startMs;
      assert frames[k].content == ContentAt(segs[..|segs| - 1], wordsPerLine, t);
    }
  }

  lemma ShowOne(frames: seq<Frame>, f: Frame, segs: seq<CaptionSegment>, wordsPerLine: nat)
    requires wordsPerLine > 0 && Shows(frames, segs, wordsPerLine)
    requires forall t | f.Covers(t) :: f.content == ContentAt(segs, wordsPerLine, t)
    ensures Shows(frames + [f], segs, wordsPerLine)
  {
    hide ContentAt;
  }

  /** The gap before a segment is empty on the screen, with or without the segment. */
  lemma GapShows(r: Reel, segs: seq<CaptionSegment>, wordsPerLine: nat, until: real)
    requires wordsPerLine > 0 && InOrder(segs, 0.0) && r.cursor == EndOf(segs)
    requires Shows(r.frames, segs, wordsPerLine)
    ensures Shows(r.Gap(until).frames, segs, wordsPerLine)
  {
    if until > r.cursor {
      var f := Frame(Blank, r.cursor, until);
      forall t | f.Covers(t) ensures f.content == ContentAt(segs, wordsPerLine, t) { BlankLater(segs, wordsPerLine, t); }
      ShowOne(r.frames, f, segs, wordsPerLine);
    }
  }

  ghost predicate SomeOf(ivs: seq<Interval>, seg: CaptionSegment) {
    ivs <= Intervals(seg)
  }

  lemma {:induction false} IntervalsShow(r: Reel, segs: seq<CaptionSegment>, wordsPerLine: nat, ivs: seq<Interval>, b: real)
    requires wordsPerLine > 0 && segs != [] && InRange(segs[|segs| - 1]) && segs[|segs| - 1].words != []
    requires SomeOf(ivs, segs[|segs| - 1]) && Chain(ivs, r.cursor, b)
    requires r.cursor == segs[|segs| - 1].startMs && b <= segs[|segs| - 1].endMs
    requires Shows(r.frames, segs, wordsPerLine)
    ensures var s := ShowIntervals(r, segs[|segs| - 1], wordsPerLine, ivs); Shows(s.frames, segs, wordsPerLine) && s.cursor == b
  {
    if ivs != [] {
      hide Lit, Shows, InRange, Showing, Intervals;
      var seg, n := segs[|segs| - 1], |ivs| - 1;
      var iv := ivs[n];
      IntervalsShow(r, segs, wordsPerLine, ivs[..n], iv.startMs);
      var before := ShowIntervals(r, seg, wordsPerLine, ivs[..n]);
      var f := Frame(Lit(seg, wordsPerLine, iv.wordIndex), iv.startMs, iv.endMs);
      ChainUp(ivs[..n], r.cursor, iv.startMs);
      forall t | f.Covers(t) ensures f.content == ContentAt(segs, wordsPerLine, t) {
        FrameLightsActive(segs, wordsPerLine, ivs, n, t);
      }
      ShowOne(before.frames, f, segs, wordsPerLine);
    }
  }

  lemma FrameLightsActive(segs: seq<CaptionSegment>, wordsPerLine: nat, ivs: seq<Interval>, k: nat, t: real)
    requires wordsPerLine > 0 && segs != [] && InRange(segs[|segs| - 1]) && segs[|segs| - 1].words != []
    requires SomeOf(ivs, segs[|segs| - 1]) && k < |ivs| && ivs[k].Covers(t)
    requires segs[|segs| - 1].startMs <= t < segs[|segs| - 1].endMs
    ensures Lit(segs[|segs| - 1], wordsPerLine, ivs[k].wordIndex) == ContentAt(segs, wordsPerLine, t)
  {
    hide Lit, InRange, Intervals;
    assert ivs[k] == Intervals(segs[|segs| - 1])[k];
    IntervalLightsActive(segs[|segs| - 1], k, t);
  }

  lemma {:induction false} ChainUp(ivs: seq<Interval>, a: real, b: real)
    requires Chain(ivs, a, b)
    ensures a <= b
  {
    if ivs != [] { ChainUp(ivs[..|ivs| - 1], a, ivs[|ivs| - 1].startMs); }
  }

  lemma SegmentShows(r: Reel, segs: seq<CaptionSegment>, wordsPerLine: nat)
    requires wordsPerLine > 0 && segs != [] && InOrder(segs, 0.0)
    requires r.cursor == segs[|segs| - 1].startMs && Shows(r.frames, segs, wordsPerLine)
    ensures var seg := segs[|segs| - 1];
      Shows(ShowSegment(r, seg, wordsPerLine).frames, segs, wordsPerLine)
  {
    var seg := segs[|segs| - 1];
    hide Lit, Shows, Chain;
    if seg.words == [] {
      var f := Frame(Plain(Trim(seg.text)), seg.startMs, seg.endMs);
      forall t | f.Covers(t) ensures f.content == ContentAt(segs, wordsPerLine, t) {}
      ShowOne(r.frames, f, segs, wordsPerLine);
    } else {
      IntervalsChain(seg);
      IntervalsShow(r, segs, wordsPerLine, Intervals(seg), seg.endMs);
    }
  }

  lemma {:induction false} AllShow(segs: seq<CaptionSegment>, wordsPerLine: nat)
    requires wordsPerLine > 0 && InOrder(segs, 0.0)
    ensures Shows(ShowAll(segs, wordsPerLine).frames, segs, wordsPerLine)
  {
    if segs != [] {
      hide Shows, Tiles, InRange, ShowIntervals;
      var init, seg := segs[..|segs| - 1], segs[|segs| - 1];
      OrderedInit(segs, 0.0);
      AllShow(init, wordsPerLine);
      AllTile(init, wordsPerLine);
      var before := ShowAll(init, wordsPerLine);
      assert EndOf(init) <= seg.startMs;
      GapShows(before, init, wordsPerLine, seg.startMs);
      GapTiles(before, seg.startMs);
      var gapped := before.Gap(seg.startMs);
      forall k | 0 <= k < |gapped.frames| ensures gapped.frames[k].endMs <= seg.startMs {
        TilesBounds(gapped.frames, 0.0, seg.startMs, k);
      }
      OlderShow(gapped.frames, segs, wordsPerLine);
      SegmentShows(gapped, segs, wordsPerLine);
      GapTwice(before, seg, wordsPerLine);
    }
  }

  lemma GapTwice(r: Reel, seg: CaptionSegment, wordsPerLine: nat)
    requires wordsPerLine > 0 && r.cursor <= seg.startMs
    ensures ShowSegment(r.Gap(seg.startMs), seg, wordsPerLine) == ShowSegment(r, seg, wordsPerLine)
  {
    hide ShowIntervals;
  }

  /** At every moment of the video exactly one frame is on the screen, and it shows the
      caption of that moment: the active word of the segment, its text, or nothing. */
  lemma FrameAtEveryMoment(segs: seq<CaptionSegment>, wordsPerLine: int, durationMs: real, t: real) returns (k: nat)
    requires InOrder(segs, 0.0) && EndOf(segs) <= durationMs && 0.0 <= t < durationMs
    ensures var frames := Frames(segs, wordsPerLine, durationMs);
      && k < |frames| && frames[k].Covers(t)
      && (forall j | 0 <= j < |frames| && frames[j].Covers(t) :: j == k)
      && frames[k].content == ContentAt(segs, if wordsPerLine > 0 then wordsPerLine else 4, t)
  {
    hide Shows, Tiles, InOrder, ContentAt;
    var n := PerLine(wordsPerLine);
    FramesTile(segs, wordsPerLine, durationMs);
    k := TilesCover(Frames(segs, wordsPerLine, durationMs), 0.0, durationMs, t);
    AllShow(segs, n);
    AllTile(segs, n);
    GapShows(ShowAll(segs, n), segs, n, durationMs);
    ShowsMeans(Frames(segs, wordsPerLine, durationMs), segs, n, k, t);
  }

  lemma ShowsMeans(frames: seq<Frame>, segs: seq<CaptionSegment>, wordsPerLine: nat, k: nat, t: real)
    requires wordsPerLine > 0 && Shows(frames, segs, wordsPerLine) && k < |frames| && frames[k].Covers(t)
    ensures frames[k].content == ContentAt(segs, wordsPerLine, t)
  {
  }

  /** Inside a segment with words, the lit word is the active word itself. */
  lemma LitWord(seg: CaptionSegment, wordsPerLine: nat, t: real)
    requires wordsPerLine > 0 && InRange(seg) && seg.words != [] && seg.startMs <= t < seg.endMs
    ensures var c := Showing(seg, wordsPerLine, t);
      && c.Words? && c.lit < |c.lines| && c.slot < |c.lines[c.lit]| && Active(seg, t) < |seg.words|
      && c.lines[c.lit][c.slot] == Trim(seg.words[Active(seg, t)].word)
  {
    var k := ExactlyActiveIsLit(seg, t);
    IntervalLightsActive(seg, k, t);
    WordInLine(Trimmed(seg.words), wordsPerLine, Active(seg, t));
  }
}
