/** The caption data shared by every back end, the default segments and the
    highlight intervals of caption-style-catalog.ts. */
module CaptionCatalog {
  import opened JsText

  /** `start` and `end` in seconds on the video. */
  datatype CaptionWord = CaptionWord(word: string, start: real, end: real)

  datatype CaptionSegment = CaptionSegment(
    id: string, startMs: real, endMs: real, text: string, words: seq<CaptionWord>)

  function Ms(seconds: real): int { Round(seconds * 1000.0) }

  lemma MsInOrder(a: real, b: real)
    requires a <= b
    ensures Ms(a) <= Ms(b)
  {
  }

  // ----- default segments -----

  function Trimmed(words: seq<CaptionWord>): seq<string> {
    seq(|words|, i requires 0 <= i < |words| => Trim(words[i].word))
  }

  function SegmentOf(i: nat, group: seq<CaptionWord>): CaptionSegment
    requires group != []
  {
    CaptionSegment("seg-" + NatText(i), Ms(group[0].start) as real, Ms(group[|group| - 1].end) as real,
      Join(Trimmed(group), " "), group)
  }

  /** The segments of the words from number `i` on. */
  function SegmentsFrom(words: seq<CaptionWord>, i: nat, perCue: nat): seq<CaptionSegment>
    requires perCue > 0
    decreases |words| - i
  {
    if i >= |words| then []
    else [SegmentOf(i, words[i..Min(i + perCue, |words|)])] + SegmentsFrom(words, i + perCue, perCue)
  }

  lemma SegmentsStep(words: seq<CaptionWord>, i: nat, perCue: nat, done: seq<CaptionSegment>)
    requires perCue > 0 && i < |words|
    ensures done + [SegmentOf(i, words[i..Min(i + perCue, |words|)])] + SegmentsFrom(words, i + perCue, perCue)
         == done + SegmentsFrom(words, i, perCue)
  {
    hide SegmentOf;
  }

  function PerCue(wordsPerLine: int, linesPerCue: int): nat { Max(1, wordsPerLine) * Max(1, linesPerCue) }

  lemma PerCuePositive(wordsPerLine: int, linesPerCue: int)
    ensures PerCue(wordsPerLine, linesPerCue) > 0
  {
  }

  method BuildDefaultSegments(words: seq<CaptionWord>, wordsPerLine: int := 4, linesPerCue: int := 1)
    returns (segments: seq<CaptionSegment>)
    ensures PerCue(wordsPerLine, linesPerCue) > 0
    ensures segments == SegmentsFrom(words, 0, PerCue(wordsPerLine, linesPerCue))
  {
    PerCuePositive(wordsPerLine, linesPerCue);
    var perCue := PerCue(wordsPerLine, linesPerCue);
    hide PerCue, SegmentOf;
    segments := [];
    var i := 0;
    while i < |words|
      invariant 0 <= i
      invariant segments + SegmentsFrom(words, i, perCue) == SegmentsFrom(words, 0, perCue)
    {
      var group := words[i..Min(i + perCue, |words|)];
      SegmentsStep(words, i, perCue, segments);
      segments := segments + [SegmentOf(i, group)];
      i := i + perCue;
    }
  }

  /** Milliseconds are those of the seconds, to the nearest. */
  lemma MsIsNearest(seconds: real)
    ensures Ms(seconds) as real - 0.5 <= seconds * 1000.0 < Ms(seconds) as real + 0.5
  {
  }

  lemma {:induction false} SegmentAt(words: seq<CaptionWord>, i: nat, perCue: nat, j: nat)
    requires perCue > 0 && i + j * perCue < |words|
    ensures j < |SegmentsFrom(words, i, perCue)|
    ensures i + j * perCue < Min(i + j * perCue + perCue, |words|) <= |words|
    ensures SegmentsFrom(words, i, perCue)[j]
         == SegmentOf(i + j * perCue, words[i + j * perCue..Min(i + j * perCue + perCue, |words|)])
    decreases j
  {
    hide SegmentOf;
    if j > 0 {
      assert i + perCue + (j - 1) * perCue == i + j * perCue;
      Positive(j - 1, perCue);
      SegmentAt(words, i + perCue, perCue, j - 1);
    }
  }

  lemma Positive(j: nat, n: nat)
    ensures j * n >= 0
  {
  }

  lemma {:induction false} NumberOfSegments(words: seq<CaptionWord>, i: nat, perCue: nat)
    requires perCue > 0 && i <= |words|
    ensures var n := |SegmentsFrom(words, i, perCue)|; i + n * perCue >= |words| && (n > 0 ==> i + (n - 1) * perCue < |words|)
    decreases |words| - i
  {
    hide SegmentOf;
    if i < |words| {
      var n := |SegmentsFrom(words, i, perCue)|;
      if i + perCue <= |words| {
        NumberOfSegments(words, i + perCue, perCue);
        assert (n - 1) * perCue + perCue == n * perCue;
        if n > 1 { assert (n - 2) * perCue + perCue == (n - 1) * perCue; }
      } else {
        assert SegmentsFrom(words, i + perCue, perCue) == [];
      }
    }
  }

  lemma WordsPerCue(wordsPerLine: int, linesPerCue: int)
    ensures wordsPerLine > 0 && linesPerCue > 0 ==> PerCue(wordsPerLine, linesPerCue) == wordsPerLine * linesPerCue
    ensures wordsPerLine <= 0 && linesPerCue > 0 ==> PerCue(wordsPerLine, linesPerCue) == linesPerCue
    ensures wordsPerLine > 0 && linesPerCue <= 0 ==> PerCue(wordsPerLine, linesPerCue) == wordsPerLine
  {
  }

  /** Segment `j` holds the next words, as many as a cue has room for, or what is left; it begins with the first
      and ends with the last of them, to the nearest millisecond; its text, cut at blanks, is those words. */
  lemma SegmentSays(words: seq<CaptionWord>, perCue: nat, j: nat)
    requires perCue > 0 && j < |SegmentsFrom(words, 0, perCue)|
    ensures var seg, lo := SegmentsFrom(words, 0, perCue)[j], j * perCue;
      var hi := Min(lo + perCue, |words|);
      && lo < hi <= |words| && seg.words == words[lo..hi] && seg.id == "seg-" + NatText(lo)
      && seg.startMs - 0.5 <= words[lo].start * 1000.0 < seg.startMs + 0.5
      && seg.endMs - 0.5 <= words[hi - 1].end * 1000.0 < seg.endMs + 0.5
      && ((forall i | lo <= i < hi :: Lacks(Trim(words[i].word), ' ')) ==> Split(seg.text, " ") == Trimmed(words[lo..hi]))
  {
    hide SegmentsFrom, SegmentOf, Trim, Lacks, Split, NatText;
    NumberOfSegments(words, 0, perCue);
    Times(j, |SegmentsFrom(words, 0, perCue)| - 1, perCue);
    SegmentAt(words, 0, perCue, j);
    GroupSays(j * perCue, words[j * perCue..Min(j * perCue + perCue, |words|)]);
  }

  lemma GroupSays(i: nat, group: seq<CaptionWord>)
    requires group != []
    ensures var seg := SegmentOf(i, group);
      && seg.words == group && seg.id == "seg-" + NatText(i)
      && seg.startMs - 0.5 <= group[0].start * 1000.0 < seg.startMs + 0.5
      && seg.endMs - 0.5 <= group[|group| - 1].end * 1000.0 < seg.endMs + 0.5
      && ((forall i | 0 <= i < |group| :: Lacks(Trim(group[i].word), ' ')) ==> Split(seg.text, " ") == Trimmed(group))
  {
    hide Trim, Split, Join, NatText, Ms, Lacks;
    MsIsNearest(group[0].start);
    MsIsNearest(group[|group| - 1].end);
    if forall i | 0 <= i < |group| :: Lacks(Trim(group[i].word), ' ') { TextSplits(group); }
  }

  lemma TextSplits(words: seq<CaptionWord>)
    requires words != [] && forall i | 0 <= i < |words| :: Lacks(Trim(words[i].word), ' ')
    ensures Split(Join(Trimmed(words), " "), " ") == Trimmed(words)
  {
    hide Trim, Split, Join;
    LackingCut(Trimmed(words), " ");
    JoinSplit(Trimmed(words), " ");
  }

  lemma Times(j: nat, m: nat, n: nat)
    requires j <= m
    ensures j * n <= m * n
  {
  }

  // ----- highlight intervals -----

  datatype Interval = Interval(wordIndex: nat, startMs: real, endMs: real) {
    predicate Covers(t: real) { startMs <= t < endMs }
  }

  /** Word `i` is lit from edge `i` to edge `i + 1`. */
  function Edge(seg: CaptionSegment, i: nat): real
    requires i <= |seg.words|
  {
    if i == 0 then seg.startMs else if i == |seg.words| then seg.endMs else Ms(seg.words[i].start) as real
  }

  /** The intervals of the first `n` words; an empty one is dropped. */
  function IntervalsUpTo(seg: CaptionSegment, n: nat): seq<Interval>
    requires n <= |seg.words|
  {
    if n == 0 then [] else
    var before := IntervalsUpTo(seg, n - 1);
    if Edge(seg, n) <= Edge(seg, n - 1) then before else before + [Interval(n - 1, Edge(seg, n - 1), Edge(seg, n))]
  }

  function Intervals(seg: CaptionSegment): seq<Interval> { IntervalsUpTo(seg, |seg.words|) }

  method ComputeWordHighlightIntervals(seg: CaptionSegment) returns (intervals: seq<Interval>)
    ensures intervals == Intervals(seg)
  {
    var words := seg.words;
    intervals := [];
    for i := 0 to |words|
      invariant intervals == IntervalsUpTo(seg, i)
    {
      var startMs := if i == 0 then seg.startMs else Ms(words[i].start) as real;
      var endMs := if i == |words| - 1 then seg.endMs else Ms(words[i + 1].start) as real;
      if endMs <= startMs { continue; }
      intervals := intervals + [Interval(i, startMs, endMs)];
    }
  }

  /** The rounded word starts are in order and inside the segment. */
  ghost predicate InRange(seg: CaptionSegment) {
    && seg.startMs <= seg.endMs
    && forall i | 0 <= i < |seg.words| :: Edge(seg, i) <= Edge(seg, i + 1)
  }

  /** The last word whose rounded start is not later than `t`, else the first word. */
  function ActiveUpTo(seg: CaptionSegment, t: real, n: nat): nat
    requires n <= |seg.words|
  {
    if n <= 1 then 0 else if Ms(seg.words[n - 1].start) as real <= t then n - 1 else ActiveUpTo(seg, t, n - 1)
  }

  function Active(seg: CaptionSegment, t: real): nat { ActiveUpTo(seg, t, |seg.words|) }

  lemma {:induction false} EdgesInOrder(seg: CaptionSegment, i: nat, j: nat)
    requires InRange(seg) && i <= j <= |seg.words|
    ensures Edge(seg, i) <= Edge(seg, j)
    decreases j - i
  {
    if i < j { EdgesInOrder(seg, i, j - 1); }
  }

  lemma {:induction false} ActiveIs(seg: CaptionSegment, t: real, i: nat, n: nat)
    requires InRange(seg) && i < n <= |seg.words|
    requires Edge(seg, i) <= t < Edge(seg, i + 1)
    ensures ActiveUpTo(seg, t, n) == i
    decreases n
  {
    if i < n - 1 {
      EdgesInOrder(seg, i + 1, n - 1);
      ActiveIs(seg, t, i, n - 1);
    }
  }

  /** Every interval is the time of one word, and that word is the active one. */
  lemma {:induction false} IntervalIs(seg: CaptionSegment, n: nat, k: nat)
    requires n <= |seg.words| && k < |IntervalsUpTo(seg, n)|
    ensures var iv := IntervalsUpTo(seg, n)[k];
      iv.wordIndex < n && iv.startMs == Edge(seg, iv.wordIndex) && iv.endMs == Edge(seg, iv.wordIndex + 1)
      && iv.startMs < iv.endMs
  {
    if k < |IntervalsUpTo(seg, n - 1)| { IntervalIs(seg, n - 1, k); }
  }

  lemma IntervalLightsActive(seg: CaptionSegment, k: nat, t: real)
    requires InRange(seg) && k < |Intervals(seg)| && Intervals(seg)[k].Covers(t)
    ensures Intervals(seg)[k].wordIndex == Active(seg, t) < |seg.words|
  {
    IntervalIs(seg, |seg.words|, k);
    ActiveIs(seg, t, Intervals(seg)[k].wordIndex, |seg.words|);
  }

  /** Consecutive intervals from `a` to `b`. */
  ghost predicate Chain(ivs: seq<Interval>, a: real, b: real) {
    if ivs == [] then a == b else
    var last := ivs[|ivs| - 1];
    last.endMs == b && last.startMs < b && Chain(ivs[..|ivs| - 1], a, last.startMs)
  }

  lemma {:induction false} IntervalsChainUpTo(seg: CaptionSegment, n: nat)
    requires InRange(seg) && n <= |seg.words|
    ensures Chain(IntervalsUpTo(seg, n), seg.startMs, Edge(seg, n))
  {
    if n > 0 {
      IntervalsChainUpTo(seg, n - 1);
      var before, now := IntervalsUpTo(seg, n - 1), IntervalsUpTo(seg, n);
      if Edge(seg, n - 1) < Edge(seg, n) {
        assert now[..|now| - 1] == before;
      } else {
        assert Edge(seg, n - 1) == Edge(seg, n) && now == before;
      }
    }
  }

  /** The intervals fill the segment without gap or overlap. */
  lemma IntervalsChain(seg: CaptionSegment)
    requires InRange(seg) && seg.words != []
    ensures Chain(Intervals(seg), seg.startMs, seg.endMs)
  {
    IntervalsChainUpTo(seg, |seg.words|);
  }

  lemma {:induction false} ChainCovers(ivs: seq<Interval>, a: real, b: real, t: real) returns (k: nat)
    requires Chain(ivs, a, b) && a <= t < b
    ensures k < |ivs| && ivs[k].Covers(t)
  {
    var last := |ivs| - 1;
    if ivs[last].startMs <= t { k := last; } else { k := ChainCovers(ivs[..last], a, ivs[last].startMs, t); }
  }

  /** At every moment of a segment exactly the active word is lit. */
  lemma ExactlyActiveIsLit(seg: CaptionSegment, t: real) returns (k: nat)
    requires InRange(seg) && seg.words != [] && seg.startMs <= t < seg.endMs
    ensures k < |Intervals(seg)| && Intervals(seg)[k].Covers(t)
    ensures forall j | 0 <= j < |Intervals(seg)| && Intervals(seg)[j].Covers(t) ::
      Intervals(seg)[j].wordIndex == Active(seg, t)
  {
    IntervalsChain(seg);
    k := ChainCovers(Intervals(seg), seg.startMs, seg.endMs, t);
    forall j | 0 <= j < |Intervals(seg)| && Intervals(seg)[j].Covers(t)
      ensures Intervals(seg)[j].wordIndex == Active(seg, t)
    {
      IntervalLightsActive(seg, j, t);
    }
  }

  // ----- default segments are in order -----

  /** What speech recognition delivers: words one after the other. */
  ghost predicate Spoken(words: seq<CaptionWord>) {
    && (forall i | 0 <= i < |words| :: 0.0 <= words[i].start <= words[i].end)
    && (forall i | 0 < i < |words| :: words[i - 1].end <= words[i].start)
  }

  /** Segments one after the other from `from` on, each with its words in range. */
  ghost predicate InOrder(segs: seq<CaptionSegment>, from: real) {
    && (forall j | 0 <= j < |segs| :: InRange(segs[j]))
    && (segs != [] ==> from <= segs[0].startMs)
    && (forall j | 0 < j < |segs| :: segs[j - 1].endMs <= segs[j].startMs)
  }

  lemma GroupInRange(words: seq<CaptionWord>, i: nat, n: nat)
    requires Spoken(words) && i < n <= |words|
    ensures InRange(SegmentOf(i, words[i..n]))
  {
    var group := words[i..n];
    var seg := SegmentOf(i, group);
    forall k | 0 <= k < |group| ensures Edge(seg, k) <= Edge(seg, k + 1) {
      if k < |group| - 1 { MsInOrder(group[k].start, words[i + k + 1].start); }
      else { MsInOrder(group[k].start, group[k].end); }
    }
    EdgesUp(seg, |group|);
  }

  lemma {:induction false} EdgesUp(seg: CaptionSegment, n: nat)
    requires n <= |seg.words| && forall i | 0 <= i < |seg.words| :: Edge(seg, i) <= Edge(seg, i + 1)
    ensures Edge(seg, 0) <= Edge(seg, n)
  {
    if n > 0 { EdgesUp(seg, n - 1); }
  }

  lemma {:induction false} SegmentsInOrder(words: seq<CaptionWord>, i: nat, perCue: nat)
    requires Spoken(words) && perCue > 0
    ensures InOrder(SegmentsFrom(words, i, perCue), if i < |words| then Ms(words[i].start) as real else 0.0)
    decreases |words| - i
  {
    hide InOrder, InRange, SegmentOf, SegmentsFrom, Spoken, Ms;
    if i >= |words| {
      NoSegmentsPastEnd(words, i, perCue);
      NoneInOrder();
    } else {
      var n := Min(i + perCue, |words|);
      var first, rest := SegmentOf(i, words[i..n]), SegmentsFrom(words, i + perCue, perCue);
      FirstSegment(words, i, perCue);
      GroupInRange(words, i, n);
      GroupBounds(words, i, n);
      SegmentsInOrder(words, i + perCue, perCue);
      if i + perCue < |words| {
        NextStartsLater(words, n);
        InOrderEarlier(rest, Ms(words[n].start) as real, first.endMs);
      } else {
        NoSegmentsPastEnd(words, i + perCue, perCue);
      }
      Prepend(first, rest, first.startMs);
    }
  }

  lemma NoneInOrder()
    ensures InOrder([], 0.0)
  {
  }

  lemma InOrderEarlier(segs: seq<CaptionSegment>, from: real, earlier: real)
    requires InOrder(segs, from) && earlier <= from
    ensures InOrder(segs, earlier) && InOrder(segs, if segs == [] then 0.0 else earlier)
  {
    hide InRange;
  }

  lemma NextStartsLater(words: seq<CaptionWord>, n: nat)
    requires Spoken(words) && 0 < n < |words|
    ensures Ms(words[n - 1].end) <= Ms(words[n].start)
  {
    MsInOrder(words[n - 1].end, words[n].start);
  }

  lemma GroupBounds(words: seq<CaptionWord>, i: nat, n: nat)
    requires i < n <= |words|
    ensures var seg := SegmentOf(i, words[i..n]);
      seg.startMs == Ms(words[i].start) as real && seg.endMs == Ms(words[n - 1].end) as real
  {
    hide Join, Trimmed, NatText;
  }

  lemma Prepend(first: CaptionSegment, rest: seq<CaptionSegment>, from: real)
    requires InRange(first) && from <= first.startMs
    requires InOrder(rest, if rest == [] then 0.0 else first.endMs)
    ensures InOrder([first] + rest, from)
  {
    var segs := [first] + rest;
    forall j | 0 < j < |segs| ensures segs[j - 1].endMs <= segs[j].startMs {
      if j > 1 { assert rest[j - 2].endMs <= rest[j - 1].startMs; }
    }
  }

  lemma FromZero(words: seq<CaptionWord>, perCue: nat)
    requires Spoken(words) && perCue > 0
    ensures InOrder(SegmentsFrom(words, 0, perCue), 0.0)
  {
    SegmentsInOrder(words, 0, perCue);
    if words != [] { MsInOrder(0.0, words[0].start); }
  }

  function LastEnd(words: seq<CaptionWord>): real {
    if words == [] then 0.0 else Ms(words[|words| - 1].end) as real
  }

  lemma {:induction false} LastSegmentEnds(words: seq<CaptionWord>, i: nat, perCue: nat)
    requires perCue > 0 && i < |words|
    ensures var segs := SegmentsFrom(words, i, perCue); segs != [] && segs[|segs| - 1].endMs == LastEnd(words)
    decreases |words| - i
  {
    hide SegmentOf, SegmentsFrom, LastEnd;
    FirstSegment(words, i, perCue);
    if i + perCue < |words| {
      LastSegmentEnds(words, i + perCue, perCue);
    } else {
      NoSegmentsPastEnd(words, i + perCue, perCue);
      LastGroupEnds(words, i);
    }
  }

  lemma FirstSegment(words: seq<CaptionWord>, i: nat, perCue: nat)
    requires perCue > 0 && i < |words|
    ensures SegmentsFrom(words, i, perCue)
      == [SegmentOf(i, words[i..Min(i + perCue, |words|)])] + SegmentsFrom(words, i + perCue, perCue)
  {
    hide SegmentOf;
  }

  lemma NoSegmentsPastEnd(words: seq<CaptionWord>, i: nat, perCue: nat)
    requires perCue > 0 && i >= |words|
    ensures SegmentsFrom(words, i, perCue) == []
  {
    hide SegmentOf;
  }

  lemma LastGroupEnds(words: seq<CaptionWord>, i: nat)
    requires i < |words|
    ensures SegmentOf(i, words[i..|words|]).endMs == LastEnd(words)
  {
    hide Join, Trimmed, NatText;
  }

  function WordsOf(segs: seq<CaptionSegment>): seq<CaptionWord> {
    if segs == [] then [] else segs[0].words + WordsOf(segs[1..])
  }

  lemma SegmentWords(i: nat, group: seq<CaptionWord>)
    requires group != []
    ensures SegmentOf(i, group).words == group
  {
  }

  function Rest(words: seq<CaptionWord>, i: nat): seq<CaptionWord> { if i < |words| then words[i..] else [] }

  lemma RestSplits(words: seq<CaptionWord>, i: nat, perCue: nat)
    requires perCue > 0 && i < |words|
    ensures words[i..Min(i + perCue, |words|)] + Rest(words, i + perCue) == Rest(words, i)
  {
    var n := Min(i + perCue, |words|);
    assert words[i..] == words[i..n] + words[n..];
  }

  lemma WordsOfCons(seg: CaptionSegment, segs: seq<CaptionSegment>)
    ensures WordsOf([seg] + segs) == seg.words + WordsOf(segs)
  {
    assert ([seg] + segs)[1..] == segs;
  }

  /** Grouping loses no word and keeps their order. */
  lemma {:induction false} SegmentsKeepWords(words: seq<CaptionWord>, i: nat, perCue: nat)
    requires perCue > 0
    ensures WordsOf(SegmentsFrom(words, i, perCue)) == Rest(words, i)
    decreases |words| - i
  {
    if i < |words| {
      hide SegmentOf, WordsOf, Rest;
      var group := words[i..Min(i + perCue, |words|)];
      SegmentWords(i, group);
      SegmentsKeepWords(words, i + perCue, perCue);
      WordsOfCons(SegmentOf(i, group), SegmentsFrom(words, i + perCue, perCue));
      RestSplits(words, i, perCue);
    }
  }
}
