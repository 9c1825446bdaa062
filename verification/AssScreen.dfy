/** What the events and the lines of the ASS file put on the screen at a moment. */
module AssScreen {
  import opened JsText
  import opened CaptionCatalog
  import opened CaptionFrames
  import opened SubtitleExport
  import opened AssSubtitle

  // ----- the events of a moment -----

  /** A moment is given by the times that have come when it is there: an event is on the screen
      when its start has come and its end has not. */
  predicate On(a: real, b: real, come: real -> bool) { come(a) && !come(b) }

  /** With a time, every earlier time has come. */
  ghost predicate Moment(come: real -> bool) { forall x: real, y: real | x <= y && come(y) :: come(x) }

  lemma ComesBefore(come: real -> bool, x: real, y: real)
    requires Moment(come) && x <= y && come(y)
    ensures come(x)
  {
  }

  /** The events of a layer that are on the screen, in the order of the file. */
  function Shown(es: seq<Event>, layer: nat, come: real -> bool): seq<Event> {
    if es == [] then [] else
    var last := es[|es| - 1];
    Shown(es[..|es| - 1], layer, come) + if last.layer == layer && On(last.startMs, last.endMs, come) then [last] else []
  }

  lemma {:induction false} ShownConcat(a: seq<Event>, b: seq<Event>, layer: nat, come: real -> bool)
    ensures Shown(a + b, layer, come) == Shown(a, layer, come) + Shown(b, layer, come)
  {
    hide On;
    if b == [] {
      assert a + b == a;
    } else {
      ShownConcat(a, b[..|b| - 1], layer, come);
      assert (a + b)[..|a + b| - 1] == a + b[..|b| - 1];
    }
  }

  lemma {:induction false} NoneShown(es: seq<Event>, layer: nat, come: real -> bool)
    requires forall k | 0 <= k < |es| :: es[k].layer == layer ==> !On(es[k].startMs, es[k].endMs, come)
    ensures Shown(es, layer, come) == []
  {
    hide On;
    if es != [] { NoneShown(es[..|es| - 1], layer, come); }
  }

  lemma {:induction false} OneShown(es: seq<Event>, layer: nat, come: real -> bool, i: nat)
    requires i < |es| && es[i].layer == layer && On(es[i].startMs, es[i].endMs, come)
    requires forall k | 0 <= k < |es| && k != i :: es[k].layer == layer ==> !On(es[k].startMs, es[k].endMs, come)
    ensures Shown(es, layer, come) == [es[i]]
  {
    hide On;
    var n := |es| - 1;
    if i == n { NoneShown(es[..n], layer, come); } else { OneShown(es[..n], layer, come, i); }
  }

  // ----- the intervals of a moment -----

  lemma {:induction false} ChainInside(ivs: seq<Interval>, a: real, b: real, k: nat)
    requires Chain(ivs, a, b) && k < |ivs|
    ensures a <= ivs[k].startMs && ivs[k].endMs <= b
  {
    var n := |ivs| - 1;
    ChainAscends(ivs[..n], a, ivs[n].startMs);
    if k < n { ChainInside(ivs[..n], a, ivs[n].startMs, k); }
  }

  lemma {:induction false} ChainAscends(ivs: seq<Interval>, a: real, b: real)
    requires Chain(ivs, a, b)
    ensures a <= b
  {
    if ivs != [] { ChainAscends(ivs[..|ivs| - 1], a, ivs[|ivs| - 1].startMs); }
  }

  /** A moment in a chain is in exactly one of its intervals. */
  lemma {:induction false} OneInterval(ivs: seq<Interval>, a: real, b: real, come: real -> bool) returns (i: nat)
    requires Chain(ivs, a, b) && Moment(come) && On(a, b, come)
    ensures i < |ivs| && forall k | 0 <= k < |ivs| :: On(ivs[k].startMs, ivs[k].endMs, come) <==> k == i
  {
    hide Moment;
    var n := |ivs| - 1;
    if come(ivs[n].startMs) {
      i := n;
      forall k | 0 <= k < n ensures !On(ivs[k].startMs, ivs[k].endMs, come) {
        ChainInside(ivs[..n], a, ivs[n].startMs, k);
        ComesBefore(come, ivs[k].endMs, ivs[n].startMs);
      }
    } else {
      i := OneInterval(ivs[..n], a, ivs[n].startMs, come);
    }
  }

  lemma NoInterval(ivs: seq<Interval>, a: real, b: real, come: real -> bool, k: nat)
    requires Chain(ivs, a, b) && Moment(come) && !On(a, b, come) && k < |ivs|
    ensures !On(ivs[k].startMs, ivs[k].endMs, come)
  {
    hide Moment;
    ChainInside(ivs, a, b, k);
    if On(ivs[k].startMs, ivs[k].endMs, come) {
      ComesBefore(come, a, ivs[k].startMs);
      if come(b) { ComesBefore(come, ivs[k].endMs, b); }
    }
  }

  // ----- one segment -----

  /** The highlights of a segment have the times of its intervals. */
  lemma HighlightTimes(seg: CaptionSegment, p: Place, k: nat)
    requires p.wordsPerLine > 0 && OfWords(Intervals(seg), seg) && k < |Intervals(seg)|
    ensures var e, iv := Highlights(seg, p, Intervals(seg))[k], Intervals(seg)[k];
      e.layer == 1 && e.startMs == iv.startMs && e.endMs == iv.endMs && e.style == "Highlight"
  {
    HighlightIs(seg, p, Intervals(seg)[k]);
  }

  lemma EventsAre(seg: CaptionSegment, p: Place, k: nat)
    requires p.wordsPerLine > 0 && OfWords(Intervals(seg), seg) && 0 < k < |EventsOf(seg, p)|
    ensures k - 1 < |Intervals(seg)| && EventsOf(seg, p)[k] == Highlights(seg, p, Intervals(seg))[k - 1]
    ensures EventsOf(seg, p)[k].layer == 1
    ensures EventsOf(seg, p)[k].startMs == Intervals(seg)[k - 1].startMs
    ensures EventsOf(seg, p)[k].endMs == Intervals(seg)[k - 1].endMs
  {
    hide Highlight, BaseText;
    HighlightTimes(seg, p, k - 1);
  }

  lemma SegmentShowsBase(seg: CaptionSegment, p: Place, come: real -> bool)
    requires p.wordsPerLine > 0
    ensures Shown(EventsOf(seg, p), 0, come) == if On(seg.startMs, seg.endMs, come) then [Base(seg, p)] else []
  {
    hide Highlight, BaseText, On;
    IntervalsOfWords(seg);
    var es := EventsOf(seg, p);
    forall k | 0 < k < |es| ensures es[k].layer == 1 { EventsAre(seg, p, k); }
    if On(seg.startMs, seg.endMs, come) { OneShown(es, 0, come, 0); } else { NoneShown(es, 0, come); }
  }

  lemma SegmentShowsNoWord(seg: CaptionSegment, p: Place, come: real -> bool)
    requires p.wordsPerLine > 0 && InRange(seg) && Moment(come) && (seg.words == [] || !On(seg.startMs, seg.endMs, come))
    ensures Shown(EventsOf(seg, p), 1, come) == []
  {
    hide Highlight, BaseText, On, Moment, InRange, Chain;
    IntervalsOfWords(seg);
    var es := EventsOf(seg, p);
    if seg.words != [] { IntervalsChain(seg); }
    forall k | 0 < k < |es| ensures !On(es[k].startMs, es[k].endMs, come) {
      EventsAre(seg, p, k);
      NoInterval(Intervals(seg), seg.startMs, seg.endMs, come, k - 1);
    }
    NoneShown(es, 1, come);
  }

  lemma SegmentShowsWord(seg: CaptionSegment, p: Place, come: real -> bool) returns (i: nat)
    requires p.wordsPerLine > 0 && InRange(seg) && Moment(come) && seg.words != [] && On(seg.startMs, seg.endMs, come)
    ensures OfWords(Intervals(seg), seg) && i < |Intervals(seg)|
    ensures On(Intervals(seg)[i].startMs, Intervals(seg)[i].endMs, come)
    ensures Shown(EventsOf(seg, p), 1, come) == [Highlights(seg, p, Intervals(seg))[i]]
  {
    hide Highlight, BaseText, On, Moment, InRange, Chain;
    IntervalsOfWords(seg);
    IntervalsChain(seg);
    i := OneInterval(Intervals(seg), seg.startMs, seg.endMs, come);
    var es := EventsOf(seg, p);
    forall k | 0 < k < |es| ensures On(es[k].startMs, es[k].endMs, come) <==> k == i + 1 { EventsAre(seg, p, k); }
    EventsAre(seg, p, i + 1);
    OneShown(es, 1, come, i + 1);
  }

  // ----- all segments -----

  /** No segment but `j` shows anything. */
  lemma {:induction false} OnlySegment(segs: seq<CaptionSegment>, p: Place, layer: nat, come: real -> bool, j: nat)
    requires p.wordsPerLine > 0 && j < |segs|
    requires forall i | 0 <= i < |segs| && i != j :: Shown(EventsOf(segs[i], p), layer, come) == []
    ensures Shown(AllEvents(segs, p), layer, come) == Shown(EventsOf(segs[j], p), layer, come)
  {
    hide EventsOf, Shown;
    var n := |segs| - 1;
    ShownConcat(AllEvents(segs[..n], p), EventsOf(segs[n], p), layer, come);
    if j == n { NoSegment(segs[..n], p, layer, come); } else { OnlySegment(segs[..n], p, layer, come, j); }
  }

  lemma {:induction false} NoSegment(segs: seq<CaptionSegment>, p: Place, layer: nat, come: real -> bool)
    requires p.wordsPerLine > 0
    requires forall i | 0 <= i < |segs| :: Shown(EventsOf(segs[i], p), layer, come) == []
    ensures Shown(AllEvents(segs, p), layer, come) == []
  {
    hide EventsOf;
    if segs != [] {
      hide Shown;
      var n := |segs| - 1;
      ShownConcat(AllEvents(segs[..n], p), EventsOf(segs[n], p), layer, come);
      NoSegment(segs[..n], p, layer, come);
    }
  }

  /** Segments in order are over before the next one begins. */
  lemma {:induction false} OrderedApart(segs: seq<CaptionSegment>, from: real, i: nat, j: nat)
    requires InOrder(segs, from) && i < j < |segs|
    ensures segs[i].endMs <= segs[j].startMs
    decreases j - i
  {
    if i < j - 1 {
      OrderedApart(segs, from, i, j - 1);
      assert InRange(segs[j - 1]);
    }
  }

  /** No two segments are on at one moment. */
  lemma OneSegment(segs: seq<CaptionSegment>, come: real -> bool, i: nat, j: nat)
    requires InOrder(segs, 0.0) && Moment(come) && i < |segs| && j < |segs| && i != j
    requires On(segs[j].startMs, segs[j].endMs, come)
    ensures !On(segs[i].startMs, segs[i].endMs, come)
  {
    hide Moment, InOrder;
    if i < j {
      OrderedApart(segs, 0.0, i, j);
      ComesBefore(come, segs[i].endMs, segs[j].startMs);
    } else {
      OrderedApart(segs, 0.0, j, i);
      if come(segs[i].startMs) { ComesBefore(come, segs[j].endMs, segs[i].startMs); }
    }
  }

  lemma InOrderRange(segs: seq<CaptionSegment>, i: nat)
    requires InOrder(segs, 0.0) && i < |segs|
    ensures InRange(segs[i])
  {
  }

  lemma QuietSegment(seg: CaptionSegment, p: Place, come: real -> bool)
    requires p.wordsPerLine > 0 && InRange(seg) && Moment(come) && !On(seg.startMs, seg.endMs, come)
    ensures Shown(EventsOf(seg, p), 0, come) == Shown(EventsOf(seg, p), 1, come) == []
  {
    hide InRange, Moment, On;
    SegmentShowsBase(seg, p, come);
    SegmentShowsNoWord(seg, p, come);
  }

  lemma OthersAreQuiet(segs: seq<CaptionSegment>, p: Place, come: real -> bool, j: nat)
    requires p.wordsPerLine > 0 && InOrder(segs, 0.0) && Moment(come) && j < |segs| && On(segs[j].startMs, segs[j].endMs, come)
    ensures Shown(AllEvents(segs, p), 0, come) == Shown(EventsOf(segs[j], p), 0, come)
    ensures Shown(AllEvents(segs, p), 1, come) == Shown(EventsOf(segs[j], p), 1, come)
  {
    hide InOrder, Moment, On, EventsOf, Shown, AllEvents, InRange;
    forall i | 0 <= i < |segs| && i != j
      ensures Shown(EventsOf(segs[i], p), 0, come) == [] && Shown(EventsOf(segs[i], p), 1, come) == []
    {
      OneSegment(segs, come, i, j);
      InOrderRange(segs, i);
      QuietSegment(segs[i], p, come);
    }
    OnlySegment(segs, p, 0, come, j);
    OnlySegment(segs, p, 1, come, j);
  }

  /** Outside all segments nothing is shown. */
  lemma NothingBetween(segs: seq<CaptionSegment>, p: Place, come: real -> bool)
    requires p.wordsPerLine > 0 && InOrder(segs, 0.0) && Moment(come)
    requires forall i | 0 <= i < |segs| :: !On(segs[i].startMs, segs[i].endMs, come)
    ensures Shown(AllEvents(segs, p), 0, come) == Shown(AllEvents(segs, p), 1, come) == []
  {
    hide InOrder, Moment, On, EventsOf, Shown, AllEvents, InRange;
    forall i | 0 <= i < |segs|
      ensures Shown(EventsOf(segs[i], p), 0, come) == [] && Shown(EventsOf(segs[i], p), 1, come) == []
    {
      InOrderRange(segs, i);
      QuietSegment(segs[i], p, come);
    }
    NoSegment(segs, p, 0, come);
    NoSegment(segs, p, 1, come);
  }

  /** There are no other layers. */
  lemma {:induction false} TwoLayers(segs: seq<CaptionSegment>, p: Place)
    requires p.wordsPerLine > 0
    ensures forall e | e in AllEvents(segs, p) :: e.layer == 0 || e.layer == 1
  {
    if segs != [] {
      hide Highlight, BaseText;
      var n := |segs| - 1;
      TwoLayers(segs[..n], p);
      IntervalsOfWords(segs[n]);
      forall k | 0 < k < |EventsOf(segs[n], p)| ensures EventsOf(segs[n], p)[k].layer == 1 { EventsAre(segs[n], p, k); }
    }
  }

  // ----- the words of a base line -----

  /** The words of some lines of text: each line cut at its blanks. */
  function CutWords(lines: seq<string>): seq<string> {
    if lines == [] then [] else Split(lines[0], " ") + CutWords(lines[1..])
  }

  function Flat(lines: seq<seq<string>>): seq<string> { if lines == [] then [] else lines[0] + Flat(lines[1..]) }

  lemma {:induction false} LinesFlat(words: seq<string>, i: nat, wordsPerLine: nat)
    requires wordsPerLine > 0 && i <= |words|
    ensures Flat(LinesFrom(words, i, wordsPerLine)) == words[i..]
    decreases |words| - i
  {
    if i < |words| {
      var n := Min(i + wordsPerLine, |words|);
      LinesStep(words, i, wordsPerLine);
      if i + wordsPerLine <= |words| { LinesFlat(words, i + wordsPerLine, wordsPerLine); }
      assert words[i..n] + words[n..] == words[i..];
    }
  }

  lemma LinesStep(words: seq<string>, i: nat, wordsPerLine: nat)
    requires wordsPerLine > 0 && i < |words|
    ensures var first, rest := words[i..Min(i + wordsPerLine, |words|)], LinesFrom(words, i + wordsPerLine, wordsPerLine);
      LinesFrom(words, i, wordsPerLine) == [first] + rest && first != []
      && Flat([first] + rest) == first + Flat(rest) && (i + wordsPerLine > |words| ==> rest == [])
  {
    var first, rest := words[i..Min(i + wordsPerLine, |words|)], LinesFrom(words, i + wordsPerLine, wordsPerLine);
    assert ([first] + rest)[1..] == rest;
  }

  /** Lines of words without blanks are read word by word. */
  lemma {:induction false} LinesCut(lines: seq<seq<string>>)
    requires forall j | 0 <= j < |lines| :: lines[j] != [] && AllLack(lines[j], ' ')
    ensures CutWords(JoinLines(lines)) == Flat(lines)
  {
    if lines != [] {
      hide AllLack, Join, Split;
      LinesCut(lines[1..]);
      assert JoinLines(lines)[1..] == JoinLines(lines[1..]);
      LackingCut(lines[0], " ");
      JoinSplit(lines[0], " ");
    }
  }

  lemma {:induction false} LinesOfLacking(words: seq<string>, i: nat, wordsPerLine: nat, c: char, j: nat)
    requires wordsPerLine > 0 && AllLack(words, c) && j < |LinesFrom(words, i, wordsPerLine)|
    ensures LinesFrom(words, i, wordsPerLine)[j] != [] && AllLack(LinesFrom(words, i, wordsPerLine)[j], c)
    decreases |words| - i
  {
    if j > 0 { LinesOfLacking(words, i + wordsPerLine, wordsPerLine, c, j - 1); }
  }

  /** The text of a base event, cut at its line breaks and blanks, is the words of the segment in order, and
      it has the lines of the canvas. */
  lemma BaseSays(seg: CaptionSegment, p: Place)
    requires p.wordsPerLine > 0 && seg.words != [] && AllLack(Escaped(seg.words), ' ')
    ensures CutWords(Split(Base(seg, p).text, "\\N")) == Escaped(seg.words)
    ensures Split(Base(seg, p).text, "\\N") == JoinLines(Lines(Escaped(seg.words), p.wordsPerLine))
  {
    hide AllLack, Join, Split, Escaped;
    var words := Escaped(seg.words);
    var lines := Lines(words, p.wordsPerLine);
    assert |words| == |seg.words| by { EscapedLength(seg.words); }
    LinesStep(words, 0, p.wordsPerLine);
    EscapedLackSlash(seg.words);
    forall j | 0 <= j < |lines| ensures lines[j] != [] && AllLack(lines[j], ' ') && AllLack(lines[j], '\\') {
      LinesOfLacking(words, 0, p.wordsPerLine, ' ', j);
      LinesOfLacking(words, 0, p.wordsPerLine, '\\', j);
    }
    assert AllLack(JoinLines(lines), '\\') by { JoinedLack(lines); }
    LackingCut(JoinLines(lines), "\\N");
    JoinSplit(JoinLines(lines), "\\N");
    LinesCut(lines);
    LinesFlat(words, 0, p.wordsPerLine);
    assert words[0..] == words;
  }

  lemma EscapedLength(words: seq<CaptionWord>)
    ensures |Escaped(words)| == |words|
  {
  }

  lemma EscapedLackSlash(words: seq<CaptionWord>)
    ensures AllLack(Escaped(words), '\\')
  {
    hide EscapeAssText;
    forall k | 0 <= k < |words| ensures Lacks(Escaped(words)[k], '\\') { EscapeIsHarmless(Trim(words[k].word)); }
  }

  lemma JoinedLack(lines: seq<seq<string>>)
    requires forall j | 0 <= j < |lines| :: AllLack(lines[j], '\\')
    ensures AllLack(JoinLines(lines), '\\')
  {
    hide Join;
    forall j | 0 <= j < |lines| ensures Lacks(JoinLines(lines)[j], '\\') {
      assert AllLack(lines[j], '\\');
      JoinLacks(lines[j], " ", '\\');
    }
  }

  // ----- the screen at a moment -----

  /** The times up to `t`. */
  function UpTo(t: real): real -> bool { (x: real) => x <= t }

  lemma UpToIsMoment(t: real, a: real, b: real)
    ensures Moment(UpTo(t)) && (On(a, b, UpTo(t)) <==> a <= t < b)
  {
  }

  /** A base line says the words of its segment, or its text if it has none. */
  ghost predicate SaysSegment(e: Event, seg: CaptionSegment, p: Place) {
    && e.layer == 0 && e.startMs == seg.startMs && e.endMs == seg.endMs && e.style == "Default" && e.x == p.posX && e.y == p.posY
    && (seg.words == [] ==> e.text == EscapeAssText(seg.text))
    && (seg.words != [] && AllLack(Escaped(seg.words), ' ') ==> CutWords(Split(e.text, "\\N")) == Escaped(seg.words))
  }

  lemma BaseSaysSegment(seg: CaptionSegment, p: Place)
    requires p.wordsPerLine > 0
    ensures SaysSegment(Base(seg, p), seg, p)
  {
    hide AllLack, CutWords, Split, Escaped, EscapeAssText, JoinLines;
    if seg.words != [] && AllLack(Escaped(seg.words), ' ') { BaseSays(seg, p); }
    NoWordsText(seg, p);
  }

  lemma NoWordsText(seg: CaptionSegment, p: Place)
    requires p.wordsPerLine > 0
    ensures seg.words == [] ==> Base(seg, p).text == EscapeAssText(seg.text)
  {
  }

  /** A highlight says the active word, where the frame of the moment lights it. */
  ghost predicate SaysActive(e: Event, seg: CaptionSegment, p: Place, t: real)
    requires p.wordsPerLine > 0
  {
    && e.layer == 1 && e.style == "Highlight" && Active(seg, t) < |seg.words|
    && e.text == EscapeAssText(Trim(seg.words[Active(seg, t)].word))
    && var shown := Showing(seg, p.wordsPerLine, t);
    var lines := Lines(Escaped(seg.words), p.wordsPerLine);
    && shown.Words? && shown.lit < |lines| && shown.slot < |lines[shown.lit]| && e.text == lines[shown.lit][shown.slot]
    && e.x == Round(p.posX as real + p.Offset(lines[shown.lit], shown.slot)) && e.y == p.LineY(shown.lit, |lines|)
  }

  lemma HighlightSaysActive(seg: CaptionSegment, p: Place, t: real, i: nat)
    requires p.wordsPerLine > 0 && InRange(seg) && seg.words != [] && seg.startMs <= t < seg.endMs
    requires OfWords(Intervals(seg), seg) && i < |Intervals(seg)| && Intervals(seg)[i].Covers(t)
    ensures SaysActive(Highlights(seg, p, Intervals(seg))[i], seg, p, t)
  {
    hide Highlight, InRange, Escaped, EscapeAssText;
    var k := EventLightsSameWord(seg, p, t);
    HighlightTimes(seg, p, i);
    HighlightTimes(seg, p, k);
    OnlyOneHighlight(seg, p, t, i, k);
  }

  /** At every moment of a segment the file shows one base line, which says all its words, and, if it has
      words, one highlight, which says the active one. */
  lemma ScreenAtMoment(segs: seq<CaptionSegment>, p: Place, t: real, j: nat)
    requires p.wordsPerLine > 0 && InOrder(segs, 0.0) && j < |segs| && segs[j].startMs <= t < segs[j].endMs
    ensures var es := Shown(AllEvents(segs, p), 0, UpTo(t)); |es| == 1 && SaysSegment(es[0], segs[j], p)
    ensures var es := Shown(AllEvents(segs, p), 1, UpTo(t));
      if segs[j].words == [] then es == [] else |es| == 1 && SaysActive(es[0], segs[j], p, t)
  {
    hide InOrder, Moment, On, EventsOf, Shown, AllEvents, InRange, SaysSegment, SaysActive, UpTo, Base, Highlight;
    var seg, come := segs[j], UpTo(t);
    UpToIsMoment(t, seg.startMs, seg.endMs);
    InOrderRange(segs, j);
    OthersAreQuiet(segs, p, come, j);
    SegmentShowsBase(seg, p, come);
    BaseSaysSegment(seg, p);
    if seg.words == [] {
      SegmentShowsNoWord(seg, p, come);
    } else {
      var i := SegmentShowsWord(seg, p, come);
      UpToIsMoment(t, Intervals(seg)[i].startMs, Intervals(seg)[i].endMs);
      HighlightSaysActive(seg, p, t, i);
    }
  }

  /** Between the segments the screen is empty. */
  lemma ScreenBetween(segs: seq<CaptionSegment>, p: Place, t: real)
    requires p.wordsPerLine > 0 && InOrder(segs, 0.0)
    requires forall i | 0 <= i < |segs| :: !(segs[i].startMs <= t < segs[i].endMs)
    ensures forall e | e in AllEvents(segs, p) :: e.layer == 0 || e.layer == 1
    ensures Shown(AllEvents(segs, p), 0, UpTo(t)) == Shown(AllEvents(segs, p), 1, UpTo(t)) == []
  {
    hide InOrder, Moment, On, Shown, AllEvents, UpTo;
    UpToIsMoment(t, 0.0, 0.0);
    forall i | 0 <= i < |segs| ensures !On(segs[i].startMs, segs[i].endMs, UpTo(t)) {
      UpToIsMoment(t, segs[i].startMs, segs[i].endMs);
    }
    NothingBetween(segs, p, UpTo(t));
    TwoLayers(segs, p);
  }

  // ----- the screen by the lines of the file -----

  /** The lines that a reader of the file puts on the screen at a hundredth of a second. */
  function HeardAt(lines: seq<string>, layer: nat, at: int): seq<Heard> {
    if lines == [] then [] else
    var h := ReadEvent(lines[|lines| - 1]);
    HeardAt(lines[..|lines| - 1], layer, at)
    + if h.Some? && h.value.layer == layer && h.value.start <= at < h.value.end then [h.value] else []
  }

  lemma {:induction false} HeardConcat(a: seq<string>, b: seq<string>, layer: nat, at: int)
    ensures HeardAt(a + b, layer, at) == HeardAt(a, layer, at) + HeardAt(b, layer, at)
  {
    hide ReadEvent;
    if b == [] {
      assert a + b == a;
    } else {
      HeardConcat(a, b[..|b| - 1], layer, at);
      assert (a + b)[..|a + b| - 1] == a + b[..|b| - 1];
    }
  }

  lemma NothingHeard(layer: nat, at: int)
    ensures HeardAt([""], layer, at) == HeardAt([], layer, at) == []
  {
    assert Find("", ",") == None;
    assert [""][..0] == [];
  }

  /** The times that are rounded to `at` or before it. */
  function RoundedTo(at: int): real -> bool { (x: real) => Centis(x) <= at }

  lemma RoundedIsMoment(at: int, a: real, b: real)
    ensures Moment(RoundedTo(at)) && (On(a, b, RoundedTo(at)) <==> Centis(a) <= at < Centis(b))
  {
    hide Centis;
    forall x: real, y: real | x <= y && RoundedTo(at)(y) ensures RoundedTo(at)(x) { AssTimesInOrder(x, y); }
  }

  function AllHeard(es: seq<Event>): seq<Heard> { seq(|es|, i requires 0 <= i < |es| => HeardOf(es[i])) }

  lemma {:induction false} HeardIsShown(es: seq<Event>, layer: nat, at: int)
    requires forall k | 0 <= k < |es| :: ReadEvent(EventLine(es[k])) == Some(HeardOf(es[k]))
    ensures HeardAt(EventLines(es), layer, at) == AllHeard(Shown(es, layer, RoundedTo(at)))
  {
    hide ReadEvent, EventLine, On, Centis;
    if es != [] {
      var n := |es| - 1;
      HeardIsShown(es[..n], layer, at);
      assert EventLines(es)[..n] == EventLines(es[..n]);
      RoundedIsMoment(at, es[n].startMs, es[n].endMs);
      assert es[n] == es[n];
    }
  }

  /** By the lines of the file: at every hundredth of a rounded segment one base line is on, and, if it has
      words, one highlight, which says the word whose interval has begun by then and not ended, rounded. */
  lemma FileAtMoment(segs: seq<CaptionSegment>, p: Place, header: seq<string>, at: int, j: nat) returns (i: nat)
    requires p.wordsPerLine > 0 && InOrder(segs, 0.0) && header != [] && NoBreaks(header)
    requires j < |segs| && Centis(segs[j].startMs) <= at < Centis(segs[j].endMs)
    ensures var lines := Split(AssFile(header, AllEvents(segs, p)), "\n");
      && |header| <= |lines|
      && HeardAt(lines[|header|..], 0, at) == [HeardOf(Base(segs[j], p))]
      && if segs[j].words == [] then HeardAt(lines[|header|..], 1, at) == [] else
         && OfWords(Intervals(segs[j]), segs[j]) && i < |Intervals(segs[j])|
         && var iv := Intervals(segs[j])[i];
         && Centis(iv.startMs) <= at < Centis(iv.endMs)
         && HeardAt(lines[|header|..], 1, at) == [HeardOf(Highlights(segs[j], p, Intervals(segs[j]))[i])]
  {
    hide InOrder, Moment, On, EventsOf, Shown, AllEvents, InRange, RoundedTo, Base, Highlight, Centis, Split, EventLine, ReadEvent, NoBreaks;
    var seg, come := segs[j], RoundedTo(at);
    RoundedIsMoment(at, seg.startMs, seg.endMs);
    InOrderRange(segs, j);
    OthersAreQuiet(segs, p, come, j);
    SegmentShowsBase(seg, p, come);
    i := 0;
    if seg.words == [] {
      SegmentShowsNoWord(seg, p, come);
    } else {
      i := SegmentShowsWord(seg, p, come);
      RoundedIsMoment(at, Intervals(seg)[i].startMs, Intervals(seg)[i].endMs);
    }
    FileHeard(segs, p, header, 0, at);
    FileHeard(segs, p, header, 1, at);
  }

  lemma FileHeard(segs: seq<CaptionSegment>, p: Place, header: seq<string>, layer: nat, at: int)
    requires p.wordsPerLine > 0 && header != [] && NoBreaks(header)
    ensures var lines := Split(AssFile(header, AllEvents(segs, p)), "\n");
      |header| <= |lines| && HeardAt(lines[|header|..], layer, at) == AllHeard(Shown(AllEvents(segs, p), layer, RoundedTo(at)))
  {
    hide AllEvents, Shown, RoundedTo, Split, EventLine, ReadEvent, NoBreaks, HeardOf, AssFile, HeardAt;
    var es := AllEvents(segs, p);
    var lines := Split(AssFile(header, es), "\n");
    FileReadBack(segs, p, header);
    forall k | 0 <= k < |es| ensures ReadEvent(EventLine(es[k])) == Some(HeardOf(es[k])) {
      assert lines[|header| + k] == EventLines(es)[k];
    }
    HeardIsShown(es, layer, at);
    assert lines[|header|..] == Body(EventLines(es));
    BodyHeard(EventLines(es), layer, at);
  }

  /** The empty lines after the events say nothing. */
  lemma BodyHeard(texts: seq<string>, layer: nat, at: int)
    ensures HeardAt(Body(texts), layer, at) == HeardAt(texts, layer, at)
  {
    hide ReadEvent, HeardAt;
    NothingHeard(layer, at);
    HeardConcat(if texts == [] then [""] else texts, [""], layer, at);
  }
}
