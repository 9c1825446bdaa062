/** The price guard of fa-amounts.util.ts: sentences with an amount that is not
    allowed are dropped, and what is left holds allowed amounts only. */
module PriceGuard {
  import opened JsText
  import opened FaAmounts
  import opened AmountSplits
  import opened PriceLeaks

  // ----- sentences -----

  /** The first place from `p` on where white space follows a stop. */
  function CutFrom(text: string, p: nat): (r: Option<nat>)
    ensures r.Some? ==> 0 < r.value < |text| && IsStop(text[r.value - 1]) && IsSpace(text[r.value])
    decreases |text| - p
  {
    if p >= |text| then None
    else if p > 0 && IsStop(text[p - 1]) && IsSpace(text[p]) then Some(p)
    else CutFrom(text, p + 1)
  }

  /** `split` at the white space after a stop. */
  function Sentences(text: string): (parts: seq<string>)
    ensures parts != []
    decreases |text|
  {
    match CutFrom(text, 0)
    case None => [text]
    case Some(p) =>
      TrimStartShortens(text[p..]);
      [text[..p]] + Sentences(TrimStart(text[p..]))
  }

  /** The amounts that are not allowed, each once. */
  function NotAllowed(amounts: seq<int>, allowed: set<int>): (r: seq<int>)
    ensures r == [] <==> forall i | 0 <= i < |amounts| :: amounts[i] in allowed
    decreases |amounts|
  {
    if amounts == [] then [] else
    var before, a := NotAllowed(amounts[..|amounts| - 1], allowed), amounts[|amounts| - 1];
    assert forall i | 0 <= i < |amounts| - 1 :: amounts[..|amounts| - 1][i] == amounts[i];
    if a in allowed || a in before then before else before + [a]
  }

  function FindUnauthorizedAmounts(text: string, allowed: set<int>): seq<int> { NotAllowed(Amounts(text), allowed) }

  function Kept(parts: seq<string>, allowed: set<int>): seq<string> {
    if parts == [] then []
    else (if FindUnauthorizedAmounts(parts[0], allowed) == [] then [parts[0]] else []) + Kept(parts[1..], allowed)
  }

  datatype Guarded = Guarded(text: string, changed: bool)

  function StripUnauthorizedPriceSentences(text: string, allowed: set<int>, card: string): Guarded {
    var parts := Sentences(text);
    var kept := Kept(parts, allowed);
    if |kept| == |parts| then Guarded(text, false) else Guarded(Trim(Join(kept + [card], " ")), true)
  }

  // ----- the guard -----

  function AllAmounts(parts: seq<string>): seq<int> {
    if parts == [] then [] else Amounts(parts[0]) + AllAmounts(parts[1..])
  }

  /** Every part but the last is complete: no price is cut at a line break. */
  predicate AllComplete(parts: seq<string>) { forall i | 0 <= i < |parts| - 1 :: Complete(parts[i]) }

  /** A text that is cut: its first sentence, and the sentences of the rest. */
  lemma SentencesCut(text: string, p: nat)
    requires CutFrom(text, 0) == Some(p)
    ensures p <= |text| && text[..p] + text[p..] == text && |TrimStart(text[p..])| < |text|
    ensures Sentences(text) == [text[..p]] + Sentences(TrimStart(text[p..]))
    ensures Sentences(text)[0] == text[..p] && Sentences(text)[1..] == Sentences(TrimStart(text[p..]))
  {
    hide CutFrom;
    TrimStartShortens(text[p..]);
    assert ([text[..p]] + Sentences(TrimStart(text[p..])))[1..] == Sentences(TrimStart(text[p..]));
  }

  lemma SentencesUncut(text: string)
    requires CutFrom(text, 0).None?
    ensures Sentences(text) == [text] && AllAmounts([text]) == Amounts(text)
  {
    hide Amounts;
    assert AllAmounts([text]) == Amounts(text) + AllAmounts([]);
  }

  lemma CompleteRest(parts: seq<string>)
    requires |parts| > 1 && AllComplete(parts)
    ensures Complete(parts[0]) && AllComplete(parts[1..])
  {
    hide Complete;
    forall i | 0 <= i < |parts[1..]| - 1 ensures Complete(parts[1..][i]) { assert Complete(parts[i + 1]); }
  }

  lemma FirstComplete(part: string, rest: seq<string>)
    requires Complete(part) && AllComplete(rest)
    ensures AllComplete([part] + rest)
  {
    hide Complete;
  }

  lemma {:induction false} SentencesAdd(text: string)
    requires AllComplete(Sentences(text))
    ensures Amounts(text) == AllAmounts(Sentences(text))
    decreases |text|
  {
    hide Amounts, CutFrom, Sentences, Complete, AllComplete;
    match CutFrom(text, 0)
    case None => SentencesUncut(text);
    case Some(p) =>
      SentencesCut(text, p);
      CompleteRest(Sentences(text));
      SentencesAdd(TrimStart(text[p..]));
      CompleteAdds(text[..p], text[p..]) by { SpaceAtCut(text, p); }
      AmountsTrimStart(text[p..]);
  }

  lemma SpaceAtCut(text: string, p: nat)
    requires CutFrom(text, 0) == Some(p)
    ensures Spaced(text[p..])
  {
  }

  /** Every part but the last is sealed: no text behind it makes an amount of its own with it. */
  predicate AllSealed(parts: seq<string>) { forall i | 0 <= i < |parts| - 1 :: Sealed(parts[i]) }

  ghost predicate Among(xs: seq<int>, ys: seq<int>) { forall x | x in xs :: x in ys }

  lemma FromIsAmong(whole: seq<int>, xs: seq<int>, ys: seq<int>, zs: seq<int>)
    requires From(whole, xs, ys) && Among(ys, zs)
    ensures Among(whole, xs + zs)
  {
    forall x | x in whole ensures x in xs + zs {
      FromHas(whole, xs, ys, x);
    }
  }

  lemma SealedRest(parts: seq<string>)
    requires |parts| > 1 && AllSealed(parts)
    ensures Sealed(parts[0]) && AllSealed(parts[1..])
  {
    hide Sealed;
    forall i | 0 <= i < |parts[1..]| - 1 ensures Sealed(parts[1..][i]) { assert Sealed(parts[i + 1]); }
  }

  /** Every amount of a text of sealed sentences is an amount of one of them. */
  lemma {:induction false} SealedSentences(text: string)
    requires AllSealed(Sentences(text))
    ensures Among(Amounts(text), AllAmounts(Sentences(text)))
    decreases |text|
  {
    hide Amounts, Sealed, AllSealed, From, Among, CutFrom, Sentences;
    match CutFrom(text, 0)
    case None =>
      SentencesUncut(text);
      AmongItself(Amounts(text), AllAmounts([text]));
    case Some(p) =>
      var rest := TrimStart(text[p..]);
      SentencesCut(text, p);
      SealedRest(Sentences(text));
      SealedSentences(rest);
      SealedAdds(text[..p], text[p..]) by { SealedMeans(text[..p]); SpaceAtCut(text, p); }
      AmountsTrimStart(text[p..]);
      FromIsAmong(Amounts(text), Amounts(text[..p]), Amounts(rest), AllAmounts(Sentences(rest)));
  }

  lemma SealedMeans(x: string)
    ensures Sealed(x) <==> EndsStop(x) && !Leaks(x)
  {
  }

  lemma AmongItself(xs: seq<int>, ys: seq<int>)
    requires xs == ys
    ensures Among(xs, ys)
  {
  }

  lemma {:induction false} KeptSealed(parts: seq<string>, allowed: set<int>)
    requires AllSealed(parts)
    ensures AllSealed(Kept(parts, allowed)) && |Kept(parts, allowed)| <= |parts|
  {
    if |parts| > 1 {
      hide FindUnauthorizedAmounts, Sealed;
      SealedRest(parts);
      KeptSealed(parts[1..], allowed);
    }
  }

  ghost predicate AllIn(amounts: seq<int>, allowed: set<int>) { forall i | 0 <= i < |amounts| :: amounts[i] in allowed }

  lemma {:induction false} KeptAllowed(parts: seq<string>, allowed: set<int>)
    ensures AllIn(AllAmounts(Kept(parts, allowed)), allowed)
  {
    hide Amounts, NotAllowed, AllIn;
    if parts == [] {
      NoneIn(allowed);
    } else {
      var rest := Kept(parts[1..], allowed);
      KeptAllowed(parts[1..], allowed);
      if FindUnauthorizedAmounts(parts[0], allowed) == [] {
        FoundNone(parts[0], allowed);
        assert ([parts[0]] + rest)[1..] == rest;
        BothIn(Amounts(parts[0]), AllAmounts(rest), allowed);
      } else {
        assert [] + rest == rest;
      }
    }
  }

  lemma NoneIn(allowed: set<int>)
    ensures AllIn(AllAmounts([]), allowed)
  {
  }

  lemma FoundNone(text: string, allowed: set<int>)
    ensures FindUnauthorizedAmounts(text, allowed) == [] <==> AllIn(Amounts(text), allowed)
  {
    hide Amounts;
  }

  lemma BothIn(a: seq<int>, b: seq<int>, allowed: set<int>)
    ensures AllIn(a + b, allowed) <==> AllIn(a, allowed) && AllIn(b, allowed)
  {
    forall i | 0 <= i < |a| ensures (a + b)[i] == a[i] {}
    forall i | 0 <= i < |b| ensures (a + b)[|a| + i] == b[i] {}
  }

  lemma {:induction false} AllKept(parts: seq<string>, allowed: set<int>)
    ensures |Kept(parts, allowed)| <= |parts|
    ensures |Kept(parts, allowed)| == |parts| ==> Kept(parts, allowed) == parts
  {
    hide Kept;
    if parts == [] {
      NothingKept(allowed);
    } else {
      AllKept(parts[1..], allowed);
      KeptNext(parts, allowed);
      AllOrFewer(parts[0], parts[1..], Kept(parts[1..], allowed), Kept(parts, allowed));
      assert parts == [parts[0]] + parts[1..];
    }
  }

  lemma NothingKept(allowed: set<int>)
    ensures Kept([], allowed) == []
  {
    hide FindUnauthorizedAmounts;
  }

  lemma AllOrFewer<T>(x: T, xs: seq<T>, rest: seq<T>, kept: seq<T>)
    requires |rest| <= |xs| && (|rest| == |xs| ==> rest == xs) && (kept == [x] + rest || kept == rest)
    ensures |kept| <= 1 + |xs| && (|kept| == 1 + |xs| ==> kept == [x] + xs)
  {
  }

  lemma KeptNext(parts: seq<string>, allowed: set<int>)
    requires parts != []
    ensures var rest := Kept(parts[1..], allowed); Kept(parts, allowed) == [parts[0]] + rest || Kept(parts, allowed) == rest
  {
    hide FindUnauthorizedAmounts;
    assert [] + Kept(parts[1..], allowed) == Kept(parts[1..], allowed);
  }

  /** A card line that brings no amount and cannot complete one. */
  predicate QuietCard(card: string) { Amounts(card) == [] && !Opens(Normalize(card)) }

  lemma SpacedCard(card: string)
    requires QuietCard(card)
    ensures Amounts(" " + card) == [] && !Opens(Normalize(" " + card))
  {
    hide Amounts, Normalize, FirstWord;
    AmountsSpace(' ', card);
    NormalizeSpace(' ', card);
    assert ([Blank(' ')] + Normalize(card))[1..] == Normalize(card);
  }

  lemma {:induction false} JoinedAmounts(kept: seq<string>, card: string)
    requires AllSealed(kept) && QuietCard(card)
    ensures Among(Amounts(Join(kept + [card], " ")), AllAmounts(kept))
  {
    hide Amounts, Sealed, Opens, From, Among;
    if kept == [] {
      assert kept + [card] == [card];
      AmongItself(Amounts(card), []);
    } else if |kept| == 1 {
      assert kept + [card] == [kept[0], card] && [kept[0], card][1..] == [card];
      assert kept[0] + " " + card == kept[0] + (" " + card);
      SpacedCard(card);
      AmountsQuiet(kept[0], " " + card);
      assert AllAmounts(kept) == Amounts(kept[0]) + AllAmounts(kept[1..]) && kept[1..] == [];
      AmongItself(Amounts(kept[0]), AllAmounts(kept));
    } else {
      var x, rest := kept[0], Join(kept[1..] + [card], " ");
      SealedRest(kept);
      JoinedAmounts(kept[1..], card);
      assert (kept + [card])[1..] == kept[1..] + [card];
      assert x + " " + rest == x + (" " + rest);
      SealedAdds(x, " " + rest) by { SealedMeans(x); }
      AmountsSpace(' ', rest);
      assert [' '] + rest == " " + rest;
      FromIsAmong(Amounts(x + (" " + rest)), Amounts(x), Amounts(rest), AllAmounts(kept[1..]));
    }
  }

  lemma AmongIn(xs: seq<int>, ys: seq<int>, allowed: set<int>)
    requires Among(xs, ys) && AllIn(ys, allowed)
    ensures AllIn(xs, allowed)
  {
    forall i | 0 <= i < |xs| ensures xs[i] in allowed {
      AmongHas(xs, ys, xs[i]);
      var j :| 0 <= j < |ys| && ys[j] == xs[i];
    }
  }

  lemma AmongHas(xs: seq<int>, ys: seq<int>, x: int)
    requires Among(xs, ys) && x in xs
    ensures x in ys
  {
  }

  /** The guard does its work: when every sentence but the last is sealed and the card line
      is quiet, every amount in the returned text is allowed. */
  lemma PriceGuardSound(text: string, allowed: set<int>, card: string)
    requires AllSealed(Sentences(text)) && QuietCard(card)
    ensures AllIn(Amounts(StripUnauthorizedPriceSentences(text, allowed, card).text), allowed)
  {
    hide Amounts, QuietCard, Trim, Join, AllSealed, AllIn, Among;
    var parts := Sentences(text);
    var kept := Kept(parts, allowed);
    KeptAllowed(parts, allowed);
    AllKept(parts, allowed);
    if |kept| == |parts| {
      SealedSentences(text);
      AmongIn(Amounts(text), AllAmounts(parts), allowed);
    } else {
      KeptSealed(parts, allowed);
      JoinedAmounts(kept, card);
      AmountsTrim(Join(kept + [card], " "));
      AmongIn(Amounts(Join(kept + [card], " ")), AllAmounts(kept), allowed);
    }
  }

  /** A text without line breaks is only cut after marks. */
  lemma {:induction false} OneLineIsComplete(text: string)
    requires Lacks(text, '\n')
    ensures AllComplete(Sentences(text))
    decreases |text|
  {
    hide Complete, AllComplete, CutFrom, Sentences;
    match CutFrom(text, 0)
    case None => OnePartIsComplete(text);
    case Some(p) =>
      var rest := TrimStart(text[p..]);
      SentencesCut(text, p);
      RestLacks(text, p);
      OneLineIsComplete(rest);
      MarkIsComplete(text[..p]);
      FirstComplete(text[..p], Sentences(rest));
  }

  lemma OnePartIsComplete(text: string)
    requires CutFrom(text, 0).None?
    ensures AllComplete(Sentences(text))
  {
  }

  lemma RestLacks(text: string, p: nat)
    requires p <= |text| && Lacks(text, '\n')
    ensures Lacks(TrimStart(text[p..]), '\n')
  {
    hide TrimStart;
    var rest := TrimStart(text[p..]);
    TrimStartIsSuffix(text[p..]);
    assert forall i | 0 <= i < |rest| :: rest[i] == text[|text| - |rest| + i];
  }

  /** Complete sentences are sealed. */
  lemma {:induction false} CompleteSentencesAreSealed(text: string)
    requires AllComplete(Sentences(text))
    ensures AllSealed(Sentences(text))
    decreases |text|
  {
    hide Complete, Sealed, AllComplete, CutFrom, Sentences;
    match CutFrom(text, 0)
    case None => SentencesUncut(text);
    case Some(p) =>
      var rest := TrimStart(text[p..]);
      SentencesCut(text, p);
      CompleteRest(Sentences(text));
      CompleteSentencesAreSealed(rest);
      CompleteIsSealed(text[..p]);
      forall i | 0 <= i < |Sentences(text)| - 1 ensures Sealed(Sentences(text)[i]) {
        if i > 0 { assert Sentences(text)[i] == Sentences(rest)[i - 1]; }
      }
  }

  // ----- the guard, line by line -----

  lemma {:induction false} CutAtEnd(x: string, y: string, p: nat)
    requires EndsStop(x) && p <= |x| && CutFrom(x, p) == None && y != "" && IsSpace(y[0])
    ensures CutFrom(x + y, p) == Some(|x|)
    decreases |x| - p
  {
    if p < |x| {
      CutAtEnd(x, y, p + 1);
      if p > 0 { assert (x + y)[p - 1] == x[p - 1] && (x + y)[p] == x[p]; }
    } else {
      assert (x + y)[p - 1] == x[p - 1] && (x + y)[p] == y[0];
    }
  }

  lemma {:induction false} StillHasNoCut(z: string, p: nat)
    requires Still(z)
    ensures CutFrom(z, p) == None
    decreases |z| - p
  {
    if p < |z| { StillHasNoCut(z, p + 1); }
  }

  /** `x` is one line or sentence of a longer text. */
  predicate Line(x: string) { EndsStop(x) && CutFrom(x, 0) == None }

  /** White space, and sealed sentences behind it. */
  predicate Follows(sep: string, rest: string) {
    sep != "" && AllSpaces(sep) && rest != "" && !IsSpace(rest[0]) && AllSealed(Sentences(rest))
  }

  lemma LineAndRest(x: string, sep: string, rest: string)
    requires Line(x) && sep != "" && AllSpaces(sep) && rest != "" && !IsSpace(rest[0])
    ensures Sentences(x + (sep + rest)) == [x] + Sentences(rest)
  {
    hide CutFrom;
    var text := x + (sep + rest);
    CutAtEnd(x, sep + rest, 0);
    TrimStartGoes(sep, rest);
    assert text[..|x|] == x && text[|x|..] == sep + rest;
  }

  lemma LineIsGuarded(x: string, sep: string, rest: string, allowed: set<int>, card: string)
    requires Line(x) && !Leaks(x) && Follows(sep, rest) && QuietCard(card)
    ensures AllIn(Amounts(StripUnauthorizedPriceSentences(x + (sep + rest), allowed, card).text), allowed)
  {
    hide Amounts, Leaks, QuietCard, StripUnauthorizedPriceSentences, CutFrom, Sentences;
    LineAndRest(x, sep, rest);
    var parts := [x] + Sentences(rest);
    forall i | 0 <= i < |parts| - 1 ensures Sealed(parts[i]) {
      if i > 0 { assert parts[i] == Sentences(rest)[i - 1] && Sealed(Sentences(rest)[i - 1]); }
    }
    PriceGuardSound(x + (sep + rest), allowed, card);
  }

  lemma NotAmong(whole: seq<int>, xs: seq<int>, ys: seq<int>)
    requires !From(whole, xs, ys)
    ensures !AllIn(whole, (set x | x in xs) + set y | y in ys)
    ensures AllIn(xs, (set x | x in xs) + set y | y in ys) && AllIn(ys, (set x | x in xs) + set y | y in ys)
  {
    var x :| x in whole && !(x in xs || x in ys);
    var i :| 0 <= i < |whole| && whole[i] == x;
    assert whole[i] !in (set x | x in xs) + set y | y in ys;
  }

  lemma LeakDefeatsGuard(x: string, card: string) returns (rest: string, allowed: set<int>)
    requires Line(x) && Leaks(x)
    ensures Follows(" ", rest)
    ensures !AllIn(Amounts(StripUnauthorizedPriceSentences(x + (" " + rest), allowed, card).text), allowed)
  {
    hide Amounts, Leaks, From, StripUnauthorizedPriceSentences, FindUnauthorizedAmounts, CutFrom, AllIn, PlainText, Still;
    rest := LeakFails(x, ' ');
    assert [' '] + rest == " " + rest;
    AmountsSpace(' ', rest);
    QuietIsOne(rest);
    LineAndRest(x, " ", rest);
    var xs, ys := Amounts(x), Amounts(rest);
    allowed := (set x | x in xs) + set y | y in ys;
    NotAmong(Amounts(x + (" " + rest)), xs, ys);
    FoundNone(x, allowed);
    FoundNone(rest, allowed);
    Stripped(x + (" " + rest), allowed, card, x, rest, true, true);
  }

  lemma QuietIsOne(z: string)
    requires Quiet(z)
    ensures Sentences(z) == [z] && Follows(" ", z)
  {
    hide PlainText;
    StillHasNoCut(z, 0);
  }

  /** The guard, exactly, line by line: whatever white space and sealed sentences follow a line,
      and whatever is allowed, the returned text holds allowed amounts only, if and only if the
      line does not leak. */
  lemma GuardRule(x: string, card: string)
    requires Line(x) && QuietCard(card)
    ensures (forall sep: string, rest: string, allowed: set<int> | Follows(sep, rest) ::
              AllIn(Amounts(StripUnauthorizedPriceSentences(x + (sep + rest), allowed, card).text), allowed))
      <==> !Leaks(x)
  {
    hide Amounts, Leaks, StripUnauthorizedPriceSentences, AllIn, Line, QuietCard, Follows;
    if Leaks(x) {
      var rest, allowed := LeakDefeatsGuard(x, card);
    } else {
      forall sep: string, rest: string, allowed: set<int> | Follows(sep, rest)
        ensures AllIn(Amounts(StripUnauthorizedPriceSentences(x + (sep + rest), allowed, card).text), allowed)
      {
        LineIsGuarded(x, sep, rest, allowed, card);
      }
    }
  }

  // ----- when the guard fails -----

  lemma OpensMoney(s: string)
    requires Opens(s)
    ensures ReadMoney(s).Some()
  {
    TrimStartTwice(s);
  }

  /** A bare number becomes an amount when the text behind it opens with a unit or currency. */
  lemma FiveOpens(y: string)
    requires Spaced(y) && Opens(Normalize(y))
    ensures Amounts("5" + y) != []
  {
    hide Normalize, Scan, Groups, Sums, Opens, ReadMoney, NumberRun, NumberValue, Toman;
    NormalizeConcat("5", y);
    assert PlainText("5");
    PlainNormalize("5");
    var t := "5" + Normalize(y);
    FiveRun(Normalize(y));
    OpensMoney(Normalize(y));
    OneNumber(t);
    ScanFound(t, None);
    AmountsAre("5" + y, Scan(t, None));
    NoAmountsNoRaws(Scan(t, None));
  }

  lemma FiveAlone(c: string)
    requires c == "" || c == "\n"
    ensures Amounts("5" + c) == []
  {
    hide Normalize, Scan, Groups, Sums, ReadMoney, NumberRun, NumberValue, Toman, FirstWord;
    var t := "5" + c;
    assert PlainText(t);
    PlainNormalize(t);
    FiveRun(c);
    WordsAreSolid();
    NoWordInNothing(UNITS);
    NoWordInNothing(CURRENCIES);
    OneNumber(t);
    NothingBehind(c);
    ScanPassed(t, None);
    ScanNothing(Longer(None, t[..|t| - |ReadOne(t).rest|]));
    AmountsAre(t, []);
  }

  lemma NothingBehind(c: string)
    requires c == "" || c == "\n"
    ensures !ReadMoney(c).Some() && ReadMoney(c).rest == ""
  {
    hide FirstWord;
    WordsAreSolid();
    NoWordInNothing(UNITS);
    NoWordInNothing(CURRENCIES);
    if c == "\n" { assert c[1..] == ""; }
    assert TrimStart(c) == "";
  }

  /** A sentence with an amount: five toman and a full stop. */
  const FIVE_TOMAN := "5 \U{062A}\U{0648}\U{0645}\U{0646}."

  lemma FiveTomanParts()
    ensures FIVE_TOMAN == "5" + (" " + (CURRENCIES[1].text + "."))
    ensures PlainText(" " + (CURRENCIES[1].text + "."))
    ensures EndsMark(FIVE_TOMAN) && forall i | 0 <= i < |FIVE_TOMAN| - 1 :: !IsStop(FIVE_TOMAN[i])
  {
  }

  lemma {:induction false} FoundInList(ws: seq<Word>, i: nat, s: string)
    requires i < |ws| && ws[i].text <= s
    ensures FirstWord(ws, s).Some?
  {
    if i > 0 { FoundInList(ws[1..], i - 1, s); }
  }

  lemma WordOpens(w: Word, i: nat, more: string)
    requires (i < |UNITS| && w == UNITS[i]) || (i < |CURRENCIES| && w == CURRENCIES[i])
    ensures Opens(w.text + more) && Opens(" " + (w.text + more))
  {
    hide FirstWord;
    WordsAreSolid();
    assert SolidWord(w.text);
    var s := w.text + more;
    assert w.text <= s && s[0] == w.text[0];
    assert TrimStart(s) == s;
    assert (" " + s)[1..] == s;
    assert TrimStart(" " + s) == s;
    if i < |UNITS| && w == UNITS[i] { FoundInList(UNITS, i, s); } else { FoundInList(CURRENCIES, i, s); }
  }

  lemma FiveTomanAmounts()
    ensures Amounts(FIVE_TOMAN) != []
  {
    hide Amounts, Opens, Normalize;
    FiveTomanParts();
    var y := " " + (CURRENCIES[1].text + ".");
    PlainNormalize(y);
    WordOpens(CURRENCIES[1], 1, ".");
    FiveOpens(y);
  }

  lemma {:induction false} CutAfter(s: string, rest: string, p: nat)
    requires s != "" && p <= |s| && IsStop(s[|s| - 1]) && rest != "" && IsSpace(rest[0])
    requires forall i | 0 <= i < |s| - 1 :: !IsStop(s[i])
    ensures CutFrom(s + rest, p) == Some(|s|)
    decreases |s| - p
  {
    if p < |s| {
      CutAfter(s, rest, p + 1);
      if p > 0 { assert (s + rest)[p - 1] == s[p - 1]; }
    }
  }

  lemma {:induction false} NoCut(s: string, p: nat)
    requires forall i | 0 <= i < |s| :: !IsSpace(s[i])
    ensures CutFrom(s, p) == None
    decreases |s| - p
  {
    if p < |s| { NoCut(s, p + 1); }
  }

  lemma TwoSentences(s: string, last: string)
    requires s != "" && IsStop(s[|s| - 1]) && forall i | 0 <= i < |s| - 1 :: !IsStop(s[i])
    requires last != "" && forall i | 0 <= i < |last| :: !IsSpace(last[i])
    ensures Sentences(s + (" " + last)) == [s, last]
  {
    var text := s + (" " + last);
    CutAfter(s, " " + last, 0);
    assert text[..|s|] == s && text[|s|..] == " " + last;
    assert (" " + last)[1..] == last;
    assert TrimStart(" " + last) == last;
    NoCut(last, 0);
  }

  lemma NothingIsAllowed(amounts: seq<int>)
    ensures AllIn(amounts, {}) <==> amounts == []
  {
    var none: set<int> := {};
    if amounts != [] { assert amounts[0] !in none; }
  }

  lemma Stripped(text: string, allowed: set<int>, card: string, a: string, b: string, keepsA: bool, keepsB: bool)
    requires Sentences(text) == [a, b]
    requires keepsA <==> FindUnauthorizedAmounts(a, allowed) == []
    requires keepsB <==> FindUnauthorizedAmounts(b, allowed) == []
    ensures keepsA && keepsB ==> StripUnauthorizedPriceSentences(text, allowed, card) == Guarded(text, false)
    ensures !keepsA && keepsB ==>
      StripUnauthorizedPriceSentences(text, allowed, card) == Guarded(Trim(Join([b, card], " ")), true)
  {
    hide FindUnauthorizedAmounts, Trim, Join;
    KeptTwo(a, b, allowed);
    assert [] + [b] == [b] && [b] + [card] == [b, card] && [a] + [b] == [a, b];
  }

  lemma BadSentences()
    ensures Sentences(FIVE_TOMAN + " 5") == [FIVE_TOMAN, "5"] && Sealed(FIVE_TOMAN)
  {
    hide Complete, Leaks;
    FiveTomanParts();
    MarkIsComplete(FIVE_TOMAN);
    CompleteIsSealed(FIVE_TOMAN);
    assert FIVE_TOMAN + " 5" == FIVE_TOMAN + (" " + "5");
    TwoSentences(FIVE_TOMAN, "5");
  }

  lemma BadText(card: string)
    ensures var g := StripUnauthorizedPriceSentences(FIVE_TOMAN + " 5", {}, card);
      g == Guarded(Trim(Join(["5", card], " ")), true)
    ensures AllSealed(Sentences(FIVE_TOMAN + " 5"))
  {
    hide Amounts, FindUnauthorizedAmounts, AllIn, Trim, Join, Sealed, Sentences, StripUnauthorizedPriceSentences;
    BadSentences();
    FiveTomanAmounts();
    FiveAlone("");
    assert "5" + "" == "5";
    FoundNone(FIVE_TOMAN, {});
    FoundNone("5", {});
    NothingIsAllowed(Amounts(FIVE_TOMAN));
    NothingIsAllowed(Amounts("5"));
    Stripped(FIVE_TOMAN + " 5", {}, card, FIVE_TOMAN, "5", false, true);
  }

  lemma KeptTwo(a: string, b: string, allowed: set<int>)
    ensures Kept([a, b], allowed) == (if FindUnauthorizedAmounts(a, allowed) == [] then [a] else [])
      + (if FindUnauthorizedAmounts(b, allowed) == [] then [b] else [])
  {
    hide FindUnauthorizedAmounts;
    assert [a, b][1..] == [b] && [b][1..] == [];
    assert Kept([], allowed) == [];
    assert Kept([b], allowed) == if FindUnauthorizedAmounts(b, allowed) == [] then [b] else [];
  }

  lemma OpeningCardFails(card: string)
    requires Opens(Normalize(card))
    ensures AllSealed(Sentences(FIVE_TOMAN + " 5"))
    ensures !AllIn(Amounts(StripUnauthorizedPriceSentences(FIVE_TOMAN + " 5", {}, card).text), {})
  {
    hide Amounts, Normalize, Trim, FirstWord, StripUnauthorizedPriceSentences, AllSealed, AllIn;
    BadText(card);
    var joined := Join(["5", card], " ");
    assert ["5", card][1..] == [card];
    assert joined == "5" + (" " + card) by { assert "5" + " " + card == "5" + (" " + card); }
    NormalizeSpace(' ', card);
    assert ([Blank(' ')] + Normalize(card))[1..] == Normalize(card);
    assert [' '] + card == " " + card;
    FiveOpens(" " + card);
    AmountsTrim(joined);
    NothingIsAllowed(Amounts(joined));
  }

  /** A card line without amounts is safe for every text of sealed sentences and every
      set of allowed amounts, exactly when it does not open with a unit or currency. */
  lemma CardRule(card: string)
    requires Amounts(card) == []
    ensures (forall text: string, allowed: set<int> | AllSealed(Sentences(text)) ::
              AllIn(Amounts(StripUnauthorizedPriceSentences(text, allowed, card).text), allowed))
      <==> !Opens(Normalize(card))
  {
    hide Amounts, Normalize, Opens, StripUnauthorizedPriceSentences, AllSealed, AllIn;
    if Opens(Normalize(card)) {
      OpeningCardFails(card);
    } else {
      forall text: string, allowed: set<int> | AllSealed(Sentences(text))
        ensures AllIn(Amounts(StripUnauthorizedPriceSentences(text, allowed, card).text), allowed)
      {
        PriceGuardSound(text, allowed, card);
      }
    }
  }

  /** A line break inside a price defeats the guard: the two lines are harmless on their
      own, so the text comes back unchanged, with an amount that nobody allowed. */
  lemma LineBreakDefeatsGuard(card: string)
    ensures var text := "5\n" + (" " + CURRENCIES[1].text);
      StripUnauthorizedPriceSentences(text, {}, card) == Guarded(text, false) && Amounts(text) != []
  {
    hide Amounts, FindUnauthorizedAmounts, Sentences, StripUnauthorizedPriceSentences;
    var w := CURRENCIES[1].text;
    BreakSentences();
    BreakAlone();
    BreakTogether();
    FoundNone("5\n", {});
    FoundNone(w, {});
    Stripped("5\n" + (" " + w), {}, card, "5\n", w, true, true);
  }

  lemma BreakAlone()
    ensures AllIn(Amounts("5\n"), {}) && AllIn(Amounts(CURRENCIES[1].text), {})
  {
    hide Amounts, AllIn;
    var w := CURRENCIES[1].text;
    FiveAlone("\n");
    assert "5" + "\n" == "5\n";
    WordsAreSolid();
    assert SolidWord(w) && PlainText(w);
    WordAlone(w);
    NothingIsAllowed(Amounts("5\n"));
    NothingIsAllowed(Amounts(w));
  }

  lemma BreakTogether()
    ensures Amounts("5\n" + (" " + CURRENCIES[1].text)) != []
  {
    hide Amounts, Opens, Normalize;
    var y := "\n" + (" " + CURRENCIES[1].text);
    assert "5\n" + (" " + CURRENCIES[1].text) == "5" + y;
    BreakOpens();
    FiveOpens(y);
  }

  lemma BreakSentences()
    ensures Sentences("5\n" + (" " + CURRENCIES[1].text)) == ["5\n", CURRENCIES[1].text]
  {
    var w := CURRENCIES[1].text;
    WordsAreSolid();
    assert SolidWord(w);
    TwoSentences("5\n", w);
  }

  lemma BreakOpens()
    ensures Opens(Normalize("\n" + (" " + CURRENCIES[1].text)))
  {
    hide Normalize, FirstWord;
    var w := CURRENCIES[1].text;
    var y := "\n" + (" " + w);
    assert PlainText(y);
    PlainNormalize(y);
    WordOpens(CURRENCIES[1], 1, "");
    assert w + "" == w;
    assert y[1..] == " " + w;
    assert TrimStart(y) == TrimStart(" " + w);
  }
}
