/** When the amounts of a text are those of its two parts: exactly when the first part
    is complete, that is, ends in nothing that the second part could continue. */
module AmountSplits {
  import opened JsText
  import opened FaAmounts

  // ----- white space is a barrier for normalisation -----

  /** Nothing, or something that begins with white space. */
  predicate Spaced(y: string) { y == "" || IsSpace(y[0]) }

  /** The marks that end a sentence, besides the line break. */
  predicate IsMark(c: char) { c == '.' || c == '!' || c == '\U{061F}' || c == '?' }

  predicate EndsMark(x: string) { x != "" && IsMark(x[|x| - 1]) }

  lemma Head(x: string, y: string)
    requires x != ""
    ensures (x + y)[0] == x[0] && (x + y)[1..] == x[1..] + y
  {
  }

  lemma {:induction false} LettersConcat(x: string, y: string)
    ensures Letters(x + y) == Letters(x) + Letters(y)
  {
    if x == "" {
      assert x + y == y;
    } else {
      Head(x, y);
      LettersConcat(x[1..], y);
    }
  }

  lemma {:induction false} BlanksConcat(x: string, y: string)
    ensures Blanks(x + y) == Blanks(x) + Blanks(y)
  {
    if x == "" {
      assert x + y == y;
    } else {
      Head(x, y);
      BlanksConcat(x[1..], y);
    }
  }

  lemma {:induction false} DecimalsConcat(prev: bool, x: string, y: string)
    requires Spaced(y)
    ensures Decimals(prev, x + y) == Decimals(prev, x) + Decimals(false, y)
    decreases |x|
  {
    if x == "" {
      assert x + y == y;
    } else {
      Head(x, y);
      DecimalsConcat(IsDigit(x[0]), x[1..], y);
    }
  }

  lemma {:induction false} ThousandsConcat(prev: bool, x: string, y: string)
    requires Spaced(y)
    ensures Thousands(prev, x + y) == Thousands(prev, x) + Thousands(false, y)
    decreases |x|
  {
    if x == "" {
      assert x + y == y;
    } else {
      Head(x, y);
      ThreeDigitsLocal(x[1..], y);
      hide ThreeDigits;
      ThousandsConcat(false, x[1..], y);
      ThousandsConcat(IsDigit(x[0]), x[1..], y);
    }
  }

  lemma ThreeDigitsLocal(x: string, y: string)
    requires Spaced(y)
    ensures ThreeDigits(x + y) == ThreeDigits(x)
  {
  }

  /** One leading white space character goes through all passes alone. */
  lemma SpacePasses(c: char, z: string)
    requires IsSpace(c)
    ensures Letters([c] + z) == [c] + Letters(z)
    ensures Decimals(false, [c] + z) == [c] + Decimals(false, z)
    ensures Thousands(false, [c] + z) == [c] + Thousands(false, z)
    ensures Blanks([c] + z) == [Blank(c)] + Blanks(z) && IsSpace(Blank(c))
  {
    assert ([c] + z)[1..] == z;
  }

  lemma NormalizeSpace(c: char, z: string)
    requires IsSpace(c)
    ensures Normalize([c] + z) == [Blank(c)] + Normalize(z) && IsSpace(Blank(c))
  {
    hide Letters, Decimals, Thousands, Blanks;
    SpacePasses(c, z);
    var a := Letters(z);
    SpacePasses(c, a);
    var b := Decimals(false, a);
    SpacePasses(c, b);
    var d := Thousands(false, b);
    SpacePasses(c, d);
    SpacePasses(c, Thousands(false, d));
  }

  lemma PassesSpaced(y: string)
    requires Spaced(y)
    ensures Spaced(Letters(y)) && Spaced(Decimals(false, y)) && Spaced(Thousands(false, y))
  {
    if y != "" {
      SpacePasses(y[0], y[1..]);
      assert [y[0]] + y[1..] == y;
    }
  }

  lemma NormalizeConcat(x: string, y: string)
    requires Spaced(y)
    ensures Normalize(x + y) == Normalize(x) + Normalize(y) && Spaced(Normalize(y))
  {
    hide Letters, Decimals, Thousands, Blanks;
    LettersConcat(x, y);
    PassesSpaced(y);
    var x1, y1 := Letters(x), Letters(y);
    DecimalsConcat(false, x1, y1);
    PassesSpaced(y1);
    var x2, y2 := Decimals(false, x1), Decimals(false, y1);
    ThousandsConcat(false, x2, y2);
    PassesSpaced(y2);
    var x3, y3 := Thousands(false, x2), Thousands(false, y2);
    ThousandsConcat(false, x3, y3);
    BlanksConcat(Thousands(false, x3), Thousands(false, y3));
    if y == "" { NormalizeNothing(); } else { NormalizeSpace(y[0], y[1..]); assert [y[0]] + y[1..] == y; }
  }

  lemma NormalizeNothing()
    ensures Normalize("") == ""
  {
  }

  lemma {:induction false} LettersEnd(x: string)
    requires EndsMark(x)
    ensures EndsMark(Letters(x))
  {
    if |x| > 1 { LettersEnd(x[1..]); }
  }

  lemma {:induction false} DecimalsEnd(prev: bool, x: string)
    requires EndsMark(x)
    ensures EndsMark(Decimals(prev, x))
    decreases |x|
  {
    if |x| > 1 { DecimalsEnd(IsDigit(x[0]), x[1..]); }
  }

  lemma {:induction false} ThousandsEnd(prev: bool, x: string)
    requires EndsMark(x)
    ensures EndsMark(Thousands(prev, x))
    decreases |x|
  {
    if |x| > 1 {
      ThousandsEnd(false, x[1..]);
      ThousandsEnd(IsDigit(x[0]), x[1..]);
    }
  }

  lemma {:induction false} BlanksEnd(x: string)
    requires EndsMark(x)
    ensures EndsMark(Blanks(x))
  {
    if |x| > 1 { BlanksEnd(x[1..]); }
  }

  lemma NormalizeEnd(x: string)
    requires EndsMark(x)
    ensures EndsMark(Normalize(x))
  {
    hide Letters, Decimals, Thousands, Blanks, EndsMark;
    LettersEnd(x);
    DecimalsEnd(false, Letters(x));
    ThousandsEnd(false, Decimals(false, Letters(x)));
    ThousandsEnd(false, Thousands(false, Decimals(false, Letters(x))));
    BlanksEnd(Thousands(false, Thousands(false, Decimals(false, Letters(x)))));
  }

  // ----- white space is a barrier for a match -----

  predicate SolidWord(w: string) { w != "" && forall i | 0 <= i < |w| :: !IsSpace(w[i]) && !IsMark(w[i]) && !IsDigit(w[i]) }

  ghost predicate Solid(ws: seq<Word>) { forall w | w in ws :: SolidWord(w.text) }

  lemma WordsAreSolid()
    ensures Solid(UNITS) && Solid(CURRENCIES)
  {
    UnitsAreSolid();
    CurrenciesAreSolid();
  }

  lemma UnitsAreSolid()
    ensures Solid(UNITS)
  {
    assert SolidWord(UNITS[0].text) && SolidWord(UNITS[1].text) && SolidWord(UNITS[2].text) && SolidWord(UNITS[3].text);
  }

  lemma CurrenciesAreSolid()
    ensures Solid(CURRENCIES)
  {
    assert SolidWord(CURRENCIES[0].text) && SolidWord(CURRENCIES[1].text) && SolidWord(CURRENCIES[2].text);
  }

  lemma PrefixLocal(w: string, x: string, y: string)
    requires SolidWord(w) && Spaced(y)
    ensures w <= x + y <==> w <= x
  {
    if |x| < |w| && y != "" {
      assert (x + y)[|x|] == y[0];
    }
  }

  lemma {:induction false} FirstWordLocal(ws: seq<Word>, x: string, y: string)
    requires Solid(ws) && Spaced(y)
    ensures FirstWord(ws, x + y) == FirstWord(ws, x)
  {
    if ws != [] {
      PrefixLocal(ws[0].text, x, y);
      FirstWordLocal(ws[1..], x, y);
    }
  }

  lemma AfterWordLocal(ws: seq<Word>, x: string, y: string)
    requires Solid(ws) && Spaced(y)
    ensures FirstWord(ws, x + y) == FirstWord(ws, x)
    ensures AfterWord(FirstWord(ws, x), x + y) == AfterWord(FirstWord(ws, x), x) + y
  {
    FirstWordLocal(ws, x, y);
  }

  lemma {:induction false} TrimStartConcat(x: string, y: string)
    ensures TrimStart(x + y) == if TrimStart(x) != "" then TrimStart(x) + y else TrimStart(y)
  {
    if x == "" {
      assert x + y == y;
    } else {
      Head(x, y);
      if IsSpace(x[0]) { TrimStartConcat(x[1..], y); }
    }
  }

  lemma {:induction false} TrimStartTwice(s: string)
    ensures TrimStart(TrimStart(s)) == TrimStart(s)
  {
    if s != "" && IsSpace(s[0]) { TrimStartTwice(s[1..]); }
  }

  lemma {:induction false} NoWordInNothing(ws: seq<Word>)
    requires Solid(ws)
    ensures FirstWord(ws, "").None?
  {
    if ws != [] {
      assert SolidWord(ws[0].text);
      NoWordInNothing(ws[1..]);
    }
  }

  /** A match that ends inside the text ends there whatever follows. */
  lemma MoneyLocal(x: string, y: string)
    requires Spaced(y) && (ReadMoney(x).currency.Some? || ReadMoney(x).rest != "")
    ensures ReadMoney(x + y) == ReadMoney(x).(rest := ReadMoney(x).rest + y)
  {
    hide FirstWord, TrimStart, AfterWord;
    WordsAreSolid();
    var x1 := TrimStart(x);
    var x2 := AfterWord(FirstWord(UNITS, x1), x1);
    NothingAfterNothing(x1);
    TrimStartConcat(x, y);
    AfterWordLocal(UNITS, x1, y);
    TrimStartConcat(x2, y);
    AfterWordLocal(CURRENCIES, TrimStart(x2), y);
  }

  lemma NothingAfterNothing(x1: string)
    ensures var x2 := AfterWord(FirstWord(UNITS, x1), x1);
      TrimStart(x2) == "" ==> FirstWord(CURRENCIES, TrimStart(x2)).None? && AfterWord(None, TrimStart(x2)) == ""
    ensures x1 == "" ==> TrimStart(AfterWord(FirstWord(UNITS, x1), x1)) == ""
  {
    hide FirstWord;
    WordsAreSolid();
    NoWordInNothing(UNITS);
    NoWordInNothing(CURRENCIES);
  }

  lemma {:induction false} DigitRunLocal(x: string, y: string)
    requires Spaced(y)
    ensures DigitRun(x + y) == DigitRun(x)
  {
    if x == "" {
      assert x + y == y;
    } else {
      Head(x, y);
      DigitRunLocal(x[1..], y);
    }
  }

  lemma FractionRunLocal(x: string, y: string)
    requires Spaced(y)
    ensures FractionRun(x + y) == FractionRun(x)
  {
    if x != "" {
      Head(x, y);
      DigitRunLocal(x[1..], y);
    } else {
      assert x + y == y;
    }
  }

  lemma NumberLocal(x: string, y: string)
    requires Spaced(y)
    ensures NumberRun(x + y) == NumberRun(x) && NumberValue(x + y) == NumberValue(x)
    ensures (x + y)[NumberRun(x)..] == x[NumberRun(x)..] + y
  {
    hide DigitRun, FractionRun, Decimal;
    var d := DigitRun(x);
    DigitRunLocal(x, y);
    FractionRunLocal(x[d..], y);
    assert (x + y)[d..] == x[d..] + y && (x + y)[..d] == x[..d];
    var f := FractionRun(x[d..]);
    if f > 0 { assert (x[d..] + y)[1..1 + f] == x[d..][1..1 + f]; }
  }

  lemma NumberEndsInDigit(x: string)
    requires x != "" && IsDigit(x[0])
    ensures NumberRun(x) > 0 && IsDigit(x[NumberRun(x) - 1])
  {
    var d := DigitRun(x);
    var f := FractionRun(x[d..]);
    if f > 0 { assert x[d..][1..1 + f][f - 1] == x[d + f]; }
  }

  /** What is read at a digit. */
  lemma OneNumber(s: string)
    requires s != "" && IsDigit(s[0])
    ensures var m := ReadMoney(s[NumberRun(s)..]);
      ReadOne(s) == Found(if m.Some() then Some((Toman(NumberValue(s), m.Factor()), m.Factor())) else None, m.rest)
  {
  }

  lemma OneOther(s: string)
    requires s != "" && !IsDigit(s[0])
    ensures ReadOne(s) == Found(None, s[1..])
  {
  }

  /** A number with its words is read alike whatever follows, unless it waits for more. */
  lemma OneLocal(x: string, y: string)
    requires x != "" && Spaced(y) && IsDigit(x[0])
    requires var m := ReadMoney(x[NumberRun(x)..]); m.currency.Some? || m.rest != ""
    ensures ReadOne(x + y) == ReadOne(x).(rest := ReadOne(x).rest + y)
  {
    hide ReadOne, NumberRun, NumberValue, ReadMoney, Toman, Spaced;
    Head(x, y);
    NumberLocal(x, y);
    var n := NumberRun(x);
    MoneyLocal(x[n..], y);
    var a, b := ReadMoney(x[n..]), ReadMoney((x + y)[n..]);
    assert b.Some() == a.Some() && b.Factor() == a.Factor();
    OneNumber(x);
    OneNumber(x + y);
  }

  // ----- how a text ends -----

  /** At the end of a text a number without unit and currency may still wait for one, linked
      to the amount before it or not; else `gap` is the text since the last amount. */
  datatype Ending = Waiting(number: real, linked: bool) | After(gap: Option<string>)

  function EndOf(s: string, gap: Option<string>): Ending
    decreases |s|
  {
    if s == "" then After(gap) else
    var f := ReadOne(s);
    match f.amount
    case Some(_) => EndOf(f.rest, Some(""))
    case None =>
      if IsDigit(s[0]) && f.rest == "" then Waiting(NumberValue(s), IsLink(gap))
      else EndOf(f.rest, Longer(gap, s[..|s| - |f.rest|]))
  }

  /** "And" may still follow, or an amount may follow "and". */
  predicate OpenGap(gap: Option<string>) { gap.Some? && (AllSpaces(gap.value) || IsAnd(gap.value)) }

  /** The unit of the last amount is above the smallest one, the bare rial. */
  predicate Extendable(raws: seq<Raw>) { raws != [] && raws[|raws| - 1].mult > 0.1 }

  /** No number waits for a unit or a currency, and no last amount can be continued. */
  predicate Complete(text: string) {
    var n := Normalize(text);
    EndOf(n, None).After? && !(OpenGap(EndOf(n, None).gap) && Extendable(Scan(n, None)))
  }

  lemma EndFound(s: string, gap: Option<string>)
    requires s != "" && ReadOne(s).amount.Some?
    ensures EndOf(s, gap) == EndOf(ReadOne(s).rest, Some(""))
  {
    hide ReadOne;
  }

  lemma EndPassed(s: string, gap: Option<string>)
    requires s != "" && ReadOne(s).amount.None? && !(IsDigit(s[0]) && ReadOne(s).rest == "")
    ensures EndOf(s, gap) == EndOf(ReadOne(s).rest, Longer(gap, s[..|s| - |ReadOne(s).rest|]))
  {
    hide ReadOne;
  }

  lemma ScanFound(s: string, gap: Option<string>)
    requires s != "" && ReadOne(s).amount.Some?
    ensures var f := ReadOne(s);
      Scan(s, gap) == [Raw(f.amount.value.0, f.amount.value.1, IsLink(gap))] + Scan(f.rest, Some(""))
  {
    hide ReadOne, IsLink;
  }

  lemma ScanPassed(s: string, gap: Option<string>)
    requires s != "" && ReadOne(s).amount.None?
    ensures Scan(s, gap) == Scan(ReadOne(s).rest, Longer(gap, s[..|s| - |ReadOne(s).rest|]))
  {
    hide ReadOne, IsLink;
  }

  lemma ScanNothing(gap: Option<string>)
    ensures Scan("", gap) == []
  {
  }

  /** Every unit is between the bare rial and the milliard. */
  lemma FactorRange(m: Money)
    requires m.unit.Some? ==> m.unit.value in UNITS
    requires m.currency.Some? ==> m.currency.value in CURRENCIES
    ensures m.unit.None? ==> 0.1 <= m.Factor() <= 1.0
    ensures m.unit.Some? ==> 100.0 <= m.Factor() <= 1_000_000_000.0
    ensures m.unit.Some? && m.currency.None? ==> 1_000.0 <= m.Factor()
  {
    if m.currency.Some? {
      var c: int :| 0 <= c < |CURRENCIES| && CURRENCIES[c] == m.currency.value;
      assert m.currency.value.factor == 1.0 || m.currency.value.factor == 0.1;
      UnitRange(m.unit);
    } else {
      UnitRange(m.unit);
    }
  }

  lemma UnitRange(u: Option<Word>)
    requires u.Some? ==> u.value in UNITS
    ensures u.Some? ==> 1_000.0 <= u.value.factor <= 1_000_000_000.0
  {
    if u.Some? {
      var i :| 0 <= i < |UNITS| && UNITS[i] == u.value;
    }
  }

  predicate InRange(r: Raw) { 0.1 <= r.mult <= 1_000_000_000.0 }

  lemma OneInRange(s: string)
    requires s != "" && ReadOne(s).amount.Some?
    ensures 0.1 <= ReadOne(s).amount.value.1 <= 1_000_000_000.0 && IsDigit(s[0])
    ensures var m := ReadMoney(s[NumberRun(s)..]);
      m.currency.None? ==> ReadOne(s).amount.value.1 >= 1_000.0
  {
    hide NumberRun, NumberValue, FirstWord, Toman;
    if IsDigit(s[0]) {
      FactorRange(ReadMoney(s[NumberRun(s)..]));
    }
  }

  lemma {:induction false} ScanInRange(s: string, gap: Option<string>)
    ensures forall i | 0 <= i < |Scan(s, gap)| :: InRange(Scan(s, gap)[i])
    decreases |s|
  {
    hide ReadOne, IsLink, Scan;
    if s == "" {
      ScanNothing(gap);
    } else if ReadOne(s).amount.Some? {
      OneInRange(s);
      ScanFound(s, gap);
      ScanInRange(ReadOne(s).rest, Some(""));
    } else {
      ScanPassed(s, gap);
      ScanInRange(ReadOne(s).rest, Longer(gap, s[..|s| - |ReadOne(s).rest|]));
    }
  }

  // ----- a complete text is scanned on its own -----

  /** At the end of the text stands an amount that a rial behind it could still change. */
  predicate Hanging(x: string, gap: Option<string>) { EndOf(x, gap) == After(Some("")) && Extendable(Scan(x, gap)) }

  /** The scan goes on behind `x` with the gap that `x` leaves. */
  lemma {:induction false} ScanGoesOn(x: string, y: string, gap: Option<string>)
    requires Spaced(y) && EndOf(x, gap).After? && !Hanging(x, gap)
    ensures Scan(x + y, gap) == Scan(x, gap) + Scan(y, EndOf(x, gap).gap)
    decreases |x|, 1
  {
    hide ReadOne, IsLink, Scan, Spaced, Hanging, EndOf;
    if x == "" {
      assert x + y == y;
      ScanNothing(gap);
      EndNothing(gap);
    } else if ReadOne(x).amount.Some? {
      FoundGoesOn(x, y, gap);
    } else {
      PassedGoesOn(x, y, gap);
    }
  }

  lemma EndNothing(gap: Option<string>)
    ensures EndOf("", gap) == After(gap)
  {
  }

  lemma {:induction false} FoundGoesOn(x: string, y: string, gap: Option<string>)
    requires Spaced(y) && EndOf(x, gap).After? && !Hanging(x, gap) && x != "" && ReadOne(x).amount.Some?
    ensures Scan(x + y, gap) == Scan(x, gap) + Scan(y, EndOf(x, gap).gap)
    decreases |x|, 0
  {
    hide ReadOne, IsLink, Scan, Spaced, EndOf, ReadMoney, NumberRun;
    var f := ReadOne(x);
    ScanFound(x, gap);
    EndFound(x, gap);
    OneInRange(x);
    OneNumber(x);
    if f.rest == "" {
      EndNothing(Some(""));
      ScanNothing(Some(""));
    }
    OneLocal(x, y);
    ScanFound(x + y, gap);
    ScanGoesOn(f.rest, y, Some(""));
  }

  lemma {:induction false} PassedGoesOn(x: string, y: string, gap: Option<string>)
    requires Spaced(y) && EndOf(x, gap).After? && !Hanging(x, gap) && x != "" && ReadOne(x).amount.None?
    ensures Scan(x + y, gap) == Scan(x, gap) + Scan(y, EndOf(x, gap).gap)
    decreases |x|, 0
  {
    hide ReadOne, IsLink, Scan, Spaced, ReadMoney, NumberRun;
    var f := ReadOne(x);
    var used := |x| - |f.rest|;
    ScanPassed(x, gap);
    EndPassed(x, gap);
    OnePassedLocal(x, y);
    ScanPassed(x + y, gap);
    assert (x + y)[..used] == x[..used];
    ScanGoesOn(f.rest, y, Longer(gap, x[..used]));
  }

  lemma OnePassedLocal(x: string, y: string)
    requires x != "" && Spaced(y) && ReadOne(x).amount.None? && !(IsDigit(x[0]) && ReadOne(x).rest == "")
    ensures ReadOne(x + y) == ReadOne(x).(rest := ReadOne(x).rest + y)
  {
    hide ReadOne, ReadMoney, NumberRun, Spaced;
    Head(x, y);
    if IsDigit(x[0]) {
      OneNumber(x);
      OneLocal(x, y);
    } else {
      OneOther(x);
      OneOther(x + y);
    }
  }

  /** What follows a gap that is not open cannot make it one, so no amount is linked. */
  lemma StaysShut(t: string, more: string)
    requires !OpenGap(Some(t))
    ensures !OpenGap(Some(t + more)) && !IsAnd(t)
  {
    SpaceSplits(t, more);
    if IsAnd(t + more) { AndSplits(t, more); }
  }

  lemma SpaceSplits(t: string, more: string)
    ensures AllSpaces(t + more) ==> AllSpaces(t)
  {
    if !AllSpaces(t) {
      var i :| 0 <= i < |t| && !IsSpace(t[i]);
      assert (t + more)[i] == t[i];
    }
  }

  lemma {:induction false} AndSplits(t: string, more: string)
    requires IsAnd(t + more)
    ensures AllSpaces(t) || IsAnd(t)
  {
    if t != "" {
      Head(t, more);
      if IsSpace(t[0]) {
        AndSplits(t[1..], more);
      } else {
        assert forall i | 0 <= i < |t| - 1 :: t[1..][i] == (t[1..] + more)[i];
      }
    }
  }

  lemma {:induction false} ScanAfterShut(y: string, gap: Option<string>)
    requires !OpenGap(gap)
    ensures Scan(y, gap) == Scan(y, None)
    decreases |y|
  {
    hide ReadOne, OpenGap, IsLink, Scan;
    if y == "" {
      ScanNothing(gap);
      ScanNothing(None);
    } else {
      var f := ReadOne(y);
      var used := y[..|y| - |f.rest|];
      if gap.Some? { StaysShut(gap.value, used); }
      NoLink(gap);
      if f.amount.None? {
        ScanPassed(y, gap);
        ScanPassed(y, None);
        ScanAfterShut(f.rest, Longer(gap, used));
      } else {
        ScanFound(y, gap);
        ScanFound(y, None);
      }
    }
  }

  lemma NoLink(gap: Option<string>)
    requires gap.Some? ==> !IsAnd(gap.value)
    ensures !IsLink(gap) && !IsLink(None)
  {
  }

  /** Only the first amount depends on the gap before it. */
  lemma {:induction false} GapOnlyLinks(y: string, g: Option<string>, h: Option<string>)
    ensures SameButLink(Scan(y, g), Scan(y, h))
    decreases |y|
  {
    hide ReadOne, IsLink, Scan, Longer;
    if y == "" {
      ScanNothing(g);
      ScanNothing(h);
    } else if ReadOne(y).amount.None? {
      var f := ReadOne(y);
      var used := y[..|y| - |f.rest|];
      ScanPassed(y, g);
      ScanPassed(y, h);
      GapOnlyLinks(f.rest, Longer(g, used), Longer(h, used));
    } else {
      ScanFound(y, g);
      ScanFound(y, h);
    }
  }

  predicate SameButLink(a: seq<Raw>, b: seq<Raw>) {
    |a| == |b| && (a != [] ==> a[0].value == b[0].value && a[0].mult == b[0].mult && a[1..] == b[1..])
  }

  /** Whether a first amount is linked to nothing makes no difference. */
  lemma {:induction false} FirstLinkIsNothing(a: seq<Raw>, b: seq<Raw>)
    requires SameButLink(a, b)
    ensures Sums(Groups(a)) == Sums(Groups(b))
    ensures a != [] ==> LastMultOf(Groups(a)) == LastMultOf(Groups(b)) == Some(a[|a| - 1].mult)
  {
    if |a| == 0 {
    } else if |a| == 1 {
      OneGroup(a[0]);
      OneGroup(b[0]);
      assert a == [a[0]] && b == [b[0]];
    } else {
      hide Groups, Grow, Sums;
      var n := |a| - 1;
      assert a[..n][1..] == a[1..][..n - 1] && b[..n][1..] == b[1..][..n - 1];
      FirstLinkIsNothing(a[..n], b[..n]);
      assert a[n] == a[1..][n - 1] && b[n] == b[1..][n - 1];
      GroupsSnoc(a);
      GroupsSnoc(b);
      GrowsAlike(Groups(a[..n]), Groups(b[..n]), a[n]);
    }
  }

  function LastMultOf(gs: seq<seq<Raw>>): Option<real> {
    if gs == [] || gs[|gs| - 1] == [] then None else Some(LastMult(gs[|gs| - 1]))
  }

  lemma OneGroup(r: Raw)
    ensures Groups([r]) == [[r]] && Sums(Groups([r])) == [r.value]
  {
    assert [r][..0] == [];
    assert Groups([r]) == Grow(Groups([]), r);
    assert Sum([r]) == Sum([r][..0]) + r.value;
  }

  lemma GrowsAlike(as1: seq<seq<Raw>>, bs1: seq<seq<Raw>>, r: Raw)
    requires Sums(as1) == Sums(bs1) && LastMultOf(as1) == LastMultOf(bs1) && LastMultOf(as1).Some?
    ensures Sums(Grow(as1, r)) == Sums(Grow(bs1, r))
    ensures LastMultOf(Grow(as1, r)) == LastMultOf(Grow(bs1, r)) == Some(r.mult)
  {
    hide Sums, Grow, LastMultOf;
    SumsOfGrow(as1, r);
    SumsOfGrow(bs1, r);
    LastOfGrow(as1, r);
    LastOfGrow(bs1, r);
  }

  lemma LastOfGrow(gs: seq<seq<Raw>>, r: Raw)
    ensures LastMultOf(Grow(gs, r)) == Some(r.mult)
  {
  }

  lemma SumsOfGrow(gs: seq<seq<Raw>>, r: Raw)
    requires LastMultOf(gs).Some?
    ensures |Sums(gs)| == |gs| > 0
    ensures var sums, n := Sums(gs), |Sums(gs)| - 1;
      Sums(Grow(gs, r)) ==
        if r.linked && LastMultOf(gs).value > r.mult then sums[..n] + [sums[n] + r.value] else sums + [r.value]
  {
    hide Sums, Sum;
    var n := |gs| - 1;
    var init, g := gs[..n], gs[n];
    assert init + [g] == gs;
    SumsNext(init, g);
    SumsNext(init, g + [r]);
    SumsNext(gs, [r]);
    SumNext(g, r);
    OneSum(r);
  }

  lemma SumsNext(gs: seq<seq<Raw>>, g: seq<Raw>)
    ensures Sums(gs + [g]) == Sums(gs) + [Sum(g)] && |Sums(gs)| == |gs|
  {
    hide Sum;
  }

  lemma OneSum(r: Raw)
    ensures Sum([r]) == r.value
  {
    SumNext([], r);
    assert [] + [r] == [r];
  }

  /** A first amount that does not join the last one starts a new group. */
  lemma {:induction false} GroupsConcat(a: seq<Raw>, b: seq<Raw>)
    requires a != [] && b != [] ==> !(b[0].linked && a[|a| - 1].mult > b[0].mult)
    ensures Groups(a + b) == Groups(a) + Groups(b)
  {
    hide Grow, Groups;
    NoGroups();
    if b == [] {
      assert a + b == a;
    } else if |b| == 1 {
      assert b == [b[0]];
      GroupsAfter(a, b[0]);
      NewGroup(a, b[0]);
      OneGroup(b[0]);
    } else {
      var init, r := b[..|b| - 1], b[|b| - 1];
      GroupsConcat(a, init);
      assert a + b == (a + init) + [r] && b == init + [r];
      GroupsAfter(a + init, r);
      GroupsAfter(init, r);
      SomeGroup(init);
      GrowBehind(Groups(a), Groups(init), r);
    }
  }

  lemma GroupsAfter(a: seq<Raw>, r: Raw)
    ensures Groups(a + [r]) == Grow(Groups(a), r)
  {
    hide Grow;
    assert (a + [r])[..|a|] == a;
  }

  lemma NewGroup(a: seq<Raw>, r: Raw)
    requires a != [] ==> !(r.linked && a[|a| - 1].mult > r.mult)
    ensures Grow(Groups(a), r) == Groups(a) + [[r]]
  {
    FirstLinkIsNothing(a, a);
    hide Groups;
    NoGroups();
  }

  lemma {:induction false} FirstUnlinked(s: string)
    ensures Scan(s, None) != [] ==> !Scan(s, None)[0].linked
    decreases |s|
  {
    if s != "" {
      hide ReadOne, IsLink, Scan;
      NoLink(None);
      if ReadOne(s).amount.None? {
        ScanPassed(s, None);
        FirstUnlinked(ReadOne(s).rest);
      } else {
        ScanFound(s, None);
      }
    }
  }

  lemma SumsConcat(a: seq<seq<Raw>>, b: seq<seq<Raw>>)
    ensures Sums(a + b) == Sums(a) + Sums(b)
  {
    hide Sum;
  }

  lemma RawsAdd(n: string, y: string)
    requires Spaced(y) && EndOf(n, None).After? && !(OpenGap(EndOf(n, None).gap) && Extendable(Scan(n, None)))
    ensures Sums(Groups(Scan(n + y, None))) == Sums(Groups(Scan(n, None))) + Sums(Groups(Scan(y, None)))
  {
    hide Scan, EndOf, Groups, Sums, IsAnd, Spaced;
    ScanGoesOn(n, y, None);
    var g := EndOf(n, None).gap;
    var a, b, alone := Scan(n, None), Scan(y, g), Scan(y, None);
    GapOnlyLinks(y, g, None);
    FirstLinkIsNothing(b, alone);
    ScanInRange(y, g);
    if b != [] { assert InRange(b[0]); }
    if !OpenGap(g) {
      ScanAfterShut(y, g);
      FirstUnlinked(y);
    }
    GroupsConcat(a, b);
    SumsConcat(Groups(a), Groups(b));
  }

  /** A complete text and a text behind it have the amounts of both. */
  lemma CompleteAdds(x: string, y: string)
    requires Complete(x) && Spaced(y)
    ensures Amounts(x + y) == Amounts(x) + Amounts(y)
  {
    hide Normalize, Scan, Groups, Sums, EndOf, OpenGap, Extendable;
    NormalizeConcat(x, y);
    RawsAdd(Normalize(x), Normalize(y));
  }

  // ----- leading and trailing white space -----

  lemma ScanSpace(c: char, z: string)
    requires IsSpace(c)
    ensures Scan([c] + z, None) == Scan(z, None)
  {
    assert ([c] + z)[1..] == z;
  }

  lemma AmountsSpace(c: char, z: string)
    requires IsSpace(c)
    ensures Amounts([c] + z) == Amounts(z)
  {
    hide Normalize, Scan, Groups, Sums;
    NormalizeSpace(c, z);
    ScanSpace(Blank(c), Normalize(z));
    AmountsAre([c] + z, Scan(Normalize(z), None));
    AmountsAre(z, Scan(Normalize(z), None));
  }

  lemma {:induction false} AmountsTrimStart(y: string)
    ensures Amounts(TrimStart(y)) == Amounts(y)
  {
    if y != "" && IsSpace(y[0]) {
      hide Amounts;
      AmountsTrimStart(y[1..]);
      AmountsSpace(y[0], y[1..]);
      assert [y[0]] + y[1..] == y;
    }
  }

  // ----- a text behind that holds no amount -----

  /** The normalised text begins, after white space, with a unit or a currency. */
  predicate Opens(s: string) {
    FirstWord(UNITS, TrimStart(s)).Some? || FirstWord(CURRENCIES, TrimStart(s)).Some?
  }

  lemma AfterWordConcat(w: Option<Word>, x: string, y: string)
    requires w.Some? ==> w.value.text <= x
    ensures w.Some? ==> w.value.text <= x + y
    ensures AfterWord(w, x + y) == AfterWord(w, x) + y
  {
  }

  /** How the rest of a match looks when text follows: the same with the text behind,
      or the text without its leading white space. */
  predicate RestWith(rest: string, longer: string, y: string) {
    longer == rest + y || (rest == "" && longer == TrimStart(y))
  }

  lemma CurrencyQuiet(unit: Option<Word>, x: string, y: string)
    requires Spaced(y) && !Opens(y)
    ensures var a, b := ReadCurrency(unit, TrimStart(x)), ReadCurrency(unit, TrimStart(x + y));
      b.unit == a.unit && b.currency == a.currency && RestWith(a.rest, b.rest, y)
  {
    hide FirstWord, AfterWord;
    WordsAreSolid();
    TrimStartConcat(x, y);
    var x1 := TrimStart(x);
    if x1 != "" {
      FirstWordLocal(CURRENCIES, x1, y);
      AfterWordConcat(FirstWord(CURRENCIES, x1), x1, y);
    } else {
      NoWordInNothing(CURRENCIES);
      assert AfterWord(None, "") == "" && AfterWord(None, TrimStart(y)) == TrimStart(y) by { NoAfter(TrimStart(y)); NoAfter(""); }
    }
  }

  lemma NoAfter(s: string)
    ensures AfterWord(None, s) == s
  {
  }

  lemma MoneyQuiet(x: string, y: string)
    requires Spaced(y) && !Opens(y)
    ensures var a, b := ReadMoney(x), ReadMoney(x + y);
      b.unit == a.unit && b.currency == a.currency && RestWith(a.rest, b.rest, y)
  {
    hide FirstWord, AfterWord, ReadCurrency, RestWith;
    WordsAreSolid();
    TrimStartConcat(x, y);
    var x1 := TrimStart(x);
    if x1 != "" {
      FirstWordLocal(UNITS, x1, y);
      var u := FirstWord(UNITS, x1);
      AfterWordConcat(u, x1, y);
      CurrencyQuiet(u, AfterWord(u, x1), y);
    } else {
      NoWordInNothing(UNITS);
      NoAfter("");
      NoAfter(TrimStart(y));
      TrimStartTwice(y);
      CurrencyQuiet(None, "", y);
      assert "" + y == y;
      TrimStartTwice("");
    }
  }

  lemma OneQuiet(x: string, y: string)
    requires x != "" && Spaced(y) && !Opens(y)
    ensures ReadOne(x + y).amount == ReadOne(x).amount && RestWith(ReadOne(x).rest, ReadOne(x + y).rest, y)
  {
    hide ReadOne, NumberRun, NumberValue, ReadMoney, Opens;
    Head(x, y);
    if IsDigit(x[0]) {
      NumberQuiet(x, y);
    } else {
      OneOther(x);
      OneOther(x + y);
    }
  }

  lemma NumberQuiet(x: string, y: string)
    requires x != "" && IsDigit(x[0]) && Spaced(y) && !Opens(y)
    ensures ReadOne(x + y).amount == ReadOne(x).amount && RestWith(ReadOne(x).rest, ReadOne(x + y).rest, y)
  {
    hide ReadOne, NumberRun, NumberValue, ReadMoney, Toman, RestWith, Opens, Spaced;
    Head(x, y);
    NumberLocal(x, y);
    var n := NumberRun(x);
    MoneyQuiet(x[n..], y);
    var a, b := ReadMoney(x[n..]), ReadMoney((x + y)[n..]);
    assert b.Some() == a.Some() && b.Factor() == a.Factor();
    OneNumber(x);
    OneNumber(x + y);
  }

  lemma {:induction false} ScanTrimmedEmpty(y: string, g: Option<string>)
    requires Scan(y, None) == []
    ensures Scan(TrimStart(y), g) == []
    decreases |y|
  {
    hide Scan;
    if y != "" && IsSpace(y[0]) {
      ScanSpace(y[0], y[1..]);
      assert [y[0]] + y[1..] == y;
      ScanTrimmedEmpty(y[1..], g);
    } else {
      GapOnlyLinks(y, g, None);
    }
  }

  lemma {:induction false} ScanQuiet(x: string, y: string, gap: Option<string>)
    requires Spaced(y) && !Opens(y) && Scan(y, None) == []
    ensures Scan(x + y, gap) == Scan(x, gap)
    decreases |x|, 1
  {
    hide ReadOne, IsLink, Opens, Scan, Spaced, RestWith;
    if x == "" {
      assert x + y == y;
      GapOnlyLinks(y, gap, None);
      ScanNothing(gap);
    } else {
      OneQuiet(x, y);
      if ReadOne(x).amount.Some? { FoundQuiet(x, y, gap); } else { PassedQuiet(x, y, gap); }
    }
  }

  lemma {:induction false} FoundQuiet(x: string, y: string, gap: Option<string>)
    requires x != "" && Spaced(y) && !Opens(y) && Scan(y, None) == [] && ReadOne(x).amount.Some?
    requires ReadOne(x + y).amount == ReadOne(x).amount && RestWith(ReadOne(x).rest, ReadOne(x + y).rest, y)
    ensures Scan(x + y, gap) == Scan(x, gap)
    decreases |x|, 0
  {
    hide ReadOne, IsLink, Opens, Scan, Spaced, TrimStart;
    var f, g := ReadOne(x), ReadOne(x + y);
    ScanFound(x, gap);
    ScanFound(x + y, gap);
    if g.rest == f.rest + y {
      ScanQuiet(f.rest, y, Some(""));
    } else {
      ScanTrimmedEmpty(y, Some(""));
      ScanNothing(Some(""));
    }
  }

  lemma {:induction false} PassedQuiet(x: string, y: string, gap: Option<string>)
    requires x != "" && Spaced(y) && !Opens(y) && Scan(y, None) == [] && ReadOne(x).amount.None?
    requires ReadOne(x + y).amount == ReadOne(x).amount && RestWith(ReadOne(x).rest, ReadOne(x + y).rest, y)
    ensures Scan(x + y, gap) == Scan(x, gap)
    decreases |x|, 0
  {
    hide ReadOne, IsLink, Opens, Scan, Spaced, TrimStart, Longer;
    var f, g := ReadOne(x), ReadOne(x + y);
    var used := |x| - |f.rest|;
    ScanPassed(x, gap);
    ScanPassed(x + y, gap);
    if g.rest == f.rest + y {
      assert (x + y)[..used] == x[..used];
      ScanQuiet(f.rest, y, Longer(gap, x[..used]));
    } else {
      ScanTrimmedEmpty(y, Longer(gap, (x + y)[..|x + y| - |g.rest|]));
      ScanNothing(Longer(gap, x[..used]));
    }
  }

  lemma {:induction false} NoAmountsNoRaws(raws: seq<Raw>)
    ensures Sums(Groups(raws)) == [] <==> raws == []
  {
    if raws != [] { SomeGroup(raws); }
  }

  lemma AmountsQuiet(x: string, y: string)
    requires Spaced(y) && !Opens(Normalize(y)) && Amounts(y) == []
    ensures Amounts(x + y) == Amounts(x)
  {
    hide Normalize, Scan, Groups, Sums, Opens;
    NormalizeConcat(x, y);
    AmountsAre(y, Scan(Normalize(y), None));
    NoAmountsNoRaws(Scan(Normalize(y), None));
    ScanQuiet(Normalize(x), Normalize(y), None);
    AmountsAre(x + y, Scan(Normalize(x), None));
    AmountsAre(x, Scan(Normalize(x), None));
  }

  lemma OneSpaceQuiet(c: char)
    requires IsSpace(c)
    ensures !Opens(Normalize([c])) && Amounts([c]) == []
  {
    hide Normalize, Amounts, FirstWord;
    NormalizeSpace(c, "");
    NormalizeNothing();
    assert [c] + "" == [c];
    AmountsSpace(c, "");
    NothingInNothing();
    WordsAreSolid();
    NoWordInNothing(UNITS);
    NoWordInNothing(CURRENCIES);
    assert TrimStart([Blank(c)] + "") == "";
  }

  lemma {:induction false} AmountsTrimEnd(s: string)
    ensures Amounts(TrimEnd(s)) == Amounts(s)
  {
    if s != "" && IsSpace(s[|s| - 1]) {
      hide Amounts, Opens, Normalize;
      AmountsTrimEnd(s[..|s| - 1]);
      OneSpaceQuiet(s[|s| - 1]);
      AmountsQuiet(s[..|s| - 1], [s[|s| - 1]]);
      assert s[..|s| - 1] + [s[|s| - 1]] == s;
    }
  }

  lemma AmountsTrim(s: string)
    ensures Amounts(Trim(s)) == Amounts(s)
  {
    hide Amounts, TrimStart, TrimEnd;
    AmountsTrimStart(s);
    AmountsTrimEnd(TrimStart(s));
  }

  // ----- an incomplete text and its continuation -----

  /** A character that normalisation leaves alone wherever it stands. */
  predicate PlainChar(c: char) {
    && Letter(c) == c && Blank(c) == c && c != '\U{0640}' && c != '/' && c != ','
    && c != '\U{066B}' && c != '\U{066C}' && c != '\U{060C}'
  }

  predicate PlainText(s: string) { forall i | 0 <= i < |s| :: PlainChar(s[i]) }

  lemma {:induction false} PlainPasses(s: string, prev: bool)
    requires PlainText(s)
    ensures Letters(s) == s && Decimals(prev, s) == s && Thousands(prev, s) == s && Blanks(s) == s
    decreases |s|
  {
    if s != "" {
      hide Letter, Blank;
      assert PlainChar(s[0]);
      assert forall i | 0 <= i < |s| - 1 :: s[1..][i] == s[i + 1];
      PlainPasses(s[1..], IsDigit(s[0]));
      assert [s[0]] + s[1..] == s;
    }
  }

  lemma PlainNormalize(s: string)
    requires PlainText(s)
    ensures Normalize(s) == s
  {
    hide Letters, Decimals, Thousands, Blanks, PlainText;
    PlainPasses(s, false);
  }

  lemma FiveRun(y: string)
    requires Spaced(y)
    ensures NumberRun("5" + y) == 1 && ("5" + y)[1..] == y && IsDigit(("5" + y)[0])
  {
    DigitRunLocal("5", y);
    assert "5"[1..] == "";
    assert DigitRun("5") == 1;
    assert FractionRun("") == 0;
    FractionRunLocal("", y);
    assert "" + y == y;
    assert ("5" + y)[1..] == y;
  }

  /** A number that waits meets its unit. */
  lemma MoneyWaits(x: string, y: string)
    requires !ReadMoney(x).Some() && ReadMoney(x).rest == "" && y != "" && IsSpace(y[0]) && y[1..] == UNITS[0].text
    ensures ReadMoney(x + y).unit == Some(UNITS[0]) && ReadMoney(x + y).currency.None? && ReadMoney(x + y).rest == ""
  {
    WordsAreSolid();
    NoWordInNothing(CURRENCIES);
    var w := UNITS[0].text;
    assert SolidWord(w);
    TrimStartConcat(x, y);
    TrimStartTwice(x);
    assert TrimStart(x) == "";
    assert TrimStart(y) == TrimStart(w) == w;
    assert w[|w|..] == "";
  }

  lemma NumberWaits(x: string, y: string)
    requires x != "" && IsDigit(x[0]) && ReadOne(x).amount.None? && ReadOne(x).rest == ""
    requires y != "" && IsSpace(y[0]) && y[1..] == UNITS[0].text
    ensures ReadOne(x + y).amount.Some? && ReadOne(x + y).amount.value.1 == 1_000_000_000.0 && ReadOne(x + y).rest == ""
  {
    hide ReadOne, NumberRun, NumberValue, ReadMoney, Toman;
    Head(x, y);
    NumberLocal(x, y);
    OneNumber(x);
    OneNumber(x + y);
    MoneyWaits(x[NumberRun(x)..], y);
  }

  lemma {:induction false} WaitingGoesOn(x: string, y: string, gap: Option<string>) returns (r: Raw)
    requires EndOf(x, gap).Waiting? && y != "" && IsSpace(y[0]) && y[1..] == UNITS[0].text
    ensures Scan(x + y, gap) == Scan(x, gap) + [r] && r.mult == 1_000_000_000.0
    decreases |x|
  {
    hide ReadOne, IsLink, Scan, EndOf;
    EndNothing(gap);
    if ReadOne(x).amount.Some? {
      r := FoundWaits(x, y, gap);
    } else if IsDigit(x[0]) && ReadOne(x).rest == "" {
      NumberWaits(x, y);
      ScanPassed(x, gap);
      ScanFound(x + y, gap);
      ScanNothing(Longer(gap, x[..|x|]));
      ScanNothing(Some(""));
      var a := ReadOne(x + y).amount.value;
      r := Raw(a.0, a.1, IsLink(gap));
    } else {
      r := PassedWaits(x, y, gap);
    }
  }

  lemma {:induction false} FoundWaits(x: string, y: string, gap: Option<string>) returns (r: Raw)
    requires EndOf(x, gap).Waiting? && y != "" && IsSpace(y[0]) && y[1..] == UNITS[0].text
    requires x != "" && ReadOne(x).amount.Some?
    ensures Scan(x + y, gap) == Scan(x, gap) + [r] && r.mult == 1_000_000_000.0
    decreases |x|, 0
  {
    hide ReadOne, IsLink, Scan, EndOf, ReadMoney, NumberRun;
    var f := ReadOne(x);
    EndFound(x, gap);
    EndNothing(Some(""));
    OneInRange(x);
    OneNumber(x);
    OneLocal(x, y);
    ScanFound(x, gap);
    ScanFound(x + y, gap);
    r := WaitingGoesOn(f.rest, y, Some(""));
  }

  lemma {:induction false} PassedWaits(x: string, y: string, gap: Option<string>) returns (r: Raw)
    requires EndOf(x, gap).Waiting? && y != "" && IsSpace(y[0]) && y[1..] == UNITS[0].text
    requires x != "" && ReadOne(x).amount.None? && !(IsDigit(x[0]) && ReadOne(x).rest == "")
    ensures Scan(x + y, gap) == Scan(x, gap) + [r] && r.mult == 1_000_000_000.0
    decreases |x|, 0
  {
    hide ReadOne, IsLink, Scan, EndOf;
    var f := ReadOne(x);
    var used := |x| - |f.rest|;
    EndPassed(x, gap);
    OnePassedLocal(x, y);
    ScanPassed(x, gap);
    ScanPassed(x + y, gap);
    assert (x + y)[..used] == x[..used];
    r := WaitingGoesOn(f.rest, y, Longer(gap, x[..used]));
  }

  lemma ScanPastSpace(y: string, gap: Option<string>)
    requires y != "" && IsSpace(y[0])
    ensures Scan(y, gap) == Scan(y[1..], Longer(gap, y[..1]))
  {
    hide ReadOne, IsLink, Scan;
    OneOther(y);
    ScanPassed(y, gap);
  }

  /** The gap behind `x` goes on with the white space of `y`, or without it. */
  predicate GoesOn(t: string, u: string, c: char) { u == t + [c] || (t == "" && u == "") }

  lemma {:induction false} ScanBehind(x: string, y: string, gap: Option<string>, t: string) returns (u: string)
    requires EndOf(x, gap) == After(Some(t)) && y != "" && IsSpace(y[0]) && TrimStart(y) == y[1..] && !Opens(y)
    ensures Scan(x + y, gap) == Scan(x, gap) + Scan(y[1..], Some(u)) && GoesOn(t, u, y[0])
    decreases |x|, 1
  {
    hide ReadOne, IsLink, Scan, EndOf, Opens, TrimStart;
    if x == "" {
      EndNothing(gap);
      ScanNothing(gap);
      ScanPastSpace(y, gap);
      assert x + y == y && y[..1] == [y[0]];
      u := t + [y[0]];
    } else if ReadOne(x).amount.Some? {
      u := FoundBehind(x, y, gap, t);
    } else {
      u := PassedBehind(x, y, gap, t);
    }
  }

  lemma {:induction false} FoundBehind(x: string, y: string, gap: Option<string>, t: string) returns (u: string)
    requires EndOf(x, gap) == After(Some(t)) && y != "" && IsSpace(y[0]) && TrimStart(y) == y[1..] && !Opens(y)
    requires x != "" && ReadOne(x).amount.Some?
    ensures Scan(x + y, gap) == Scan(x, gap) + Scan(y[1..], Some(u)) && GoesOn(t, u, y[0])
    decreases |x|, 0
  {
    hide ReadOne, IsLink, Scan, EndOf, Opens, TrimStart;
    var f := ReadOne(x);
    OneQuiet(x, y);
    ScanFound(x, gap);
    ScanFound(x + y, gap);
    EndFound(x, gap);
    if ReadOne(x + y).rest == f.rest + y {
      u := ScanBehind(f.rest, y, Some(""), t);
    } else {
      EndNothing(Some(""));
      ScanNothing(Some(""));
      u := "";
    }
  }

  lemma {:induction false} PassedBehind(x: string, y: string, gap: Option<string>, t: string) returns (u: string)
    requires EndOf(x, gap) == After(Some(t)) && y != "" && IsSpace(y[0]) && TrimStart(y) == y[1..] && !Opens(y)
    requires x != "" && ReadOne(x).amount.None?
    ensures Scan(x + y, gap) == Scan(x, gap) + Scan(y[1..], Some(u)) && GoesOn(t, u, y[0])
    decreases |x|, 0
  {
    hide ReadOne, IsLink, Scan, Opens, TrimStart;
    var f := ReadOne(x);
    var used := |x| - |f.rest|;
    OnePassedLocal(x, y);
    ScanPassed(x, gap);
    ScanPassed(x + y, gap);
    EndPassed(x, gap);
    assert (x + y)[..used] == x[..used];
    u := ScanBehind(f.rest, y, Longer(gap, x[..used]), t);
  }

  /** The amount of `k` toman in rial, the smallest unit, alone and after "and". */
  function InRial(k: nat): string { NatText(10 * k) + (" " + CURRENCIES[2].text) }

  function AndInRial(k: nat): string { [AND, ' '] + InRial(k) }

  lemma {:induction false} OtherStart(ws: seq<Word>, s: string)
    requires s != "" && forall w | w in ws :: w.text != "" && w.text[0] != s[0]
    ensures FirstWord(ws, s).None?
  {
    if ws != [] {
      assert ws[0] in ws;
      OtherStart(ws[1..], s);
    }
  }

  lemma RialMoney()
    ensures var m := ReadMoney(" " + CURRENCIES[2].text); m.Some() && m.Factor() == 0.1 && m.rest == ""
  {
    hide FirstWord;
    var w := CURRENCIES[2].text;
    assert (" " + w)[1..] == w;
    assert TrimStart(" " + w) == w;
    OtherStart(UNITS, w);
    IsThirdCurrency(w);
    assert w[|w|..] == "";
  }

  lemma IsThirdCurrency(w: string)
    requires w == CURRENCIES[2].text
    ensures FirstWord(CURRENCIES, w) == Some(CURRENCIES[2])
  {
    var ws := CURRENCIES;
    assert ws[1..][0] == ws[1] && ws[1..][1..][0] == ws[2];
    assert ws[0].text[0] != w[0] && ws[1].text[0] != w[0];
    assert FirstWord(ws[1..][1..], w) == Some(ws[2]);
    assert FirstWord(ws[1..], w) == Some(ws[2]);
  }

  lemma NatRun(n: nat, y: string)
    requires Spaced(y)
    ensures var s := NatText(n) + y;
      s != "" && IsDigit(s[0]) && NumberRun(s) == |NatText(n)| && s[NumberRun(s)..] == y && NumberValue(s) == n as real
  {
    hide NatText, DigitRun;
    var d := NatText(n);
    DigitRunAll(d, y);
    assert (d + y)[|d|..] == y && (d + y)[..|d|] == d;
    assert Pow10(0) == 1 && Number([]) == 0;
    assert Digits("") == [];
    assert Decimal(d, "") == n as real;
  }

  lemma TenthOf(k: nat)
    ensures Toman((10 * k) as real, 0.1) == k
  {
    assert (10 * k) as real * 0.1 == k as real;
  }

  lemma RialScan(k: nat, gap: Option<string>)
    ensures Scan(InRial(k), gap) == [Raw(k, 0.1, IsLink(gap))]
  {
    hide ReadOne, NumberRun, NumberValue, ReadMoney, Toman, IsLink, Scan, NatText;
    var y := " " + CURRENCIES[2].text;
    NatRun(10 * k, y);
    RialMoney();
    OneNumber(InRial(k));
    ScanFound(InRial(k), gap);
    ScanNothing(Some(""));
    TenthOf(k);
  }

  lemma AndRialScan(k: nat, t: string)
    ensures Scan(AndInRial(k), Some(t)) == Scan(InRial(k), Some(t + [AND, ' ']))
    ensures Scan(AndInRial(k), None) == Scan(InRial(k), None)
  {
    hide ReadOne, IsLink, Scan, InRial;
    var y := AndInRial(k);
    var z := " " + InRial(k);
    assert y[1..] == z && z[1..] == InRial(k) && y[..1] == [AND] && z[..1] == " ";
    OneOther(y);
    ScanPassed(y, Some(t));
    ScanPassed(y, None);
    ScanPastSpace(z, Some(t + [AND]));
    ScanPastSpace(z, None);
    assert t + [AND] + " " == t + [AND, ' '];
  }

  lemma {:induction false} SpaceThenAnd(t: string)
    requires AllSpaces(t)
    ensures IsAnd(t + [AND, ' '])
  {
    if t == "" {
      assert t + [AND, ' '] == [AND, ' '];
      assert [AND, ' '][1..] == " ";
    } else {
      Head(t, [AND, ' ']);
      assert forall i | 0 <= i < |t| - 1 :: t[1..][i] == t[i + 1];
      SpaceThenAnd(t[1..]);
    }
  }

  lemma {:induction false} AndThenSpace(t: string, c: char)
    requires IsAnd(t) && IsSpace(c)
    ensures IsAnd(t + [c])
  {
    Head(t, [c]);
    if IsSpace(t[0]) {
      AndThenSpace(t[1..], c);
    } else {
      assert (t + [c])[1..] == t[1..] + [c];
    }
  }

  /** An amount with the largest unit is no part of the amount before it. */
  lemma MilliardStands(a: seq<Raw>, r: Raw)
    requires (forall i | 0 <= i < |a| :: InRange(a[i])) && r.mult == 1_000_000_000.0
    ensures |Groups(a + [r])| == |Groups(a)| + 1
  {
    if a != [] { assert InRange(a[|a| - 1]); }
    GroupsConcat(a, [r]);
    OneGroup(r);
  }

  /** A linked bare rial is a part of the amount before it. */
  lemma RialJoins(a: seq<Raw>, r: Raw)
    requires Extendable(a) && r.linked && r.mult == 0.1
    ensures |Groups(a + [r])| == |Groups(a)|
  {
    FirstLinkIsNothing(a, a);
    assert (a + [r])[..|a|] == a;
    GroupsSnoc(a + [r]);
  }

  lemma NumberOfAmounts(text: string)
    ensures |Amounts(text)| == |Groups(Scan(Normalize(text), None))|
  {
    hide Normalize, Scan, Groups;
  }

  lemma WaitingCounts(x: string, c: char)
    requires EndOf(Normalize(x), None).Waiting? && IsSpace(c)
    ensures var y := [c] + UNITS[0].text; |Amounts(x + y)| == |Amounts(x)| + 1 && Amounts(y) == []
  {
    hide Normalize, Scan, Groups, EndOf, Amounts;
    var w := UNITS[0].text;
    var y := [c] + w;
    NormalizeConcat(x, y);
    NormalizeSpace(c, w);
    assert PlainText(w);
    PlainNormalize(w);
    assert ([Blank(c)] + w)[1..] == w;
    var r := WaitingGoesOn(Normalize(x), [Blank(c)] + w, None);
    ScanInRange(Normalize(x), None);
    MilliardStands(Scan(Normalize(x), None), r);
    NumberOfAmounts(x);
    NumberOfAmounts(x + y);
    WordAlone(w);
    AmountsSpace(c, w);
  }

  lemma {:induction false} NoDigitsNoAmounts(s: string, gap: Option<string>)
    requires forall i | 0 <= i < |s| :: !IsDigit(s[i])
    ensures Scan(s, gap) == []
    decreases |s|
  {
    hide ReadOne, Longer, Scan;
    if s == "" {
      ScanNothing(gap);
    } else {
      OneOther(s);
      ScanPassed(s, gap);
      assert forall i | 0 <= i < |s| - 1 :: s[1..][i] == s[i + 1];
      NoDigitsNoAmounts(s[1..], Longer(gap, s[..1]));
    }
  }

  lemma WordAlone(w: string)
    requires PlainText(w) && forall i | 0 <= i < |w| :: !IsDigit(w[i])
    ensures Amounts(w) == []
  {
    hide Normalize, Scan, Groups, Sums;
    PlainNormalize(w);
    NoDigitsNoAmounts(w, None);
    AmountsAre(w, []);
  }

  /** What continues an amount over the gap `t` by `k` toman. */
  function Continuation(t: string, k: nat): string { if IsAnd(t) then InRial(k) else AndInRial(k) }

  lemma Continuations(t: string, k: nat)
    ensures var z := Continuation(t, k);
      PlainText(z) && z != "" && !IsSpace(z[0]) && !Opens(z) && Scan(z, None) == [Raw(k, 0.1, false)]
  {
    hide Scan, Opens, PlainText, InRial, AndInRial, IsAnd;
    RialScan(k, None);
    AndRialScan(k, "");
    RialIsPlain(k);
    RialOpensNothing(k);
  }

  lemma DigitIsPlain(c: char)
    requires IsDigit(c)
    ensures PlainChar(c) && !IsSpace(c) && c != AND
  {
  }

  lemma RialIsPlain(k: nat)
    ensures PlainText(InRial(k)) && PlainText(AndInRial(k))
  {
    hide NatText, PlainChar;
    var d, y := NatText(10 * k), " " + CURRENCIES[2].text;
    forall i | 0 <= i < |d| ensures PlainChar(d[i]) { DigitIsPlain(d[i]); }
    RialWordIsPlain();
    PlainConcat(d, y);
    PlainConcat([AND, ' '], d + y);
  }

  lemma RialWordIsPlain()
    ensures PlainText(" " + CURRENCIES[2].text) && PlainText([AND, ' '])
  {
  }

  lemma PlainConcat(x: string, y: string)
    ensures PlainText(x) && PlainText(y) ==> PlainText(x + y)
  {
    hide PlainChar;
  }

  lemma RialOpensNothing(k: nat)
    ensures InRial(k) != "" && !Opens(InRial(k)) && !IsSpace(InRial(k)[0])
    ensures AndInRial(k) != "" && !Opens(AndInRial(k)) && !IsSpace(AndInRial(k)[0])
  {
    hide NatText, Opens;
    DigitIsPlain(NatText(10 * k)[0]);
    SolidStart(InRial(k));
    SolidStart(AndInRial(k));
  }

  lemma SolidStart(z: string)
    requires z != "" && !IsSpace(z[0]) && (IsDigit(z[0]) || z[0] == AND)
    ensures !Opens(z)
  {
    hide FirstWord;
    assert TrimStart(z) == z;
    OtherStart(UNITS, z);
    OtherStart(CURRENCIES, z);
  }

  lemma ContinuationIsLinked(t: string, k: nat, u: string, c: char)
    requires OpenGap(Some(t)) && IsSpace(c) && GoesOn(t, u, c)
    ensures Scan(Continuation(t, k), Some(u)) == [Raw(k, 0.1, true)]
  {
    hide Scan, InRial, AndInRial;
    if IsAnd(t) {
      AndThenSpace(t, c);
      RialScan(k, Some(u));
    } else {
      SpaceThenAnd(u);
      AndRialScan(k, u);
      RialScan(k, Some(u + [AND, ' ']));
    }
  }

  lemma OpensPastSpace(c: char, z: string)
    requires IsSpace(c) && z != "" && !IsSpace(z[0]) && !Opens(z)
    ensures !Opens([c] + z) && TrimStart([c] + z) == z
  {
    hide FirstWord;
    assert ([c] + z)[1..] == z;
  }

  /** Behind white space a continuation is one more amount, linked to the last one. */
  lemma ContinuationScans(x: string, c: char, t: string, k: nat)
    requires EndOf(Normalize(x), None) == After(Some(t)) && OpenGap(Some(t)) && IsSpace(c)
    ensures var y := [c] + Continuation(t, k);
      && Scan(Normalize(x + y), None) == Scan(Normalize(x), None) + [Raw(k, 0.1, true)]
      && Scan(Normalize(y), None) == [Raw(k, 0.1, false)]
  {
    hide Normalize, Scan, EndOf, IsAnd, AllSpaces, Opens, PlainText, Continuation;
    var n, z, b := Normalize(x), Continuation(t, k), Blank(c);
    Continuations(t, k);
    PlainNormalize(z);
    NormalizeConcat(x, [c] + z);
    NormalizeSpace(c, z);
    OpensPastSpace(b, z);
    assert ([b] + z)[1..] == z;
    var u := ScanBehind(n, [b] + z, None, t);
    ContinuationIsLinked(t, k, u, b);
    ScanSpace(b, z);
  }

  lemma OpenCounts(x: string, c: char, t: string)
    requires EndOf(Normalize(x), None) == After(Some(t)) && OpenGap(Some(t)) && Extendable(Scan(Normalize(x), None)) && IsSpace(c)
    ensures var y := [c] + Continuation(t, 1); |Amounts(x + y)| == |Amounts(x)| && |Amounts(y)| == 1
  {
    hide Normalize, Scan, Groups, EndOf, Amounts, OpenGap, Extendable, Continuation;
    var y := [c] + Continuation(t, 1);
    ContinuationScans(x, c, t, 1);
    RialJoins(Scan(Normalize(x), None), Raw(1, 0.1, true));
    NumberOfAmounts(x);
    NumberOfAmounts(x + y);
    NumberOfAmounts(y);
    OneGroup(Raw(1, 0.1, false));
  }

  /** Behind an incomplete text stands a text that changes the number of its amounts. */
  lemma IncompleteFails(x: string, c: char) returns (z: string)
    requires !Complete(x) && IsSpace(c)
    ensures Amounts(x + ([c] + z)) != Amounts(x) + Amounts([c] + z)
  {
    hide Normalize, Scan, EndOf, OpenGap, Amounts;
    match EndOf(Normalize(x), None)
    case Waiting(_, _) =>
      z := UNITS[0].text;
      WaitingCounts(x, c);
    case After(gap) =>
      assert gap.Some? by { NoOpenGap(); }
      z := Continuation(gap.value, 1);
      OpenCounts(x, c, gap.value);
  }

  lemma NoOpenGap()
    ensures !OpenGap(None)
  {
  }

  /** A text adds its amounts to those of everything that may follow after white space
      if and only if it is complete. */
  lemma CompleteRule(x: string)
    ensures (forall y | Spaced(y) :: Amounts(x + y) == Amounts(x) + Amounts(y)) <==> Complete(x)
  {
    hide Amounts, Complete;
    if Complete(x) {
      forall y | Spaced(y) ensures Amounts(x + y) == Amounts(x) + Amounts(y) { CompleteAdds(x, y); }
    } else {
      var z := IncompleteFails(x, ' ');
      assert Spaced([' '] + z);
    }
  }

  /** The same for a text that ends with a line break, whatever follows. */
  lemma LineBreakRule(x: string)
    ensures (forall y :: Amounts(x + "\n" + y) == Amounts(x + "\n") + Amounts(y)) <==> Complete(x)
  {
    hide Amounts, Complete;
    forall y ensures x + "\n" + y == x + ("\n" + y) && Amounts("\n" + y) == Amounts(y) {
      AmountsSpace('\n', y);
      assert ['\n'] + y == "\n" + y;
    }
    AmountsTrimEnd(x);
    AmountsTrimEnd(x + "\n");
    assert (x + "\n")[..|x + "\n"| - 1] == x;
    assert TrimEnd(x + "\n") == TrimEnd(x);
    if Complete(x) {
      forall y ensures Amounts(x + "\n" + y) == Amounts(x + "\n") + Amounts(y) { CompleteAdds(x, "\n" + y); }
    } else {
      var z := IncompleteFails(x, '\n');
      assert Amounts(x + "\n" + z) != Amounts(x + "\n") + Amounts(z);
    }
  }

  // ----- texts that are complete -----

  lemma {:induction false} TrimStartMark(x: string)
    requires EndsMark(x)
    ensures EndsMark(TrimStart(x))
  {
    if IsSpace(x[0]) { TrimStartMark(x[1..]); }
  }

  lemma AfterWordMark(ws: seq<Word>, x: string)
    requires Solid(ws) && EndsMark(x)
    ensures EndsMark(AfterWord(FirstWord(ws, x), x))
  {
    var w := FirstWord(ws, x);
    if w.Some? {
      assert SolidWord(w.value.text) && w.value.text == x[..|w.value.text|];
    }
  }

  lemma OneMark(x: string)
    requires EndsMark(x) && |x| > 1
    ensures EndsMark(ReadOne(x).rest)
  {
    hide ReadOne, NumberRun, NumberValue, ReadMoney;
    if IsDigit(x[0]) {
      NumberEndsInDigit(x);
      OneNumber(x);
      MoneyMark(x[NumberRun(x)..]);
    } else {
      OneOther(x);
    }
  }

  lemma MoneyMark(x: string)
    requires EndsMark(x)
    ensures EndsMark(ReadMoney(x).rest)
  {
    hide FirstWord, TrimStart, EndsMark, AfterWord;
    WordsAreSolid();
    var x1 := TrimStart(x);
    TrimStartMark(x);
    AfterWordMark(UNITS, x1);
    TrimStartMark(AfterWord(FirstWord(UNITS, x1), x1));
    AfterWordMark(CURRENCIES, TrimStart(AfterWord(FirstWord(UNITS, x1), x1)));
  }

  lemma {:induction false} MarkEnds(x: string, gap: Option<string>)
    requires EndsMark(x)
    ensures EndOf(x, gap).After? && !OpenGap(EndOf(x, gap).gap)
    decreases |x|
  {
    hide ReadOne, EndOf, OpenGap;
    if |x| == 1 {
      OneOther(x);
      EndPassed(x, gap);
      EndNothing(Longer(gap, x));
      MarkShuts(gap, x);
      assert x[..1] == x && x[1..] == "";
    } else {
      OneMark(x);
      var f := ReadOne(x);
      if f.amount.Some? {
        EndFound(x, gap);
        MarkEnds(f.rest, Some(""));
      } else {
        EndPassed(x, gap);
        MarkEnds(f.rest, Longer(gap, x[..|x| - |f.rest|]));
      }
    }
  }

  lemma MarkShuts(gap: Option<string>, x: string)
    requires |x| == 1 && EndsMark(x)
    ensures !OpenGap(Longer(gap, x))
  {
    if gap.Some? {
      var t := gap.value + x;
      assert t[|t| - 1] == x[0];
      if IsAnd(t) { AndHasNoMark(t, |t| - 1); }
    }
  }

  lemma {:induction false} AndHasNoMark(g: string, i: nat)
    requires IsAnd(g) && i < |g|
    ensures !IsMark(g[i])
    decreases |g|
  {
    if IsSpace(g[0]) {
      assert TrimStart(g) == TrimStart(g[1..]);
      if i > 0 { AndHasNoMark(g[1..], i - 1); }
    } else if i > 0 {
      assert g[1..][i - 1] == g[i];
    }
  }

  /** A text that ends with a mark other than a line break is complete. */
  lemma MarkIsComplete(x: string)
    requires EndsMark(x)
    ensures Complete(x)
  {
    hide Normalize, EndsMark, EndOf, OpenGap;
    NormalizeEnd(x);
    MarkEnds(Normalize(x), None);
  }
}
