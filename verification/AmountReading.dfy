/** What a written price means, and that the parser of fa-amounts.util.ts reads it so. */
module AmountReading {
  import opened JsText
  import opened FaAmounts
  import opened AmountSplits

  // ----- written numbers -----

  /** An ASCII, a Persian or an Arabic-Indic figure. */
  predicate IsFigure(c: char) { '0' <= c <= '9' || '\U{06F0}' <= c <= '\U{06F9}' || '\U{0660}' <= c <= '\U{0669}' }

  predicate AllFigures(s: string) { forall i | 0 <= i < |s| :: IsFigure(s[i]) }

  function FigureOf(c: char): Digit
    requires IsFigure(c)
  {
    if c <= '9' then c as int - 48 else if c <= '\U{0669}' then c as int - 0x660 else c as int - 0x6F0
  }

  function ValueOf(s: string): nat
    requires AllFigures(s)
  {
    if s == "" then 0 else 10 * ValueOf(s[..|s| - 1]) + FigureOf(s[|s| - 1])
  }

  /** A whole number: figures, and any number of separators with three figures each behind them. */
  datatype Whole = Plain(figures: string) | Grouped(front: Whole, separator: char, three: string)

  predicate ProperWhole(w: Whole) {
    match w
    case Plain(s) => s != "" && AllFigures(s)
    case Grouped(front, c, s) =>
      ProperWhole(front) && (c == ',' || c == '\U{066C}' || c == '\U{060C}') && |s| == 3 && AllFigures(s)
  }

  function WholeText(w: Whole): string {
    match w
    case Plain(s) => s
    case Grouped(front, c, s) => WholeText(front) + ([c] + s)
  }

  function WholeValue(w: Whole): nat
    requires ProperWhole(w)
  {
    match w
    case Plain(s) => ValueOf(s)
    case Grouped(front, _, s) => 1000 * WholeValue(front) + ValueOf(s)
  }

  // ----- digits -----

  function Ascii(s: string): (r: string)
    requires AllFigures(s)
    ensures |r| == |s| && AllDigits(r)
  {
    seq(|s|, i requires 0 <= i < |s| => DigitChar(FigureOf(s[i])))
  }

  /** A whole number in ASCII, with and without its separators. */
  function AsciiText(w: Whole): string
    requires ProperWhole(w)
  {
    match w
    case Plain(s) => Ascii(s)
    case Grouped(front, c, s) => AsciiText(front) + ([c] + Ascii(s))
  }

  function AsciiDigits(w: Whole): (r: string)
    requires ProperWhole(w)
    ensures r != "" && AllDigits(r)
  {
    match w
    case Plain(s) => Ascii(s)
    case Grouped(front, _, s) => AsciiDigits(front) + Ascii(s)
  }

  lemma {:induction false} AsciiValue(s: string)
    requires AllFigures(s)
    ensures Number(Digits(Ascii(s))) == ValueOf(s)
  {
    if s != "" {
      var n := |s| - 1;
      AsciiValue(s[..n]);
      assert Ascii(s)[..n] == Ascii(s[..n]);
      assert Digits(Ascii(s))[..n] == Digits(Ascii(s[..n]));
    }
  }

  lemma NumberNext(s: string, c: char)
    requires AllDigits(s) && IsDigit(c)
    ensures AllDigits(s + [c]) && Number(Digits(s + [c])) == 10 * Number(Digits(s)) + DigitValue(c)
  {
    assert Digits(s + [c])[..|s|] == Digits(s);
  }

  lemma ThreeMore(s: string, t: string)
    requires AllDigits(s) && AllDigits(t) && |t| == 3
    ensures AllDigits(s + t) && Number(Digits(s + t)) == 1000 * Number(Digits(s)) + Number(Digits(t))
  {
    hide Number;
    assert s + t == s + [t[0]] + [t[1]] + [t[2]] && t == [] + [t[0]] + [t[1]] + [t[2]];
    NumberNext(s, t[0]);
    NumberNext(s + [t[0]], t[1]);
    NumberNext(s + [t[0]] + [t[1]], t[2]);
    NumberNext([], t[0]);
    NumberNext([] + [t[0]], t[1]);
    NumberNext([] + [t[0]] + [t[1]], t[2]);
    NoNumber();
  }

  lemma NoNumber()
    ensures Digits("") == [] && Number([]) == 0
  {
  }

  lemma {:induction false} WholeReads(w: Whole)
    requires ProperWhole(w)
    ensures Number(Digits(AsciiDigits(w))) == WholeValue(w)
  {
    hide Number, Digits, Ascii, ValueOf;
    match w
    case Plain(s) => AsciiValue(s);
    case Grouped(front, c, s) =>
      WholeReads(front);
      AsciiValue(s);
      ThreeMore(AsciiDigits(front), Ascii(s));
  }

  // ----- normalisation of a number -----

  lemma FigureLetter(c: char)
    requires IsFigure(c)
    ensures c != '\U{0640}' && Letter(c) == DigitChar(FigureOf(c))
  {
  }

  lemma {:induction false} FigureLetters(s: string)
    requires AllFigures(s)
    ensures Letters(s) == Ascii(s)
  {
    if s != "" {
      hide Letter, FigureOf, DigitChar, IsFigure;
      FigureLetter(s[0]);
      FigureLetters(s[1..]);
      AsciiNext(s);
    }
  }

  lemma AsciiNext(s: string)
    requires s != "" && AllFigures(s)
    ensures AllFigures(s[1..]) && Ascii(s) == [DigitChar(FigureOf(s[0]))] + Ascii(s[1..])
  {
    hide FigureOf, DigitChar, IsFigure;
  }

  lemma {:induction false} WholeLetters(w: Whole)
    requires ProperWhole(w)
    ensures Letters(WholeText(w)) == AsciiText(w)
  {
    match w
    case Plain(s) => FigureLetters(s);
    case Grouped(front, c, s) =>
      WholeLetters(front);
      LettersConcat(WholeText(front), [c] + s);
      LettersConcat([c], s);
      SeparatorLetter(c);
      FigureLetters(s);
  }

  lemma SeparatorLetter(c: char)
    requires c == ',' || c == '\U{066C}' || c == '\U{060C}' || c == '.' || c == '/' || c == '\U{066B}'
    ensures Letters([c]) == [c]
  {
    assert [c][1..] == "";
  }

  // ----- decimal signs and separators -----

  predicate NoSigns(s: string) { forall i | 0 <= i < |s| :: s[i] != '/' && s[i] != '\U{066B}' }

  predicate NoSeparators(s: string) { forall i | 0 <= i < |s| :: s[i] != ',' && s[i] != '\U{066C}' && s[i] != '\U{060C}' }

  function After(prev: bool, s: string): bool { if s == "" then prev else IsDigit(s[|s| - 1]) }

  lemma {:induction false} DecimalsPast(prev: bool, x: string, y: string)
    requires NoSigns(x)
    ensures Decimals(prev, x + y) == x + Decimals(After(prev, x), y)
    decreases |x|
  {
    if x == "" {
      assert x + y == y;
    } else {
      Head(x, y);
      assert x[1..] != "" ==> x[1..][|x| - 2] == x[|x| - 1];
      DecimalsPast(IsDigit(x[0]), x[1..], y);
      assert x == [x[0]] + x[1..];
    }
  }

  lemma {:induction false} ThousandsPast(prev: bool, x: string, y: string)
    requires NoSeparators(x)
    ensures Thousands(prev, x + y) == x + Thousands(After(prev, x), y)
    decreases |x|
  {
    if x == "" {
      assert x + y == y;
    } else {
      Head(x, y);
      assert x[1..] != "" ==> x[1..][|x| - 2] == x[|x| - 1];
      ThousandsPast(IsDigit(x[0]), x[1..], y);
      assert x == [x[0]] + x[1..];
    }
  }

  lemma NothingPast(prev: bool)
    ensures Decimals(prev, "") == "" && Thousands(prev, "") == ""
  {
  }

  lemma DigitsAreTame(s: string)
    requires AllDigits(s)
    ensures NoSigns(s) && NoSeparators(s) && (s != "" ==> After(false, s) && After(true, s))
  {
  }

  lemma {:induction false} WholeSigns(w: Whole)
    requires ProperWhole(w)
    ensures AsciiText(w) != "" && NoSigns(AsciiText(w)) && After(false, AsciiText(w))
  {
    match w
    case Plain(s) => DigitsAreTame(Ascii(s));
    case Grouped(front, c, s) =>
      WholeSigns(front);
      DigitsAreTame(Ascii(s));
  }

  /** Every separator goes in one pass. */
  lemma {:induction false} WholeThousands(w: Whole, y: string)
    requires ProperWhole(w) && (y == "" || !IsDigit(y[0]))
    ensures Thousands(false, AsciiText(w) + y) == AsciiDigits(w) + Thousands(true, y)
    decreases w
  {
    hide Thousands, Ascii;
    match w
    case Plain(s) =>
      DigitsAreTame(Ascii(s));
      ThousandsPast(false, Ascii(s), y);
    case Grouped(front, c, s) =>
      var t := Ascii(s);
      WholeThousands(front, [c] + (t + y));
      SeparatorGoes(c, t, y);
      assert AsciiText(w) + y == AsciiText(front) + ([c] + (t + y));
      assert AsciiDigits(front) + (t + Thousands(true, y)) == AsciiDigits(w) + Thousands(true, y);
  }

  lemma SeparatorGoes(c: char, t: string, y: string)
    requires (c == ',' || c == '\U{066C}' || c == '\U{060C}') && AllDigits(t) && |t| == 3 && (y == "" || !IsDigit(y[0]))
    ensures Thousands(true, [c] + (t + y)) == t + Thousands(true, y)
  {
    assert ([c] + (t + y))[1..] == t + y;
    assert ThreeDigits(t + y);
    DigitsAreTame(t);
    ThousandsPast(false, t, y);
  }

  // ----- written prices -----

  /** White space, or the zero-width non-joiner. */
  predicate AllBlank(s: string) { forall i | 0 <= i < |s| :: IsSpace(s[i]) || s[i] == '\U{200C}' }

  /** `w` itself, or with the Arabic yeh for the Persian one. */
  predicate Spells(u: string, w: string) {
    |u| == |w| && forall i | 0 <= i < |w| :: u[i] == w[i] || (w[i] == '\U{06CC}' && u[i] == '\U{064A}')
  }

  const MILLIARD := "\U{0645}\U{06CC}\U{0644}\U{06CC}\U{0627}\U{0631}\U{062F}"
  const MILLION := "\U{0645}\U{06CC}\U{0644}\U{06CC}\U{0648}\U{0646}"
  const MELYUN := "\U{0645}\U{0644}\U{06CC}\U{0648}\U{0646}"
  const THOUSAND := "\U{0647}\U{0632}\U{0627}\U{0631}"
  const TOMAN := "\U{062A}\U{0648}\U{0645}\U{0627}\U{0646}"
  const TOMAN_AS_SAID := "\U{062A}\U{0648}\U{0645}\U{0646}"
  const RIAL := "\U{0631}\U{06CC}\U{0627}\U{0644}"

  /** A word of a price: a unit and what it is worth, a currency and its part of a toman. */
  datatype Unit = One | Milliard | Million | Melyun | Thousand {
    function Text(): string {
      match this
      case One => ""
      case Milliard => MILLIARD
      case Million => MILLION
      case Melyun => MELYUN
      case Thousand => THOUSAND
    }

    function Worth(): nat {
      match this
      case One => 1
      case Milliard => 1_000_000_000
      case Million => 1_000_000
      case Melyun => 1_000_000
      case Thousand => 1000
    }
  }

  datatype Currency = Unsaid | InToman | InTomanAsSaid | InRial {
    function Text(): string {
      match this
      case Unsaid => ""
      case InToman => TOMAN
      case InTomanAsSaid => TOMAN_AS_SAID
      case InRial => RIAL
    }

    /** How many make a toman. */
    function InOne(): nat { if InRial? then 10 else 1 }
  }

  /** A price as it is written: a number, perhaps with a decimal sign and a fraction, a unit, a currency,
      and the blanks between them. */
  datatype Price = Price(
    whole: Whole, sign: char, fraction: string, gap: string, unit: Unit, unitText: string,
    gap2: string, currency: Currency, currencyText: string)

  predicate Proper(p: Price) {
    && ProperWhole(p.whole) && AllFigures(p.fraction)
    && (p.sign == '.' || p.sign == '/' || p.sign == '\U{066B}')
    && AllBlank(p.gap) && AllBlank(p.gap2)
    && Spells(p.unitText, p.unit.Text()) && Spells(p.currencyText, p.currency.Text())
    && !(p.unit.One? && p.currency.Unsaid?)
  }

  function FractionText(p: Price): string { if p.fraction == "" then "" else [p.sign] + p.fraction }

  function PriceText(p: Price): string {
    WholeText(p.whole) + (FractionText(p) + (p.gap + (p.unitText + (p.gap2 + p.currencyText))))
  }

  /** The nearest whole number to `a / b`, halves upward. */
  function Nearest(a: nat, b: nat): nat
    requires b > 0
  {
    (2 * a + b) / (2 * b)
  }

  /** What a price is worth in toman. */
  lemma NonNegative(a: nat, b: nat)
    ensures a * b >= 0
  {
  }

  function Worth(p: Price): nat
    requires Proper(p)
  {
    var scale := Pow10(|p.fraction|);
    NonNegative(WholeValue(p.whole), scale);
    NonNegative(WholeValue(p.whole) * scale + ValueOf(p.fraction), p.unit.Worth());
    Nearest((WholeValue(p.whole) * scale + ValueOf(p.fraction)) * p.unit.Worth(), scale * p.currency.InOne())
  }

  // ----- normalisation of a price -----

  function PlainFraction(p: Price): string
    requires Proper(p)
  {
    if p.fraction == "" then "" else "." + Ascii(p.fraction)
  }

  function PlainWords(p: Price): string {
    Blanks(p.gap) + (p.unit.Text() + (Blanks(p.gap2) + p.currency.Text()))
  }

  function PlainPrice(p: Price): string
    requires Proper(p)
  {
    AsciiDigits(p.whole) + (PlainFraction(p) + PlainWords(p))
  }

  /** A character that a word of a price or a blank can be. */
  predicate WordChar(c: char) {
    !IsDigit(c) && c != '.' && c != '/' && c != '\U{066B}' && c != ',' && c != '\U{066C}' && c != '\U{060C}'
  }

  predicate WordText(s: string) { forall i | 0 <= i < |s| :: WordChar(s[i]) }

  predicate Canonical(s: string) { forall i | 0 <= i < |s| :: Letter(s[i]) == s[i] && s[i] != '\U{0640}' && Blank(s[i]) == s[i] && WordChar(s[i]) }

  lemma UnitIsCanonical(u: Unit)
    ensures Canonical(u.Text())
  {
  }

  lemma CurrencyIsCanonical(c: Currency)
    ensures Canonical(c.Text())
  {
  }

  lemma {:induction false} SpelledLetters(u: string, w: string)
    requires Spells(u, w) && Canonical(w)
    ensures Letters(u) == w && Blanks(w) == w && WordText(w)
  {
    if w != "" {
      assert Spells(u[1..], w[1..]) && Canonical(w[1..]);
      SpelledLetters(u[1..], w[1..]);
      SpelledLetter(u[0], w[0]);
      assert w == [w[0]] + w[1..];
    }
  }

  lemma SpelledLetter(c: char, d: char)
    requires c == d || (d == '\U{06CC}' && c == '\U{064A}')
    requires Letter(d) == d && d != '\U{0640}'
    ensures Letter(c) == d && c != '\U{0640}'
  {
  }

  lemma {:induction false} BlankLetters(s: string)
    requires AllBlank(s)
    ensures Letters(s) == s && AllSpaces(Blanks(s)) && WordText(s)
  {
    if s != "" {
      BlankLetter(s[0]);
      BlankLetters(s[1..]);
      assert s == [s[0]] + s[1..];
    }
  }

  lemma BlankLetter(c: char)
    requires IsSpace(c) || c == '\U{200C}'
    ensures Letter(c) == c && c != '\U{0640}' && IsSpace(Blank(c)) && WordChar(c)
  {
  }

  lemma WordsConcat(x: string, y: string)
    requires WordText(x) && WordText(y)
    ensures WordText(x + y)
  {
  }

  lemma WordsAreTame(s: string)
    requires WordText(s)
    ensures NoSigns(s) && NoSeparators(s) && (s != "" ==> !IsDigit(s[0]) && s[0] != '.')
  {
  }

  /** The words of a price after the letters are made one. */
  lemma WordLetters(p: Price)
    requires Proper(p)
    ensures var words := p.gap + (p.unit.Text() + (p.gap2 + p.currency.Text()));
      && Letters(p.gap + (p.unitText + (p.gap2 + p.currencyText))) == words
      && Blanks(words) == PlainWords(p) && WordText(words)
  {
    hide Letters, Blanks, WordText, Spells, AllBlank, Canonical;
    var u, c := p.unit.Text(), p.currency.Text();
    UnitIsCanonical(p.unit);
    CurrencyIsCanonical(p.currency);
    SpelledLetters(p.unitText, u);
    SpelledLetters(p.currencyText, c);
    BlankLetters(p.gap);
    BlankLetters(p.gap2);
    LettersConcat(p.gap, p.unitText + (p.gap2 + p.currencyText));
    LettersConcat(p.unitText, p.gap2 + p.currencyText);
    LettersConcat(p.gap2, p.currencyText);
    BlanksConcat(p.gap, u + (p.gap2 + c));
    BlanksConcat(u, p.gap2 + c);
    BlanksConcat(p.gap2, c);
    WordsConcat(p.gap2, c);
    WordsConcat(u, p.gap2 + c);
    WordsConcat(p.gap, u + (p.gap2 + c));
  }

  lemma FractionLetters(p: Price)
    requires Proper(p)
    ensures Letters(FractionText(p)) == if p.fraction == "" then "" else [p.sign] + Ascii(p.fraction)
  {
    if p.fraction != "" {
      LettersConcat([p.sign], p.fraction);
      SeparatorLetter(p.sign);
      FigureLetters(p.fraction);
    }
  }

  /** The decimal sign becomes a dot. */
  lemma FractionDecimals(p: Price, words: string)
    requires Proper(p) && WordText(words)
    ensures Decimals(true, (if p.fraction == "" then "" else [p.sign] + Ascii(p.fraction)) + words) == PlainFraction(p) + words
  {
    hide Ascii;
    WordsAreTame(words);
    assert words + "" == words;
    if p.fraction == "" {
      DecimalsPast(true, words, "");
      NothingPast(After(true, words));
      assert "" + words == words;
    } else {
      var f := Ascii(p.fraction);
      DigitsAreTame(f);
      SignBecomesDot(p.sign, f + words);
      assert ([p.sign] + f) + words == [p.sign] + (f + words);
      DecimalsPast(false, f, words);
      DecimalsPast(After(false, f), words, "");
      NothingPast(After(After(false, f), words));
      assert "." + (f + words) == ("." + f) + words;
    }
  }

  lemma SignBecomesDot(c: char, y: string)
    requires (c == '.' || c == '/' || c == '\U{066B}') && y != "" && IsDigit(y[0])
    ensures Decimals(true, [c] + y) == "." + Decimals(false, y)
  {
    assert ([c] + y)[1..] == y;
  }

  lemma {:induction false} NoSeparatorsNoChange(prev: bool, s: string)
    requires NoSeparators(s)
    ensures Thousands(prev, s) == s
  {
    ThousandsPast(prev, s, "");
    NothingPast(After(prev, s));
    assert s + "" == s;
  }

  lemma FractionIsTame(p: Price, words: string)
    requires Proper(p) && WordText(words)
    ensures var y := PlainFraction(p) + words; NoSeparators(y) && (y == "" || !IsDigit(y[0]))
  {
    hide Ascii;
    WordsAreTame(words);
    DigitsAreTame(Ascii(p.fraction));
  }

  lemma TameConcat(x: string, y: string)
    requires NoSeparators(x) && NoSeparators(y)
    ensures NoSeparators(x + y)
  {
  }

  lemma {:induction false} DigitsBlanks(s: string)
    requires forall i | 0 <= i < |s| :: IsDigit(s[i]) || s[i] == '.'
    ensures Blanks(s) == s
  {
    if s != "" {
      DigitsBlanks(s[1..]);
      assert s == [s[0]] + s[1..];
    }
  }

  /** A price in normal form. */
  lemma PriceNormal(p: Price)
    requires Proper(p)
    ensures Normalize(PriceText(p)) == PlainPrice(p)
  {
    hide Letters, Decimals, Thousands, Blanks, Ascii, WholeText, AsciiText, AsciiDigits, NoSigns, NoSeparators, WordText, Proper,
         ProperWhole, PlainWords, FractionText;
    ProperParts(p);
    var w, d := AsciiText(p.whole), AsciiDigits(p.whole);
    var words := p.gap + (p.unit.Text() + (p.gap2 + p.currency.Text()));
    var raw := p.gap + (p.unitText + (p.gap2 + p.currencyText));
    LettersConcat(WholeText(p.whole), FractionText(p) + raw);
    LettersConcat(FractionText(p), raw);
    WholeLetters(p.whole);
    FractionLetters(p);
    WordLetters(p);
    var f := Letters(FractionText(p));
    WholeSigns(p.whole);
    DecimalsPast(false, w, f + words);
    FractionDecimals(p, words);
    var y := PlainFraction(p) + words;
    FractionIsTame(p, words);
    WholeThousands(p.whole, y);
    NoSeparatorsNoChange(true, y);
    DigitsAreTame(d);
    TameConcat(d, y);
    NoSeparatorsNoChange(false, d + y);
    BlanksConcat(d, y);
    BlanksConcat(PlainFraction(p), words);
    DigitsBlanks(d) by { DigitsOrDot(d); }
    DigitsBlanks(PlainFraction(p)) by { FractionDigits(p); }
  }

  lemma ProperParts(p: Price)
    requires Proper(p)
    ensures ProperWhole(p.whole) && AllFigures(p.fraction) && (p.sign == '.' || p.sign == '/' || p.sign == '\U{066B}')
  {
  }

  lemma DigitsOrDot(s: string)
    requires AllDigits(s)
    ensures forall i | 0 <= i < |s| :: IsDigit(s[i]) || s[i] == '.'
  {
  }

  lemma FractionDigits(p: Price)
    requires Proper(p)
    ensures var s := PlainFraction(p); forall i | 0 <= i < |s| :: IsDigit(s[i]) || s[i] == '.'
  {
    hide Ascii;
  }

  // ----- reading the words -----

  /** The first word that a text opens with, when the ones before it differ from it somewhere. */
  lemma {:induction false} FindsWord(ws: seq<Word>, i: nat, rest: string)
    requires i < |ws| && forall j | 0 <= j < i :: Differ(ws[j].text, ws[i].text)
    ensures ws[i].text <= ws[i].text + rest && FirstWord(ws, ws[i].text + rest) == Some(ws[i])
  {
    if i > 0 {
      assert Differ(ws[0].text, ws[i].text);
      NotOpening(ws[0].text, ws[i].text, rest);
      forall j | 0 <= j < i - 1 ensures Differ(ws[1..][j].text, ws[1..][i - 1].text) {
        assert Differ(ws[j + 1].text, ws[i].text);
      }
      FindsWord(ws[1..], i - 1, rest);
    }
  }

  ghost predicate Differ(a: string, b: string) { exists k: nat :: k < |a| && k < |b| && a[k] != b[k] }

  lemma NotOpening(a: string, b: string, rest: string)
    requires Differ(a, b)
    ensures !(a <= b + rest)
  {
    var k: nat :| k < |a| && k < |b| && a[k] != b[k];
    assert (b + rest)[k] == b[k];
  }

  /** The unit of a price in the table of the parser. */
  lemma UnitWord(u: Unit, rest: string) returns (w: Word)
    requires !u.One?
    ensures w.text == u.Text() && w.factor == u.Worth() as real
    ensures w.text <= u.Text() + rest && FirstWord(UNITS, u.Text() + rest) == Some(w)
  {
    hide FirstWord;
    var i := if u.Milliard? then 0 else if u.Million? then 1 else if u.Melyun? then 2 else 3;
    w := UNITS[i];
    UnitsDiffer();
    FindsWord(UNITS, i, rest);
  }

  lemma UnitsDiffer()
    ensures forall i, j | 0 <= j < i < 4 :: Differ(UNITS[j].text, UNITS[i].text)
  {
    assert UNITS[0].text[4] != UNITS[1].text[4];
    assert UNITS[0].text[1] != UNITS[2].text[1] && UNITS[1].text[1] != UNITS[2].text[1];
    assert UNITS[0].text[0] != UNITS[3].text[0] && UNITS[1].text[0] != UNITS[3].text[0] && UNITS[2].text[0] != UNITS[3].text[0];
  }

  lemma CurrencyWord(c: Currency) returns (w: Word)
    requires !c.Unsaid?
    ensures w.text == c.Text() && w.factor == (if c.InRial? then 0.1 else 1.0)
    ensures FirstWord(CURRENCIES, c.Text()) == Some(w) && FirstWord(UNITS, c.Text()).None?
  {
    hide FirstWord;
    var i := if c.InToman? then 0 else if c.InTomanAsSaid? then 1 else 2;
    w := CURRENCIES[i];
    assert CURRENCIES[0].text[3] != CURRENCIES[1].text[3];
    assert CURRENCIES[0].text[0] != CURRENCIES[2].text[0] && CURRENCIES[1].text[0] != CURRENCIES[2].text[0];
    FindsWord(CURRENCIES, i, "");
    assert w.text + "" == w.text;
    OtherStart(UNITS, c.Text());
  }

  lemma {:induction false} TrimSpaces(s: string, y: string)
    requires AllSpaces(s) && (y == "" || !IsSpace(y[0]))
    ensures TrimStart(s + y) == y
  {
    if s == "" {
      assert s + y == y;
    } else {
      Head(s, y);
      assert AllSpaces(s[1..]);
      TrimSpaces(s[1..], y);
    }
  }

  lemma TextsStart(u: Unit, c: Currency)
    ensures u.Text() != "" <==> !u.One?
    ensures c.Text() != "" <==> !c.Unsaid?
    ensures u.Text() != "" ==> !IsSpace(u.Text()[0])
    ensures c.Text() != "" ==> !IsSpace(c.Text()[0])
  {
  }

  lemma CurrencyReads(unit: Option<Word>, c: Currency) returns (m: Money)
    ensures m == ReadCurrency(unit, c.Text()) && m.unit == unit && m.rest == ""
    ensures m.currency.Some? <==> !c.Unsaid?
    ensures m.currency.Some? ==> m.currency.value.factor == if c.InRial? then 0.1 else 1.0
  {
    hide FirstWord;
    m := ReadCurrency(unit, c.Text());
    if c.Unsaid? {
      WordsAreSolid();
      NoWordInNothing(CURRENCIES);
    } else {
      var w := CurrencyWord(c);
      assert c.Text()[|w.text|..] == "";
    }
  }

  /** What a price multiplies its number with. */
  function FactorOf(p: Price): real { p.unit.Worth() as real * (if p.currency.InRial? then 0.1 else 1.0) }

  lemma WordsRead(p: Price)
    requires Proper(p)
    ensures var m := ReadMoney(PlainWords(p)); m.Some() && m.Factor() == FactorOf(p) && m.rest == ""
  {
    hide FirstWord, Blanks, AllBlank, Spells, ReadMoney;
    BlankLetters(p.gap);
    BlankLetters(p.gap2);
    if p.unit.One? {
      CurrencyRead(Blanks(p.gap), Blanks(p.gap2), p.currency);
    } else {
      UnitRead(Blanks(p.gap), p.unit, Blanks(p.gap2), p.currency);
    }
  }

  lemma CurrencyRead(g: string, h: string, currency: Currency)
    requires AllSpaces(g) && AllSpaces(h) && !currency.Unsaid?
    ensures var m := ReadMoney(g + ("" + (h + currency.Text())));
      m.unit.None? && m.currency.Some? && m.rest == ""
      && m.currency.value.factor == if currency.InRial? then 0.1 else 1.0
  {
    hide FirstWord, TrimStart, AllSpaces, ReadCurrency;
    var c := currency.Text();
    TextsStart(One, currency);
    assert g + ("" + (h + c)) == (g + h) + c && "" + c == c;
    SpacesConcat(g, h);
    TrimSpaces(g + h, c);
    TrimSpaces("", c) by { NoSpace(); }
    var m := CurrencyReads(None, currency);
    NoUnitInCurrency(currency);
    NoAfter(c);
  }

  lemma UnitRead(g: string, unit: Unit, h: string, currency: Currency)
    requires AllSpaces(g) && AllSpaces(h) && !unit.One?
    ensures var m := ReadMoney(g + (unit.Text() + (h + currency.Text())));
      m.unit.Some? && m.unit.value.factor == unit.Worth() as real && m.rest == ""
      && (m.currency.Some? <==> !currency.Unsaid?)
      && (m.currency.Some? ==> m.currency.value.factor == if currency.InRial? then 0.1 else 1.0)
  {
    hide FirstWord, TrimStart, AllSpaces, ReadCurrency;
    var u, c := unit.Text(), currency.Text();
    TextsStart(unit, currency);
    var w := UnitWord(unit, h + c);
    assert !IsSpace((u + (h + c))[0]);
    TrimSpaces(g, u + (h + c));
    assert (u + (h + c))[|u|..] == h + c;
    TrimSpaces(h, c);
    var m := CurrencyReads(Some(w), currency);
  }

  lemma NoSpace()
    ensures AllSpaces("")
  {
  }

  lemma SpacesConcat(a: string, b: string)
    requires AllSpaces(a) && AllSpaces(b)
    ensures AllSpaces(a + b)
  {
  }

  lemma NoUnitInCurrency(c: Currency)
    ensures FirstWord(UNITS, c.Text()).None?
  {
    hide FirstWord;
    if c.Unsaid? {
      WordsAreSolid();
      NoWordInNothing(UNITS);
    } else {
      var w := CurrencyWord(c);
    }
  }

  // ----- reading the number -----

  lemma WordsStart(p: Price)
    requires Proper(p)
    ensures PlainWords(p) == "" || (!IsDigit(PlainWords(p)[0]) && PlainWords(p)[0] != '.')
  {
    hide Blanks, AllBlank, Spells, Canonical;
    var u, c, g, h := p.unit.Text(), p.currency.Text(), Blanks(p.gap), Blanks(p.gap2);
    BlankLetters(p.gap);
    BlankLetters(p.gap2);
    UnitIsCanonical(p.unit);
    CurrencyIsCanonical(p.currency);
    SpacesStart(g);
    SpacesStart(h);
    CanonicalStart(u);
    CanonicalStart(c);
  }

  lemma SpacesStart(s: string)
    requires AllSpaces(s)
    ensures s == "" || (!IsDigit(s[0]) && s[0] != '.')
  {
  }

  lemma CanonicalStart(s: string)
    requires Canonical(s)
    ensures s == "" || (!IsDigit(s[0]) && s[0] != '.')
  {
  }

  lemma RunReads(d: string, f: string, y: string)
    requires d != "" && AllDigits(d) && AllDigits(f) && (y == "" || (!IsDigit(y[0]) && y[0] != '.'))
    ensures var s := d + ((if f == "" then "" else "." + f) + y);
      && s != "" && IsDigit(s[0]) && s[NumberRun(s)..] == y && NumberValue(s) == Decimal(d, f)
  {
    if f == "" {
      assert "" + y == y;
      WholeRunReads(d, y);
    } else {
      FractionRunReads(d, f, y);
    }
  }

  lemma WholeRunReads(d: string, y: string)
    requires d != "" && AllDigits(d) && (y == "" || (!IsDigit(y[0]) && y[0] != '.'))
    ensures var s := d + y;
      && s != "" && IsDigit(s[0]) && s[NumberRun(s)..] == y && NumberValue(s) == Decimal(d, "")
  {
    hide DigitRun, Decimal, AllDigits;
    FirstDigit(d);
    DigitRunAll(d, y);
    assert (d + y)[..|d|] == d && (d + y)[|d|..] == y;
  }

  lemma FractionRunReads(d: string, f: string, y: string)
    requires d != "" && f != "" && AllDigits(d) && AllDigits(f) && (y == "" || !IsDigit(y[0]))
    ensures var s := d + ("." + f + y);
      && s != "" && IsDigit(s[0]) && s[NumberRun(s)..] == y && NumberValue(s) == Decimal(d, f)
  {
    hide DigitRun, Decimal, AllDigits;
    var t := "." + f + y;
    var s := d + t;
    FirstDigit(d);
    DigitRunAll(d, t);
    DigitRunAll(f, y);
    assert s[..|d|] == d && s[|d|..] == t;
    assert t[1..] == f + y && t[1..1 + |f|] == f;
    assert t[1 + |f|..] == y && s[|d| + 1 + |f|..] == t[1 + |f|..];
  }

  lemma FirstDigit(d: string)
    requires d != "" && AllDigits(d)
    ensures IsDigit(d[0])
  {
  }

  // ----- the amount -----

  /** Rounding a quotient of whole numbers. */
  lemma RoundIs(x: real, a: nat, b: nat)
    requires b > 0 && x * b as real == a as real
    ensures Round(x) == Nearest(a, b)
  {
    var q, r := Nearest(a, b), (2 * a + b) % (2 * b);
    assert 2 * a + b == 2 * b * q + r;
    Halves(x, a, b, q, r);
  }

  lemma Halves(x: real, a: nat, b: nat, q: int, r: int)
    requires b > 0 && x * b as real == a as real && 2 * a + b == 2 * b * q + r && 0 <= r < 2 * b
    ensures q as real <= x + 0.5 < q as real + 1.0
  {
    var y, c := x + 0.5 - q as real, (2 * b) as real;
    assert c == 2.0 * b as real;
    assert y * c == 2.0 * (x * b as real) + b as real - 2.0 * (b as real * q as real);
    assert (b * q) as real == b as real * q as real;
    assert y * c == r as real;
    Between(y, c, r as real);
  }

  lemma Between(y: real, c: real, r: real)
    requires c > 0.0 && y * c == r && 0.0 <= r < c
    ensures 0.0 <= y < 1.0
  {
    Signed(y, c);
    Signed(y - 1.0, c);
    assert (y - 1.0) * c == r - c;
  }

  lemma Signed(x: real, d: real)
    requires d > 0.0
    ensures x * d >= 0.0 <==> x >= 0.0
  {
  }

  lemma Product(d: nat, f: nat, scale: nat, u: nat, rial: bool)
    requires scale > 0
    ensures var factor := u as real * if rial then 0.1 else 1.0;
      (d as real + f as real / scale as real) * factor * (scale * if rial then 10 else 1) as real
      == ((d * scale + f) * u) as real
  {
    var x := d as real + f as real / scale as real;
    assert x * scale as real == (d * scale + f) as real;
    if rial {
      assert x * (u as real * 0.1) * (scale * 10) as real == x * scale as real * u as real;
    } else {
      assert x * (u as real * 1.0) * (scale * 1) as real == x * scale as real * u as real;
    }
  }

  lemma TomanIsWorth(p: Price)
    requires Proper(p)
    ensures Toman(Decimal(AsciiDigits(p.whole), Ascii(p.fraction)), FactorOf(p)) == Worth(p)
  {
    hide Ascii, AsciiDigits, WholeValue, ValueOf, Pow10, Nearest, Round, Decimal, Spells, AllBlank;
    DecimalIs(p);
    TomanOf(WholeValue(p.whole), ValueOf(p.fraction), Pow10(|p.fraction|), p.unit.Worth(), p.currency.InRial?);
  }

  lemma DecimalIs(p: Price)
    requires Proper(p)
    ensures Decimal(AsciiDigits(p.whole), Ascii(p.fraction))
         == WholeValue(p.whole) as real + ValueOf(p.fraction) as real / Pow10(|p.fraction|) as real
  {
    hide Number, Digits, Ascii, AsciiDigits, WholeValue, ValueOf, Pow10, Spells, AllBlank;
    WholeReads(p.whole);
    AsciiValue(p.fraction);
  }

  lemma TomanOf(d: nat, f: nat, scale: nat, u: nat, rial: bool)
    requires scale > 0
    ensures (d * scale + f) * u >= 0
    ensures Toman(d as real + f as real / scale as real, u as real * if rial then 0.1 else 1.0)
         == Nearest((d * scale + f) * u, scale * if rial then 10 else 1)
  {
    hide Nearest, Round;
    NonNegative(d, scale);
    NonNegative(d * scale + f, u);
    Product(d, f, scale, u, rial);
    RoundIs((d as real + f as real / scale as real) * (u as real * if rial then 0.1 else 1.0),
      (d * scale + f) * u, scale * if rial then 10 else 1);
  }

  /** One match reads the whole price. */
  lemma PriceReads(p: Price)
    requires Proper(p)
    ensures PlainPrice(p) != "" && ReadOne(PlainPrice(p)) == Found(Some((Worth(p), FactorOf(p))), "")
  {
    hide Ascii, AsciiDigits, NumberRun, NumberValue, ReadMoney, PlainWords, Proper, Toman, Decimal, Worth, FactorOf, ReadOne;
    ProperParts(p);
    WordsStart(p);
    RunReads(AsciiDigits(p.whole), Ascii(p.fraction), PlainWords(p));
    WordsRead(p);
    OneNumber(PlainPrice(p));
    TomanIsWorth(p);
  }

  /** A written price is read as the one amount that it is worth. */
  lemma PriceReadBack(p: Price)
    requires Proper(p)
    ensures Amounts(PriceText(p)) == [Worth(p)]
  {
    hide Amounts, Normalize, PlainPrice, PriceText, ReadOne, Scan, Groups, Sums, Worth, FactorOf, Proper, IsLink;
    PriceNormal(p);
    PriceReads(p);
    ScanFound(PlainPrice(p), None);
    ScanNothing(Some(""));
    var raw := Raw(Worth(p), FactorOf(p), IsLink(None));
    assert [raw] + [] == [raw];
    OneGroup(raw);
    AmountsAre(PriceText(p), [raw]);
  }

  // ----- prices joined by "and" -----

  const LINK := [' ', AND, ' ']

  function Said(ps: seq<Price>): string
    requires ps != []
  {
    if |ps| == 1 then PriceText(ps[0]) else PriceText(ps[0]) + (LINK + Said(ps[1..]))
  }

  ghost predicate AllProper(ps: seq<Price>) { forall i | 0 <= i < |ps| :: Proper(ps[i]) }

  function RawsOfPrices(ps: seq<Price>, linked: bool): seq<Raw>
    requires AllProper(ps)
  {
    if ps == [] then [] else [Raw(Worth(ps[0]), FactorOf(ps[0]), linked)] + RawsOfPrices(ps[1..], true)
  }

  lemma AndAlone()
    ensures Normalize([AND]) == [AND] && !IsDigit(AND) && !IsSpace(AND)
  {
    var s := [AND];
    assert s[1..] == "";
    assert Letters(s) == s && Decimals(false, s) == s;
    assert Thousands(false, s) == s && Blanks(s) == s;
  }

  lemma LinkNormal(y: string)
    ensures Normalize(LINK + y) == LINK + Normalize(y)
  {
    hide Normalize;
    var z := " " + y;
    assert LINK + y == " " + ([AND] + z);
    assert [' '] + ([AND] + z) == " " + ([AND] + z) && [' '] + y == z;
    NormalizeSpace(' ', [AND] + z);
    NormalizeConcat([AND], z);
    NormalizeSpace(' ', y);
    AndAlone();
    assert [Blank(' ')] + ([AND] + ([Blank(' ')] + Normalize(y))) == LINK + Normalize(y);
  }

  lemma LinkQuiet(y: string)
    ensures Spaced(LINK + y) && !Opens(LINK + y) && TrimStart(LINK + y) == [AND, ' '] + y
  {
    hide FirstWord;
    var z := [AND, ' '] + y;
    assert LINK + y == " " + z && (LINK + y)[1..] == z;
    assert TrimStart(z) == z by { AndAlone(); }
    OtherStart(UNITS, z);
    OtherStart(CURRENCIES, z);
  }

  /** Whether the match before took the blank or not, the gap is an "and". */
  lemma LinkScans(y: string, rest: string) returns (t: string)
    requires rest == LINK + y || rest == [AND, ' '] + y
    ensures IsAnd(t) && Scan(rest, Some("")) == Scan(y, Some(t))
  {
    hide Scan, IsAnd;
    if rest == LINK + y {
      assert rest[1..] == [AND, ' '] + y && rest[..1] == " ";
      assert "" + " " == " ";
      ScanPastSpace(rest, Some(""));
      AndScans(y, " ");
      t := " " + [AND, ' '];
    } else {
      AndScans(y, "");
      t := "" + [AND, ' '];
    }
  }

  lemma AndScans(y: string, t: string)
    requires AllSpaces(t)
    ensures IsAnd(t + [AND, ' ']) && Scan([AND, ' '] + y, Some(t)) == Scan(y, Some(t + [AND, ' ']))
  {
    hide Scan, IsAnd, ReadOne;
    SpaceThenAnd(t);
    AndAlone();
    var s, z := [AND, ' '] + y, " " + y;
    assert s[1..] == z && s[..1] == [AND] && z[1..] == y && z[..1] == " ";
    OneOther(s);
    ScanPassed(s, Some(t));
    ScanPastSpace(z, Some(t + [AND]));
    assert t + [AND] + " " == t + [AND, ' '];
  }

  lemma FirstPriceScans(p: Price, y: string, gap: Option<string>) returns (t: string)
    requires Proper(p)
    ensures IsAnd(t)
    ensures Scan(PlainPrice(p) + (LINK + y), gap) == [Raw(Worth(p), FactorOf(p), IsLink(gap))] + Scan(y, Some(t))
  {
    hide Scan, IsAnd, IsLink, ReadOne, Worth, FactorOf, PlainPrice, Proper, Opens, Spaced, TrimStart;
    var x, z := PlainPrice(p), LINK + y;
    PriceReads(p);
    LinkQuiet(y);
    OneQuiet(x, z);
    ScanFound(x + z, gap);
    assert "" + z == z;
    t := LinkScans(y, ReadOne(x + z).rest);
  }

  lemma {:induction false} SaidScans(ps: seq<Price>, gap: Option<string>)
    requires ps != [] && AllProper(ps)
    ensures Scan(Normalize(Said(ps)), gap) == RawsOfPrices(ps, IsLink(gap))
    decreases |ps|
  {
    hide Scan, IsAnd, ReadOne, Worth, FactorOf, PlainPrice, PriceText, Proper, Normalize, IsLink;
    var p := ps[0];
    assert Proper(p);
    PriceNormal(p);
    if |ps| == 1 {
      PriceReads(p);
      ScanFound(PlainPrice(p), gap);
      ScanNothing(Some(""));
    } else {
      var rest := ps[1..];
      assert AllProper(rest) by { RestProper(ps); }
      NormalizeConcat(PriceText(p), LINK + Said(rest));
      LinkNormal(Said(rest));
      var y := Normalize(Said(rest));
      var t := FirstPriceScans(p, y, gap);
      SaidScans(rest, Some(t));
      assert IsLink(Some(t)) by { AndLinks(t); }
    }
  }

  lemma RestProper(ps: seq<Price>)
    requires ps != [] && AllProper(ps)
    ensures AllProper(ps[1..])
  {
    hide Proper;
  }

  lemma AndLinks(t: string)
    requires IsAnd(t)
    ensures IsLink(Some(t))
  {
  }

  // ----- one sum, or several amounts -----

  /** Tenths of a toman that one of the price is worth. */
  function Weight(p: Price): nat { p.unit.Worth() * if p.currency.InRial? then 1 else 10 }

  lemma WeightsCompare(p: Price, q: Price)
    ensures FactorOf(p) > FactorOf(q) <==> Weight(p) > Weight(q)
  {
    assert FactorOf(p) * 10.0 == Weight(p) as real && FactorOf(q) * 10.0 == Weight(q) as real;
  }

  predicate FallingPrices(ps: seq<Price>) { forall i | 0 < i < |ps| :: Weight(ps[i - 1]) > Weight(ps[i]) }

  function Total(ps: seq<Price>): nat
    requires AllProper(ps)
  {
    if ps == [] then 0 else Worth(ps[0]) + Total(ps[1..])
  }

  /** Raws that go on from a group, each joined to the one before it. */
  lemma {:induction false} FallingJoins(gs: seq<seq<Raw>>, g: seq<Raw>, before: seq<Raw>, p: Price, ps: seq<Price>)
      returns (h: seq<Raw>)
    requires AllProper(ps) && FallingPrices([p] + ps)
    requires Groups(before) == gs + [g] && g != [] && LastMult(g) == FactorOf(p)
    ensures Groups(before + RawsOfPrices(ps, true)) == gs + [h] && Sum(h) == Sum(g) + Total(ps)
    decreases |ps|
  {
    hide Groups, Worth, FactorOf, Proper, Weight;
    if ps == [] {
      assert before + [] == before;
      h := g;
    } else {
      var q, rest := ps[0], ps[1..];
      RestProper(ps);
      assert Proper(q);
      var r := Raw(Worth(q), FactorOf(q), true);
      assert Weight(([p] + ps)[0]) > Weight(([p] + ps)[1]);
      WeightsCompare(p, q);
      GroupsAfter(before, r);
      GrowsLast(gs, g, r);
      SumNext(g, r);
      assert before + RawsOfPrices(ps, true) == (before + [r]) + RawsOfPrices(rest, true);
      assert FallingPrices([q] + rest) by { assert [q] + rest == ps; FallingRest(p, ps); }
      h := FallingJoins(gs, g + [r], before + [r], q, rest);
    }
  }

  lemma FallingRest(p: Price, ps: seq<Price>)
    requires FallingPrices([p] + ps)
    ensures FallingPrices(ps)
  {
    hide Weight;
    forall i | 0 < i < |ps| ensures Weight(ps[i - 1]) > Weight(ps[i]) {
      assert ([p] + ps)[i] == ps[i - 1] && ([p] + ps)[i + 1] == ps[i];
    }
  }

  lemma GrowsLast(gs: seq<seq<Raw>>, g: seq<Raw>, r: Raw)
    requires g != [] && r.linked && LastMult(g) > r.mult
    ensures Grow(gs + [g], r) == gs + [g + [r]] && LastMult(g + [r]) == r.mult
  {
    assert (gs + [g])[..|gs|] == gs;
  }

  lemma OneSumOf(h: seq<Raw>)
    ensures Sums([h]) == [Sum(h)]
  {
  }

  /** Prices with falling weights that are joined by "and" are read as the one amount of all of them. */
  lemma SumReadBack(ps: seq<Price>)
    requires ps != [] && AllProper(ps) && FallingPrices(ps)
    ensures Amounts(Said(ps)) == [Total(ps)]
  {
    hide Amounts, Scan, Groups, Sums, Sum, Worth, FactorOf, Proper, Said, IsLink, FallingPrices;
    var p, rest := ps[0], ps[1..];
    SaidScans(ps, None);
    AmountsAre(Said(ps), RawsOfPrices(ps, IsLink(None)));
    RestProper(ps);
    var raw := Raw(Worth(p), FactorOf(p), IsLink(None));
    assert [p] + rest == ps;
    OneGroup(raw);
    assert [] + [[raw]] == [[raw]];
    OneRaw(raw);
    var h := FallingJoins([], [raw], [raw], p, rest);
    assert [] + [h] == [h];
    OneSumOf(h);
  }

  lemma OneRaw(r: Raw)
    ensures LastMult([r]) == r.mult && Sum([r]) == r.value
  {
    AmountSplits.OneSum(r);
  }

  lemma TwoPrices(p: Price, q: Price, linked: bool)
    requires Proper(p) && Proper(q)
    ensures Total([p, q]) == Worth(p) + Worth(q)
    ensures RawsOfPrices([p, q], linked) == [Raw(Worth(p), FactorOf(p), linked)] + [Raw(Worth(q), FactorOf(q), true)]
  {
    hide Worth, FactorOf, Proper;
    assert [p, q][1..] == [q] && [q][1..] == [];
    assert Total([q]) == Worth(q);
    assert RawsOfPrices([q], true) == [Raw(Worth(q), FactorOf(q), true)];
  }

  /** Two prices joined by "and" are one amount if and only if the first weighs more. */
  lemma TwoPricesReadBack(p: Price, q: Price)
    requires Proper(p) && Proper(q)
    ensures Amounts(PriceText(p) + (LINK + PriceText(q))) == if Weight(p) > Weight(q) then [Worth(p) + Worth(q)] else [Worth(p), Worth(q)]
  {
    hide Amounts, Scan, Groups, Sums, Worth, FactorOf, Proper, IsLink, PriceText, Weight;
    var ps := [p, q];
    assert ps[1..] == [q] && [q][1..] == [];
    assert Said(ps) == PriceText(p) + (LINK + PriceText(q));
    if Weight(p) > Weight(q) {
      SumReadBack(ps);
      TwoPrices(p, q, true);
    } else {
      SaidScans(ps, None);
      var a, b := Raw(Worth(p), FactorOf(p), IsLink(None)), Raw(Worth(q), FactorOf(q), true);
      TwoPrices(p, q, IsLink(None));
      AmountsAre(Said(ps), [a] + [b]);
      WeightsCompare(p, q);
      GroupsConcat([a], [b]);
      OneGroup(a);
      OneGroup(b);
      SumsConcat(Groups([a]), Groups([b]));
    }
  }

  // ----- prices of whole numbers -----

  lemma {:induction false} AsciiFigures(s: string)
    requires AllDigits(s)
    ensures AllFigures(s) && Ascii(s) == s
  {
  }

  /** A blank between two words. */
  function Gap2(unit: Unit, currency: Currency): string { if unit.One? || currency.Unsaid? then "" else " " }

  function Simple(n: nat, unit: Unit, currency: Currency): Price {
    Price(Plain(NatText(n)), '.', "", " ", unit, unit.Text(), Gap2(unit, currency), currency, currency.Text())
  }

  function SimpleText(n: nat, unit: Unit, currency: Currency): string {
    NatText(n) + (" " + (unit.Text() + (Gap2(unit, currency) + currency.Text())))
  }

  lemma SimpleIsWorth(n: nat, unit: Unit, currency: Currency)
    requires !(unit.One? && currency.Unsaid?)
    ensures var p := Simple(n, unit, currency);
      Proper(p) && PriceText(p) == SimpleText(n, unit, currency) && Worth(p) == Nearest(n * unit.Worth(), currency.InOne())
  {
    hide NatText, Nearest;
    AsciiFigures(NatText(n));
    AsciiValue(NatText(n));
    assert ValueOf("") == 0 && Pow10(0) == 1;
    assert "" + (" " + (unit.Text() + (Gap2(unit, currency) + currency.Text())))
        == " " + (unit.Text() + (Gap2(unit, currency) + currency.Text()));
  }

  lemma SimpleReads(n: nat, unit: Unit, currency: Currency)
    requires !(unit.One? && currency.Unsaid?)
    ensures Amounts(SimpleText(n, unit, currency)) == [Nearest(n * unit.Worth(), currency.InOne())]
  {
    hide Amounts, PriceText, SimpleText, Worth, Proper, Nearest;
    SimpleIsWorth(n, unit, currency);
    PriceReadBack(Simple(n, unit, currency));
  }

  lemma Nearests(n: nat)
    ensures Nearest(n, 1) == n && Nearest(n, 10) == (n + 5) / 10
  {
    assert 2 * 1 == 2 && 2 * 10 == 20;
    assert (2 * n + 1) / 2 == n;
    assert (2 * n + 10) / 20 == (n + 5) / 10;
  }


  lemma WordAlone(n: nat, unit: Unit)
    requires !unit.One?
    ensures SimpleText(n, unit, Unsaid) == NatText(n) + (" " + unit.Text())
    ensures SimpleText(n, unit, InToman) == NatText(n) + (" " + (unit.Text() + (" " + TOMAN)))
  {
    hide NatText;
    assert unit.Text() + ("" + "") == unit.Text();
  }

  lemma CurrencyAlone(n: nat, currency: Currency)
    ensures SimpleText(n, One, currency) == NatText(n) + (" " + currency.Text())
  {
    hide NatText;
    assert "" + ("" + currency.Text()) == currency.Text();
  }

  /** A printed number with a word behind it. */
  lemma UnitReadBack(n: nat)
    ensures Amounts(NatText(n) + (" " + THOUSAND)) == [n * 1000]
    ensures Amounts(NatText(n) + (" " + MILLION)) == Amounts(NatText(n) + (" " + MELYUN)) == [n * 1_000_000]
    ensures Amounts(NatText(n) + (" " + MILLIARD)) == [n * 1_000_000_000]
    ensures Amounts(NatText(n) + (" " + TOMAN)) == Amounts(NatText(n) + (" " + TOMAN_AS_SAID)) == [n]
    ensures Amounts(NatText(n) + (" " + RIAL)) == [(n + 5) / 10]
  {
    hide Amounts, NatText, SimpleText, Nearest;
    WordReads(n, Thousand);
    WordReads(n, Million);
    WordReads(n, Melyun);
    WordReads(n, Milliard);
    CurrencyAlone(n, InToman);
    CurrencyAlone(n, InTomanAsSaid);
    CurrencyAlone(n, InRial);
    SimpleReads(n, One, InToman);
    SimpleReads(n, One, InTomanAsSaid);
    SimpleReads(n, One, InRial);
    Nearests(n);
  }

  lemma WordReads(n: nat, unit: Unit)
    requires !unit.One?
    ensures Amounts(NatText(n) + (" " + unit.Text())) == [n * unit.Worth()]
  {
    hide Amounts, NatText, SimpleText, Nearest;
    WordAlone(n, unit);
    SimpleReads(n, unit, Unsaid);
    Nearests(n * unit.Worth());
  }

  /** Millions and thousands that are said together are one amount. */
  lemma MillionsAndThousands(n: nat, m: nat)
    ensures Amounts(NatText(n) + (" " + MILLION) + (LINK + (NatText(m) + (" " + (THOUSAND + (" " + TOMAN))))))
         == [n * 1_000_000 + m * 1000]
  {
    hide Amounts, NatText, SimpleText, Nearest, PriceText, Worth, Proper;
    WordAlone(n, Million);
    WordAlone(m, Thousand);
    SimpleIsWorth(n, Million, Unsaid);
    SimpleIsWorth(m, Thousand, InToman);
    Nearests(n * 1_000_000);
    Nearests(m * 1000);
    TwoPricesReadBack(Simple(n, Million, Unsaid), Simple(m, Thousand, InToman));
  }

  // ----- spellings -----

  /** Arabic letters read as their Persian forms, and the stretching character is not there. */
  lemma SpellingsAgree(a: string, b: string)
    ensures Amounts(a + (['\U{064A}'] + b)) == Amounts(a + (['\U{06CC}'] + b))
    ensures Amounts(a + (['\U{0643}'] + b)) == Amounts(a + (['\U{06A9}'] + b))
    ensures Amounts(a + (['\U{0640}'] + b)) == Amounts(a + b)
  {
    hide Letters, Amounts;
    LettersAround(a, '\U{064A}', b);
    LettersAround(a, '\U{06CC}', b);
    LettersAround(a, '\U{0643}', b);
    LettersAround(a, '\U{06A9}', b);
    LettersAround(a, '\U{0640}', b);
    LettersConcat(a, b);
    assert "" + Letters(b) == Letters(b);
    LettersDecide(a + (['\U{064A}'] + b), a + (['\U{06CC}'] + b));
    LettersDecide(a + (['\U{0643}'] + b), a + (['\U{06A9}'] + b));
    LettersDecide(a + (['\U{0640}'] + b), a + b);
  }

  lemma LettersDecide(x: string, y: string)
    requires Letters(x) == Letters(y)
    ensures Amounts(x) == Amounts(y)
  {
    hide Letters, Thousands, Decimals, Blanks, Scan, Groups, Sums;
  }

  lemma LettersAround(a: string, c: char, b: string)
    ensures Letters(a + ([c] + b)) == Letters(a) + ((if c == '\U{0640}' then "" else [Letter(c)]) + Letters(b))
  {
    LettersConcat(a, [c] + b);
    assert ([c] + b)[1..] == b;
  }
}
