/** The Persian amount parser of fa-amounts.util.ts: normalisation, the amount
    pattern, and the merging of amounts joined by "and". */
module FaAmounts {
  import opened JsText

  // ----- normalisation -----

  function Letter(c: char): char {
    var d := EnglishDigit(c);
    if d == '\U{064A}' then '\U{06CC}' else if d == '\U{0643}' then '\U{06A9}' else d
  }

  /** Digits and two letters in one form, without the stretching character. */
  function Letters(s: string): string {
    if s == "" then "" else (if s[0] == '\U{0640}' then "" else [Letter(s[0])]) + Letters(s[1..])
  }

  /** A decimal sign between two digits becomes a dot; `prev` says that a digit came before. */
  function Decimals(prev: bool, s: string): string
    decreases |s|
  {
    if s == "" then "" else
    var c := if s[0] in {'\U{066B}', '/'} && prev && |s| > 1 && IsDigit(s[1]) then '.' else s[0];
    [c] + Decimals(IsDigit(s[0]), s[1..])
  }

  predicate ThreeDigits(s: string) {
    |s| >= 3 && IsDigit(s[0]) && IsDigit(s[1]) && IsDigit(s[2]) && (|s| > 3 ==> !IsDigit(s[3]))
  }

  /** A thousands separator between a digit and exactly three digits is removed. */
  function Thousands(prev: bool, s: string): string
    decreases |s|
  {
    if s == "" then ""
    else if s[0] in {',', '\U{066C}', '\U{060C}'} && prev && ThreeDigits(s[1..]) then Thousands(false, s[1..])
    else [s[0]] + Thousands(IsDigit(s[0]), s[1..])
  }

  function Blank(c: char): char { if c == '\U{200C}' || c == '\U{A0}' then ' ' else c }

  function Blanks(s: string): string {
    if s == "" then "" else [Blank(s[0])] + Blanks(s[1..])
  }

  function Normalize(text: string): string {
    Blanks(Thousands(false, Thousands(false, Decimals(false, Letters(text)))))
  }

  // ----- one match of the pattern -----

  datatype Word = Word(text: string, factor: real)

  const UNITS: seq<Word> := [
    Word("\U{0645}\U{06CC}\U{0644}\U{06CC}\U{0627}\U{0631}\U{062F}", 1_000_000_000.0),
    Word("\U{0645}\U{06CC}\U{0644}\U{06CC}\U{0648}\U{0646}", 1_000_000.0),
    Word("\U{0645}\U{0644}\U{06CC}\U{0648}\U{0646}", 1_000_000.0),
    Word("\U{0647}\U{0632}\U{0627}\U{0631}", 1_000.0)]

  /** Toman twice, and the rial, a tenth of it. */
  const CURRENCIES: seq<Word> := [
    Word("\U{062A}\U{0648}\U{0645}\U{0627}\U{0646}", 1.0),
    Word("\U{062A}\U{0648}\U{0645}\U{0646}", 1.0),
    Word("\U{0631}\U{06CC}\U{0627}\U{0644}", 0.1)]

  function FirstWord(ws: seq<Word>, s: string): (r: Option<Word>)
    ensures r.Some? ==> r.value.text <= s && r.value in ws
  {
    if ws == [] then None else if ws[0].text <= s then Some(ws[0]) else FirstWord(ws[1..], s)
  }

  /** The length of the fraction after a dot, if there is one. */
  function FractionRun(s: string): (n: nat)
    ensures n > 0 ==> 1 + n <= |s| && s[0] == '.' && AllDigits(s[1..1 + n])
  {
    if |s| > 1 && s[0] == '.' then
      assert s[1..][..DigitRun(s[1..])] == s[1..1 + DigitRun(s[1..])];
      DigitRun(s[1..])
    else 0
  }

  function NumberRun(s: string): (n: nat)
    ensures n <= |s| && (s != "" && IsDigit(s[0]) ==> n > 0)
  {
    var d := DigitRun(s);
    var f := FractionRun(s[d..]);
    if f > 0 then d + 1 + f else d
  }

  function NumberValue(s: string): real {
    var d := DigitRun(s);
    var f := FractionRun(s[d..]);
    Decimal(s[..d], if f > 0 then s[d..][1..1 + f] else "")
  }

  /** The words after a number, with the spaces around them, and the text that is left. */
  datatype Money = Money(unit: Option<Word>, currency: Option<Word>, rest: string) {
    predicate Some() { unit.Some? || currency.Some? }

    function Factor(): real {
      (if unit.Some? then unit.value.factor else 1.0) * (if currency.Some? then currency.value.factor else 1.0)
    }
  }

  function AfterWord(w: Option<Word>, s: string): string
    requires w.Some? ==> w.value.text <= s
  {
    if w.Some? then s[|w.value.text|..] else s
  }

  function ReadCurrency(unit: Option<Word>, s: string): Money {
    var currency := FirstWord(CURRENCIES, s);
    Money(unit, currency, AfterWord(currency, s))
  }

  function ReadMoney(s: string): (m: Money)
    ensures |m.rest| <= |s|
  {
    TrimStartShortens(s);
    var r1 := TrimStart(s);
    var unit := FirstWord(UNITS, r1);
    TrimStartShortens(AfterWord(unit, r1));
    ReadCurrency(unit, TrimStart(AfterWord(unit, r1)))
  }

  lemma {:induction false} TrimStartShortens(s: string)
    ensures |TrimStart(s)| <= |s|
  {
    if s != "" && IsSpace(s[0]) { TrimStartShortens(s[1..]); }
  }

  // ----- all matches -----

  /** One amount; `linked` says that only "and" stands between it and the amount before. */
  datatype Raw = Raw(value: int, mult: real, linked: bool)

  const AND := '\U{0648}'

  /** The pattern `^\s*and\s*$`. */
  predicate IsAnd(gap: string) {
    var r := TrimStart(gap);
    r != "" && r[0] == AND && AllSpaces(r[1..])
  }

  predicate IsLink(gap: Option<string>) { gap.Some? && IsAnd(gap.value) }

  function Longer(gap: Option<string>, more: string): Option<string> {
    if gap.Some? then Some(gap.value + more) else None
  }

  /** One step of the search: an amount with its unit, or none, and the text after it. */
  datatype Found = Found(amount: Option<(int, real)>, rest: string)

  /** The amount in toman, rounded. */
  function Toman(number: real, factor: real): int { Round(number * factor) }

  function ReadOne(s: string): (f: Found)
    requires s != ""
    ensures |f.rest| < |s|
  {
    if !IsDigit(s[0]) then Found(None, s[1..]) else
    var m := ReadMoney(s[NumberRun(s)..]);
    Found(if m.Some() then Some((Toman(NumberValue(s), m.Factor()), m.Factor())) else None, m.rest)
  }

  /** The amounts of a normalised text; `gap` is the text since the last amount. */
  function Scan(s: string, gap: Option<string>): seq<Raw>
    decreases |s|
  {
    if s == "" then [] else
    var f := ReadOne(s);
    match f.amount
    case Some(a) => [Raw(a.0, a.1, IsLink(gap))] + Scan(f.rest, Some(""))
    case None => Scan(f.rest, Longer(gap, s[..|s| - |f.rest|]))
  }

  // ----- merging -----

  function LastMult(g: seq<Raw>): real
    requires g != []
  {
    g[|g| - 1].mult
  }

  predicate Joins(g: seq<Raw>, r: Raw) { g != [] && r.linked && LastMult(g) > r.mult }

  /** Amounts that are said as one: joined by "and", with falling units. */
  function Groups(raws: seq<Raw>): seq<seq<Raw>> {
    if raws == [] then [] else
    Grow(Groups(raws[..|raws| - 1]), raws[|raws| - 1])
  }

  function Grow(gs: seq<seq<Raw>>, r: Raw): seq<seq<Raw>> {
    if gs != [] && Joins(gs[|gs| - 1], r) then gs[..|gs| - 1] + [gs[|gs| - 1] + [r]] else gs + [[r]]
  }

  function Sum(g: seq<Raw>): int {
    if g == [] then 0 else Sum(g[..|g| - 1]) + g[|g| - 1].value
  }

  function Sums(gs: seq<seq<Raw>>): seq<int> { seq(|gs|, i requires 0 <= i < |gs| => Sum(gs[i])) }

  function Amounts(text: string): seq<int> { Sums(Groups(Scan(Normalize(text), None))) }

  // ----- the parser as it runs -----

  datatype Span = Span(start: nat, end: nat, value: int, mult: real)

  predicate SpansIn(t: string, spans: seq<Span>) {
    && (forall i | 0 <= i < |spans| :: spans[i].start <= spans[i].end <= |t|)
    && (forall i | 0 < i < |spans| :: spans[i - 1].end <= spans[i].start)
  }

  function RawOf(t: string, spans: seq<Span>, i: nat): Raw
    requires SpansIn(t, spans) && i < |spans|
  {
    Raw(spans[i].value, spans[i].mult, i > 0 && IsAnd(t[spans[i - 1].end..spans[i].start]))
  }

  function RawsOf(t: string, spans: seq<Span>): seq<Raw>
    requires SpansIn(t, spans)
  {
    seq(|spans|, i requires 0 <= i < |spans| => RawOf(t, spans, i))
  }

  function LastEnd(spans: seq<Span>): nat { if spans == [] then 0 else spans[|spans| - 1].end }

  /** The text between the last amount and `pos`. */
  function GapAt(t: string, spans: seq<Span>, pos: nat): Option<string>
    requires LastEnd(spans) <= pos <= |t|
  {
    if spans == [] then None else Some(t[LastEnd(spans)..pos])
  }

  lemma OneMore(t: string, spans: seq<Span>, sp: Span)
    requires SpansIn(t, spans) && LastEnd(spans) <= sp.start <= sp.end <= |t|
    ensures SpansIn(t, spans + [sp])
    ensures RawsOf(t, spans + [sp]) == RawsOf(t, spans) + [Raw(sp.value, sp.mult, IsLink(GapAt(t, spans, sp.start)))]
  {
    hide IsAnd;
    var more := spans + [sp];
    forall i | 0 <= i < |spans| ensures RawOf(t, more, i) == RawOf(t, spans, i) {}
  }

  lemma Step(t: string, spans: seq<Span>, pos: nat, next: nat)
    requires LastEnd(spans) <= pos <= next <= |t|
    ensures Longer(GapAt(t, spans, pos), t[pos..next]) == GapAt(t, spans, next)
  {
    assert t[LastEnd(spans)..pos] + t[pos..next] == t[LastEnd(spans)..next];
  }

  /** `matchAll` over the normalised text. */
  method FindSpans(t: string) returns (spans: seq<Span>)
    ensures SpansIn(t, spans) && RawsOf(t, spans) == Scan(t, None)
  {
    hide ReadOne, IsAnd, IsLink;
    spans := [];
    var pos := 0;
    assert t[0..] == t;
    assert RawsOf(t, spans) == [];
    while pos < |t|
      invariant pos <= |t| && LastEnd(spans) <= pos && SpansIn(t, spans)
      invariant RawsOf(t, spans) + Scan(t[pos..], GapAt(t, spans, pos)) == Scan(t, None)
    {
      spans, pos := FindNext(t, spans, pos);
    }
  }

  method FindNext(t: string, spans: seq<Span>, pos: nat) returns (more: seq<Span>, next: nat)
    requires pos < |t| && LastEnd(spans) <= pos && SpansIn(t, spans)
    ensures pos < next <= |t| && LastEnd(more) <= next && SpansIn(t, more)
    ensures RawsOf(t, more) + Scan(t[next..], GapAt(t, more, next))
         == RawsOf(t, spans) + Scan(t[pos..], GapAt(t, spans, pos))
  {
    hide ReadOne, IsAnd, SpansIn, IsLink, RawsOf, SuffixOf;
    var s := t[pos..];
    var f := ReadOne(s);
    next := |t| - |f.rest|;
    OneIsSuffix(s);
    SuffixAt(t, pos, f.rest);
    if f.amount.None? {
      more := spans;
      Step(t, spans, pos, next);
    } else {
      var sp := Span(pos, next, f.amount.value.0, f.amount.value.1);
      more := spans + [sp];
      OneMore(t, spans, sp);
      assert t[next..next] == "";
      Regroup(RawsOf(t, spans), Raw(sp.value, sp.mult, IsLink(GapAt(t, spans, pos))), Scan(f.rest, Some("")));
    }
  }

  lemma SuffixAt(t: string, pos: nat, r: string)
    requires pos <= |t| && SuffixOf(r, t[pos..])
    ensures |r| <= |t| - pos && t[|t| - |r|..] == r
    ensures t[pos..|t| - |r|] == t[pos..][..|t| - pos - |r|]
  {
  }

  lemma Regroup(a: seq<Raw>, r: Raw, b: seq<Raw>)
    ensures (a + [r]) + b == a + ([r] + b)
  {
  }

  predicate SuffixOf(r: string, s: string) { |r| <= |s| && s[|s| - |r|..] == r }

  lemma {:induction false} TrimStartIsSuffix(s: string)
    ensures SuffixOf(TrimStart(s), s)
  {
    if s != "" && IsSpace(s[0]) { TrimStartIsSuffix(s[1..]); }
  }

  lemma SuffixTransitive(a: string, b: string, c: string)
    requires SuffixOf(a, b) && SuffixOf(b, c)
    ensures SuffixOf(a, c)
  {
  }

  lemma OneIsSuffix(s: string)
    requires s != ""
    ensures SuffixOf(ReadOne(s).rest, s)
  {
    hide SuffixOf;
    if IsDigit(s[0]) {
      var r := s[NumberRun(s)..];
      MoneySuffix(r);
      DropIsSuffix(s, NumberRun(s));
      SuffixTransitive(ReadMoney(r).rest, r, s);
    } else {
      DropIsSuffix(s, 1);
    }
  }

  lemma DropIsSuffix(s: string, n: nat)
    requires n <= |s|
    ensures SuffixOf(s[n..], s)
  {
  }

  lemma MoneySuffix(s: string)
    ensures SuffixOf(ReadMoney(s).rest, s)
  {
    hide SuffixOf, FirstWord;
    var r1 := TrimStart(s);
    var unit := FirstWord(UNITS, r1);
    var r2 := AfterWord(unit, r1);
    var r3 := TrimStart(r2);
    var currency := FirstWord(CURRENCIES, r3);
    TrimStartIsSuffix(s);
    AfterIsSuffix(unit, r1);
    TrimStartIsSuffix(r2);
    AfterIsSuffix(currency, r3);
    SuffixTransitive(r2, r1, s);
    SuffixTransitive(r3, r2, s);
    SuffixTransitive(AfterWord(currency, r3), r3, s);
  }

  lemma AfterIsSuffix(w: Option<Word>, s: string)
    requires w.Some? ==> w.value.text <= s
    ensures SuffixOf(AfterWord(w, s), s)
  {
  }

  /** The loop over the matches, with the amount so far in `total`. */
  method ParseFaAmounts(text: string) returns (merged: seq<int>)
    ensures merged == Amounts(text)
  {
    hide IsAnd, Scan, Normalize, Groups, InProgress, Sums, Sum;
    if text == "" {
      NothingInNothing();
      return [];
    }
    var t := Normalize(text);
    var spans := FindSpans(t);
    ghost var raws := RawsOf(t, spans);
    merged := [];
    var prev: Option<Span> := None;
    var total := 0;
    for i := 0 to |spans|
      invariant prev == if i == 0 then None else Some(spans[i - 1])
      invariant i == 0 ==> merged == []
      invariant i > 0 ==> InProgress(Groups(raws[..i]), merged, total, spans[i - 1].mult)
    {
      var cur := spans[i];
      GroupsNext(raws, i);
      ghost var gs := Groups(raws[..i]);
      if prev.Some? && IsAnd(t[prev.value.end..cur.start]) && prev.value.mult > cur.mult {
        ExtendLast(gs, merged, total, prev.value.mult, raws[i]);
        total, prev := total + cur.value, Some(cur);
        continue;
      }
      if prev.Some? {
        StartNext(gs, merged, total, prev.value.mult, raws[i]);
        merged := merged + [total];
      } else {
        StartFirst(raws[i]);
      }
      prev, total := Some(cur), cur.value;
    }
    assert raws[..|spans|] == raws;
    AmountsAre(text, raws);
    if prev.Some? {
      Finish(Groups(raws), merged, total, prev.value.mult);
      merged := merged + [total];
    }
  }

  lemma AmountsAre(text: string, raws: seq<Raw>)
    requires raws == Scan(Normalize(text), None)
    ensures Amounts(text) == Sums(Groups(raws)) && Sums(Groups([])) == []
  {
  }

  lemma NothingInNothing()
    ensures Amounts("") == []
  {
    assert Normalize("") == "";
  }

  /** All groups but the last are in `merged`; the last one is in `total`. */
  ghost predicate InProgress(gs: seq<seq<Raw>>, merged: seq<int>, total: int, mult: real) {
    && gs != [] && merged == Sums(gs[..|gs| - 1])
    && gs[|gs| - 1] != [] && total == Sum(gs[|gs| - 1]) && mult == LastMult(gs[|gs| - 1])
  }

  lemma GroupsNext(raws: seq<Raw>, i: nat)
    requires i < |raws|
    ensures Groups(raws[..i + 1]) == Grow(Groups(raws[..i]), raws[i])
    ensures Groups(raws[..0]) == []
  {
    assert raws[..i + 1][..i] == raws[..i];
  }

  lemma SumNext(g: seq<Raw>, r: Raw)
    ensures Sum(g + [r]) == Sum(g) + r.value
  {
    assert (g + [r])[..|g|] == g;
  }

  lemma ExtendLast(gs: seq<seq<Raw>>, merged: seq<int>, total: int, mult: real, r: Raw)
    requires InProgress(gs, merged, total, mult) && r.linked && mult > r.mult
    ensures InProgress(Grow(gs, r), merged, total + r.value, r.mult)
  {
    SumNext(gs[|gs| - 1], r);
    var more := gs[..|gs| - 1] + [gs[|gs| - 1] + [r]];
    assert more[..|more| - 1] == gs[..|gs| - 1];
  }

  lemma StartNext(gs: seq<seq<Raw>>, merged: seq<int>, total: int, mult: real, r: Raw)
    requires InProgress(gs, merged, total, mult) && !(r.linked && mult > r.mult)
    ensures InProgress(Grow(gs, r), merged + [total], r.value, r.mult)
  {
    SumNext([], r);
    Finish(gs, merged, total, mult);
    assert (gs + [[r]])[..|gs|] == gs;
    assert [] + [r] == [r];
  }

  lemma StartFirst(r: Raw)
    ensures InProgress(Grow([], r), [], r.value, r.mult)
  {
    SumNext([], r);
    assert [] + [r] == [r];
  }

  lemma Finish(gs: seq<seq<Raw>>, merged: seq<int>, total: int, mult: real)
    requires InProgress(gs, merged, total, mult)
    ensures merged + [total] == Sums(gs)
  {
    hide Sum;
  }

  // ----- what merging means -----

  function Flatten(gs: seq<seq<Raw>>): seq<Raw> {
    if gs == [] then [] else Flatten(gs[..|gs| - 1]) + gs[|gs| - 1]
  }

  /** Inside a group every amount is joined to the one before and its unit is smaller. */
  predicate Falling(g: seq<Raw>) {
    g != [] && forall i | 0 < i < |g| :: g[i].linked && g[i - 1].mult > g[i].mult
  }

  /** Two neighbouring groups could not have been one. */
  predicate Apart(a: seq<Raw>, b: seq<Raw>) { b != [] && !Joins(a, b[0]) }

  lemma {:induction false} GroupsMean(raws: seq<Raw>)
    ensures Flatten(Groups(raws)) == raws
    ensures forall i | 0 <= i < |Groups(raws)| :: Falling(Groups(raws)[i])
    ensures forall i | 0 < i < |Groups(raws)| :: Apart(Groups(raws)[i - 1], Groups(raws)[i])
  {
    hide Falling, Apart, Flatten, Groups;
    GroupsAreWell(raws);
  }

  /** Falling groups, of which none joins the one before it. */
  predicate WellGrouped(gs: seq<seq<Raw>>) {
    && (forall i | 0 <= i < |gs| :: Falling(gs[i]))
    && (forall i | 0 < i < |gs| :: Apart(gs[i - 1], gs[i]))
  }

  lemma {:induction false} GroupsAreWell(raws: seq<Raw>)
    ensures Flatten(Groups(raws)) == raws && WellGrouped(Groups(raws))
  {
    hide WellGrouped, Flatten, Grow, Groups;
    if raws == [] {
      NoneGrouped();
    } else {
      var init, r := raws[..|raws| - 1], raws[|raws| - 1];
      GroupsAreWell(init);
      GroupsSnoc(raws);
      GroupGrows(Groups(init), r);
      assert init + [r] == raws;
    }
  }

  lemma NoneGrouped()
    ensures Groups([]) == [] && Flatten([]) == [] && WellGrouped([])
  {
  }

  lemma GroupGrows(gs: seq<seq<Raw>>, r: Raw)
    requires WellGrouped(gs)
    ensures Flatten(Grow(gs, r)) == Flatten(gs) + [r] && WellGrouped(Grow(gs, r))
  {
    if gs != [] && Joins(gs[|gs| - 1], r) {
      hide WellGrouped;
      LastGrows(gs, r);
      FlattenGrows(gs[..|gs| - 1], gs[|gs| - 1], r);
    } else {
      hide Flatten;
      FlattenNext(gs, [r]);
      assert Falling([r]);
    }
  }

  lemma FlattenNext(gs: seq<seq<Raw>>, g: seq<Raw>)
    ensures Flatten(gs + [g]) == Flatten(gs) + g
  {
    assert (gs + [g])[..|gs|] == gs;
  }

  lemma FlattenGrows(gs: seq<seq<Raw>>, g: seq<Raw>, r: Raw)
    ensures Flatten(gs + [g + [r]]) == Flatten(gs + [g]) + [r]
  {
    hide Flatten;
    FlattenNext(gs, g);
    FlattenNext(gs, g + [r]);
  }

  lemma LastGrows(gs: seq<seq<Raw>>, r: Raw)
    requires gs != [] && Joins(gs[|gs| - 1], r) && WellGrouped(gs)
    ensures gs == gs[..|gs| - 1] + [gs[|gs| - 1]]
    ensures WellGrouped(gs[..|gs| - 1] + [gs[|gs| - 1] + [r]])
  {
    var n := |gs| - 1;
    var more := gs[..n] + [gs[n] + [r]];
    assert Falling(gs[n]);
    forall i | 0 < i < |more| ensures Apart(more[i - 1], more[i]) { assert Apart(gs[i - 1], gs[i]); }
  }

  function Total(xs: seq<int>): int {
    if xs == [] then 0 else Total(xs[..|xs| - 1]) + xs[|xs| - 1]
  }

  lemma {:induction false} SumConcat(a: seq<Raw>, b: seq<Raw>)
    ensures Sum(a + b) == Sum(a) + Sum(b)
  {
    if b == [] {
      assert a + b == a;
    } else {
      SumConcat(a, b[..|b| - 1]);
      assert (a + b)[..|a + b| - 1] == a + b[..|b| - 1];
    }
  }

  lemma {:induction false} SumsTotal(gs: seq<seq<Raw>>)
    ensures Total(Sums(gs)) == Sum(Flatten(gs))
  {
    if gs != [] {
      var init := gs[..|gs| - 1];
      SumsTotal(init);
      SumConcat(Flatten(init), gs[|gs| - 1]);
      assert Sums(gs)[..|gs| - 1] == Sums(init);
    }
  }

  /** Merging keeps the sum of the raw amounts. */
  lemma MergingKeepsSum(raws: seq<Raw>)
    ensures Total(Sums(Groups(raws))) == Sum(raws)
  {
    GroupsMean(raws);
    SumsTotal(Groups(raws));
  }

  lemma GrowBehind(a: seq<seq<Raw>>, b: seq<seq<Raw>>, r: Raw)
    requires b != []
    ensures Grow(a + b, r) == a + Grow(b, r)
  {
    hide Joins;
    var n := |b| - 1;
    assert (a + b)[|a + b| - 1] == b[n];
    assert (a + b)[..|a + b| - 1] == a + b[..n];
  }

  lemma GroupsSnoc(raws: seq<Raw>)
    requires raws != []
    ensures Groups(raws) == Grow(Groups(raws[..|raws| - 1]), raws[|raws| - 1])
  {
  }

  lemma NoGroups()
    ensures Groups([]) == []
  {
  }

  lemma SomeGroup(raws: seq<Raw>)
    requires raws != []
    ensures Groups(raws) != []
  {
  }
}
