/** Exactly which lines let the text behind them form an amount that neither has. */
module PriceLeaks {
  import opened JsText
  import opened FaAmounts
  import opened AmountSplits

  // ----- the sums of two lists of amounts, merged -----

  function LastSum(a: seq<Raw>): int {
    var sums := Sums(Groups(a));
    if sums == [] then 0 else sums[|sums| - 1]
  }

  predicate JoinsLast(a: seq<Raw>, r: Raw) { a != [] && r.linked && a[|a| - 1].mult > r.mult }

  lemma NumberOfSums(a: seq<Raw>)
    ensures Sums(Groups(a)) == [] <==> a == []
  {
    NoAmountsNoRaws(a);
  }

  /** A list of sums with one more value: added to the last one, or behind it. */
  function Grown(sums: seq<int>, joined: bool, v: int): seq<int> {
    if joined && sums != [] then sums[..|sums| - 1] + [sums[|sums| - 1] + v] else sums + [v]
  }

  lemma SumsSnoc(a: seq<Raw>, r: Raw)
    ensures Sums(Groups(a + [r])) == Grown(Sums(Groups(a)), JoinsLast(a, r), r.value)
  {
    hide Groups, Sums;
    if a == [] {
      assert a + [r] == [r];
      OneGroup(r);
      NoGroups();
      NumberOfSums(a);
    } else {
      FirstLinkIsNothing(a, a);
      assert (a + [r])[..|a|] == a;
      GroupsSnoc(a + [r]);
      SumsOfGrow(Groups(a), r);
      NumberOfSums(a);
      SumsLength(Groups(a));
    }
  }

  lemma SumsLength(gs: seq<seq<Raw>>)
    ensures |Sums(gs)| == |gs|
  {
  }

  /** The sums of `a + b`, from those of `a` and `b`. */
  function Merged(sa: seq<int>, sb: seq<int>, joined: bool): seq<int> {
    if joined && sa != [] && sb != [] then sa[..|sa| - 1] + [sa[|sa| - 1] + sb[0]] + sb[1..] else sa + sb
  }

  lemma {:induction false} MergedSums(a: seq<Raw>, b: seq<Raw>)
    ensures Sums(Groups(a + b)) == Merged(Sums(Groups(a)), Sums(Groups(b)), b != [] && JoinsLast(a, b[0]))
  {
    hide Groups, Sums, Grown, Merged;
    var sa, sb := Sums(Groups(a)), Sums(Groups(b));
    NumberOfSums(b);
    if b == [] {
      assert a + b == a;
      MergedNothing(sa);
    } else {
      var n := |b| - 1;
      var init, r := b[..n], b[n];
      assert a + b == (a + init) + [r] && b == init + [r];
      SumsSnoc(a + init, r);
      SumsSnoc(init, r);
      NumberOfSums(init);
      if init == [] {
        assert a + init == a;
        MergedOne(sa, JoinsLast(a, r), JoinsLast(init, r), r.value);
      } else {
        MergedSums(a, init);
        MergedGrows(sa, Sums(Groups(init)), JoinsLast(a, b[0]), JoinsLast(init, r), r.value);
      }
    }
  }

  lemma MergedNothing(sa: seq<int>)
    ensures Merged(sa, [], false) == sa
  {
  }

  lemma MergedOne(sa: seq<int>, joined: bool, unused: bool, v: int)
    ensures Grown(sa, joined, v) == Merged(sa, Grown([], unused, v), joined)
  {
  }

  lemma MergedGrows(sa: seq<int>, sb: seq<int>, joined: bool, more: bool, v: int)
    requires sb != []
    ensures Grown(Merged(sa, sb, joined), more, v) == Merged(sa, Grown(sb, more, v), joined)
  {
    hide Grown;
    if joined && sa != [] {
      var init, last := sa[..|sa| - 1], sa[|sa| - 1];
      assert Merged(sa, sb, true) == init + ([last + sb[0]] + sb[1..]);
      GrownBehind(init, [last + sb[0]] + sb[1..], more, v);
      HeadGrows(last, sb, more, v);
    } else {
      GrownBehind(sa, sb, more, v);
      GrownIsSome(sb, more, v);
    }
  }

  lemma GrownIsSome(s: seq<int>, more: bool, v: int)
    ensures Grown(s, more, v) != []
  {
  }

  lemma GrownBehind(a: seq<int>, b: seq<int>, more: bool, v: int)
    requires b != []
    ensures Grown(a + b, more, v) == a + Grown(b, more, v)
  {
  }

  lemma HeadGrows(x: int, b: seq<int>, more: bool, v: int)
    requires b != []
    ensures var grown := Grown(b, more, v);
      grown != [] && Grown([x + b[0]] + b[1..], more, v) == [x + grown[0]] + grown[1..]
  {
    if |b| == 1 { assert b == [b[0]]; }
  }

  /** Every amount of `xs` is one of `ys` or one of `zs`. */
  ghost predicate From(xs: seq<int>, ys: seq<int>, zs: seq<int>) { forall x | x in xs :: x in ys || x in zs }

  lemma FromMerged(a: seq<Raw>, b: seq<Raw>)
    requires b != [] && JoinsLast(a, b[0]) ==> LastSum(a) == 0
    ensures From(Sums(Groups(a + b)), Sums(Groups(a)), Sums(Groups(b)))
  {
    hide Groups, Sums;
    MergedSums(a, b);
    var sa, sb := Sums(Groups(a)), Sums(Groups(b));
    if b != [] && JoinsLast(a, b[0]) && sa != [] && sb != [] {
      assert sb[0] in sb;
    }
  }

  /** An amount of nothing behind a list adds at most a zero. */
  lemma AddZero(a: seq<Raw>, r: Raw)
    requires r.value == 0
    ensures From(Sums(Groups(a + [r])), Sums(Groups(a)), [0])
    ensures LastSum(a + [r]) == if JoinsLast(a, r) then LastSum(a) else 0
  {
    hide Groups, Sums;
    SumsSnoc(a, r);
    NumberOfSums(a);
  }

  // ----- text without digits -----

  predicate NoDigits(s: string) { forall i | 0 <= i < |s| :: !IsDigit(s[i]) }

  /** `t` is what is left of `s` after a part without digits. */
  predicate Passed(s: string, t: string) { SuffixOf(t, s) && NoDigits(s[..|s| - |t|]) }

  lemma PassedTransitive(s: string, t: string, u: string)
    requires Passed(s, t) && Passed(t, u)
    ensures Passed(s, u)
  {
    var n := |s| - |t|;
    assert s[n..] == t;
    forall i | 0 <= i < |s| - |u| ensures !IsDigit(s[i]) {
      if i < n { assert s[..n][i] == s[i]; } else { assert t[..|t| - |u|][i - n] == s[i]; }
    }
    assert s[|s| - |u|..] == t[|t| - |u|..];
  }

  lemma {:induction false} TrimPassed(s: string)
    ensures Passed(s, TrimStart(s))
  {
    if s != "" && IsSpace(s[0]) {
      TrimPassed(s[1..]);
      assert Passed(s, s[1..]);
      PassedTransitive(s, s[1..], TrimStart(s));
    }
  }

  lemma WordPassed(ws: seq<Word>, s: string)
    requires Solid(ws)
    ensures Passed(s, AfterWord(FirstWord(ws, s), s))
  {
    var w := FirstWord(ws, s);
    if w.Some? {
      assert SolidWord(w.value.text) && s[..|w.value.text|] == w.value.text;
    }
  }

  lemma MoneyPassed(s: string)
    ensures Passed(s, ReadMoney(s).rest)
  {
    hide FirstWord, AfterWord, Passed, TrimStart;
    WordsAreSolid();
    var x1 := TrimStart(s);
    var x2 := AfterWord(FirstWord(UNITS, x1), x1);
    TrimPassed(s);
    WordPassed(UNITS, x1);
    TrimPassed(x2);
    WordPassed(CURRENCIES, TrimStart(x2));
    PassedTransitive(s, x1, x2);
    PassedTransitive(s, x2, TrimStart(x2));
    PassedTransitive(s, TrimStart(x2), ReadMoney(s).rest);
  }

  lemma CurrencyPassed(y: string)
    ensures Passed(y, ReadCurrency(None, TrimStart(y)).rest)
  {
    hide FirstWord, AfterWord, Passed, TrimStart;
    WordsAreSolid();
    TrimPassed(y);
    WordPassed(CURRENCIES, TrimStart(y));
    PassedTransitive(y, TrimStart(y), ReadCurrency(None, TrimStart(y)).rest);
  }

  lemma {:induction false} SkipNoDigits(p: string, t: string, gap: Option<string>)
    requires NoDigits(p)
    ensures Scan(p + t, gap) == Scan(t, Longer(gap, p))
    decreases |p|
  {
    hide ReadOne, Scan;
    if p == "" {
      assert p + t == t;
      if gap.Some? { assert gap.value + p == gap.value; }
    } else {
      Head(p, t);
      OneOther(p + t);
      ScanPassed(p + t, gap);
      assert (p + t)[..1] == p[..1];
      SkipNoDigits(p[1..], t, Longer(gap, p[..1]));
      if gap.Some? { assert gap.value + p[..1] + p[1..] == gap.value + p; }
    }
  }

  /** Passing over text without digits changes only the link of the first amount. */
  lemma PassedScan(s: string, t: string, g: Option<string>, h: Option<string>)
    requires Passed(s, t)
    ensures SameButLink(Scan(t, g), Scan(s, h))
  {
    hide Scan, NoDigits, SameButLink;
    var p := s[..|s| - |t|];
    assert s == p + t;
    SkipNoDigits(p, t, h);
    GapOnlyLinks(t, g, Longer(h, p));
  }

  lemma SumsAfter(s: string, t: string, g: Option<string>)
    requires Passed(s, t)
    ensures Sums(Groups(Scan(t, g))) == Sums(Groups(Scan(s, None)))
  {
    hide Scan, Groups, Sums, Passed, SameButLink;
    PassedScan(s, t, g, None);
    FirstLinkIsNothing(Scan(t, g), Scan(s, None));
  }

  // ----- a number that waits -----

  lemma DigitShuts(t: string, more: string, i: nat)
    requires i < |more| && IsDigit(more[i])
    ensures !OpenGap(Some(t + more))
  {
    var s := t + more;
    assert s[|t| + i] == more[i];
    if IsAnd(s) { AndHasNoDigit(s, |t| + i); }
  }

  lemma {:induction false} AndHasNoDigit(g: string, i: nat)
    requires IsAnd(g) && i < |g|
    ensures !IsDigit(g[i])
    decreases |g|
  {
    if IsSpace(g[0]) {
      assert TrimStart(g) == TrimStart(g[1..]);
      if i > 0 { AndHasNoDigit(g[1..], i - 1); }
    } else if i > 0 {
      assert g[1..][i - 1] == g[i];
    }
  }

  /** Behind a number that waits the words are those that open the next text. */
  lemma MoneyBehind(x: string, y: string)
    requires !ReadMoney(x).Some() && ReadMoney(x).rest == ""
    ensures ReadMoney(x + y) == ReadMoney(y)
  {
    hide FirstWord;
    TrimStartConcat(x, y);
    TrimStartTwice(x);
  }

  /** What stands behind `x` when its last number waits: an amount, if `y` opens with a unit or
      a currency, and the rest of `y`; else the rest of `y` with a gap that links nothing. */
  ghost predicate WaitScanned(whole: seq<Raw>, a: seq<Raw>, number: real, linked: bool, y: string, h: Option<string>) {
    var m := ReadMoney(y);
    && !OpenGap(h)
    && whole == if m.Some() then a + ([Raw(Toman(number, m.Factor()), m.Factor(), linked)] + Scan(m.rest, Some("")))
                else a + Scan(m.rest, h)
  }

  lemma NumberBehind(x: string, y: string, gap: Option<string>) returns (h: Option<string>)
    requires x != "" && IsDigit(x[0]) && ReadOne(x).amount.None? && ReadOne(x).rest == "" && Spaced(y)
    ensures WaitScanned(Scan(x + y, gap), [], NumberValue(x), IsLink(gap), y, h)
  {
    hide ReadOne, NumberRun, NumberValue, ReadMoney, Toman, Scan, IsLink, OpenGap;
    Head(x, y);
    NumberLocal(x, y);
    OneNumber(x);
    OneNumber(x + y);
    MoneyBehind(x[NumberRun(x)..], y);
    var m, used := ReadMoney(y), (x + y)[..|x + y| - |ReadOne(x + y).rest|];
    if m.Some() {
      h := None;
      ScanFound(x + y, gap);
      NothingIsOpen();
    } else {
      h := Longer(gap, used);
      ScanPassed(x + y, gap);
      assert used[0] == x[0];
      if gap.Some? { DigitShuts(gap.value, used, 0); } else { NothingIsOpen(); }
    }
  }

  lemma NothingIsOpen()
    ensures !OpenGap(None)
  {
  }

  lemma {:induction false} WaitScan(x: string, y: string, gap: Option<string>) returns (h: Option<string>)
    requires Spaced(y) && EndOf(x, gap).Waiting?
    ensures WaitScanned(Scan(x + y, gap), Scan(x, gap), EndOf(x, gap).number, EndOf(x, gap).linked, y, h)
    decreases |x|, 1
  {
    hide ReadOne, NumberValue, IsLink, Scan, Spaced, WaitScanned;
    EndNothing(gap);
    if x != "" {
      if ReadOne(x).amount.Some? {
        h := FoundWaitScan(x, y, gap);
      } else if IsDigit(x[0]) && ReadOne(x).rest == "" {
        h := NumberBehind(x, y, gap);
        ScanPassed(x, gap);
        ScanNothing(Longer(gap, x[..|x|]));
      } else {
        h := PassedWaitScan(x, y, gap);
      }
    }
  }

  lemma WaitScannedBehind(r: Raw, whole: seq<Raw>, a: seq<Raw>, number: real, linked: bool, y: string, h: Option<string>)
    requires WaitScanned(whole, a, number, linked, y, h)
    ensures WaitScanned([r] + whole, [r] + a, number, linked, y, h)
  {
    hide ReadMoney, Scan, Toman, OpenGap;
    var m := ReadMoney(y);
    var tail := if m.Some() then [Raw(Toman(number, m.Factor()), m.Factor(), linked)] + Scan(m.rest, Some("")) else Scan(m.rest, h);
    assert [r] + (a + tail) == ([r] + a) + tail;
  }

  lemma {:induction false} FoundWaitScan(x: string, y: string, gap: Option<string>) returns (h: Option<string>)
    requires Spaced(y) && EndOf(x, gap).Waiting? && x != "" && ReadOne(x).amount.Some?
    ensures WaitScanned(Scan(x + y, gap), Scan(x, gap), EndOf(x, gap).number, EndOf(x, gap).linked, y, h)
    decreases |x|, 0
  {
    hide ReadOne, NumberValue, IsLink, Scan, Spaced, WaitScanned, EndOf, ReadMoney, NumberRun;
    var f := ReadOne(x);
    EndFound(x, gap);
    EndNothing(Some(""));
    OneInRange(x);
    OneNumber(x);
    OneLocal(x, y);
    ScanFound(x, gap);
    ScanFound(x + y, gap);
    h := WaitScan(f.rest, y, Some(""));
    WaitScannedBehind(Raw(f.amount.value.0, f.amount.value.1, IsLink(gap)), Scan(f.rest + y, Some("")), Scan(f.rest, Some("")),
      EndOf(x, gap).number, EndOf(x, gap).linked, y, h);
  }

  lemma {:induction false} PassedWaitScan(x: string, y: string, gap: Option<string>) returns (h: Option<string>)
    requires Spaced(y) && EndOf(x, gap).Waiting? && x != "" && ReadOne(x).amount.None?
    requires !(IsDigit(x[0]) && ReadOne(x).rest == "")
    ensures WaitScanned(Scan(x + y, gap), Scan(x, gap), EndOf(x, gap).number, EndOf(x, gap).linked, y, h)
    decreases |x|, 0
  {
    hide ReadOne, NumberValue, IsLink, Scan, Spaced, WaitScanned, EndOf;
    var f := ReadOne(x);
    var used := |x| - |f.rest|;
    EndPassed(x, gap);
    OnePassedLocal(x, y);
    ScanPassed(x, gap);
    ScanPassed(x + y, gap);
    assert (x + y)[..used] == x[..used];
    h := WaitScan(f.rest, y, Longer(gap, x[..used]));
  }

  // ----- an amount whose unit waits for a currency -----

  lemma ValueNotNegative(s: string)
    ensures NumberValue(s) >= 0.0
  {
  }

  /** A match with a currency ends with it. */
  lemma CurrencyEnds(s: string)
    requires ReadMoney(s).currency.Some? && ReadMoney(s).rest == ""
    ensures s != "" && !IsSpace(s[|s| - 1])
  {
    hide TrimStart;
    var x1 := TrimStart(s);
    var x2 := AfterWord(FirstWord(UNITS, x1), x1);
    var x3 := TrimStart(x2);
    WordsAreSolid();
    var w := FirstWord(CURRENCIES, x3).value.text;
    assert SolidWord(w);
    assert w == x3;
    TrimStartIsSuffix(s);
    TrimStartIsSuffix(x2);
    AfterIsSuffix(FirstWord(UNITS, x1), x1);
    LastOfSuffix(x3, x2);
    LastOfSuffix(x2, x1);
    LastOfSuffix(x1, s);
  }

  lemma LastOfSuffix(r: string, s: string)
    requires SuffixOf(r, s) && r != ""
    ensures s != "" && s[|s| - 1] == r[|r| - 1]
  {
    assert s[|s| - |r|..][|r| - 1] == s[|s| - 1];
  }

  /** The words behind a unit that waits for a currency. */
  function Behind(u: Word, y: string): Money { ReadCurrency(Some(u), TrimStart(y)) }

  lemma UnitBehind(x: string, y: string)
    requires Spaced(y) && ReadMoney(x).Some() && ReadMoney(x).rest == "" && ReadMoney(x).currency.None?
    ensures ReadMoney(x).unit.Some? && ReadMoney(x + y) == Behind(ReadMoney(x).unit.value, y)
  {
    hide FirstWord;
    WordsAreSolid();
    var x1 := TrimStart(x);
    NoWordInNothing(UNITS);
    assert x1 != "";
    TrimStartConcat(x, y);
    AfterWordLocal(UNITS, x1, y);
    var x2 := AfterWord(FirstWord(UNITS, x1), x1);
    TrimStartConcat(x2, y);
    assert TrimStart(x2) == "";
  }

  /** `whole` is `a` with its last amount in the currency that opens `y`, and the rest of `y`. */
  ghost predicate HangScanned(whole: seq<Raw>, a: seq<Raw>, u: Word, v: real, y: string) {
    var m := Behind(u, y);
    && u in UNITS && v >= 0.0 && a != []
    && a[|a| - 1] == Raw(Toman(v, u.factor), u.factor, a[|a| - 1].linked)
    && whole == a[..|a| - 1] + ([Raw(Toman(v, m.Factor()), m.Factor(), a[|a| - 1].linked)] + Scan(m.rest, Some("")))
  }

  lemma NumberHangs(x: string, y: string, gap: Option<string>) returns (u: Word, v: real)
    requires x != "" && ReadOne(x).amount.Some? && ReadOne(x).rest == "" && IsSpace(x[|x| - 1]) && Spaced(y)
    ensures HangScanned(Scan(x + y, gap), Scan(x, gap), u, v, y)
  {
    hide ReadOne, NumberRun, NumberValue, ReadMoney, Toman, Scan, IsLink, Behind;
    OneInRange(x);
    Head(x, y);
    NumberLocal(x, y);
    OneNumber(x);
    OneNumber(x + y);
    v := NumberValue(x);
    u := HangingUnit(x, y);
    ValueNotNegative(x);
    ScanFound(x, gap);
    ScanFound(x + y, gap);
    ScanNothing(Some(""));
    var f := ReadOne(x).amount.value;
    assert Scan(x, gap) == [Raw(f.0, f.1, IsLink(gap))];
  }

  lemma HangingUnit(x: string, y: string) returns (u: Word)
    requires x != "" && IsDigit(x[0]) && IsSpace(x[|x| - 1]) && Spaced(y)
    requires ReadMoney(x[NumberRun(x)..]).Some() && ReadMoney(x[NumberRun(x)..]).rest == ""
    ensures u in UNITS && ReadMoney(x[NumberRun(x)..]).Factor() == u.factor
    ensures ReadMoney(x[NumberRun(x)..] + y) == Behind(u, y) && Behind(u, y).unit == Some(u)
  {
    hide ReadMoney, NumberRun, Behind;
    var s := x[NumberRun(x)..];
    NumberEndsInDigit(x);
    assert NumberRun(x) < |x|;
    assert s[|s| - 1] == x[|x| - 1];
    if ReadMoney(s).currency.Some? { CurrencyEnds(s); }
    UnitBehind(s, y);
    u := ReadMoney(s).unit.value;
    UnitIsKnown(s);
    BehindHasUnit(u, y);
  }

  lemma BehindHasUnit(u: Word, y: string)
    ensures Behind(u, y).unit == Some(u)
  {
  }

  lemma UnitIsKnown(s: string)
    ensures ReadMoney(s).unit.Some? ==> ReadMoney(s).unit.value in UNITS
  {
    hide FirstWord;
  }

  lemma {:induction false} HangScan(x: string, y: string, gap: Option<string>) returns (u: Word, v: real)
    requires EndOf(x, gap) == After(Some("")) && x != "" && IsSpace(x[|x| - 1]) && Spaced(y)
    ensures HangScanned(Scan(x + y, gap), Scan(x, gap), u, v, y)
    decreases |x|, 1
  {
    hide ReadOne, IsLink, Scan, Spaced, HangScanned, EndOf;
    if ReadOne(x).amount.None? {
      u, v := PassedHangs(x, y, gap);
    } else if ReadOne(x).rest == "" {
      u, v := NumberHangs(x, y, gap);
    } else {
      u, v := FoundHangs(x, y, gap);
    }
  }

  lemma HangBehind(r: Raw, whole: seq<Raw>, a: seq<Raw>, u: Word, v: real, y: string)
    requires HangScanned(whole, a, u, v, y)
    ensures HangScanned([r] + whole, [r] + a, u, v, y)
  {
    hide Behind, Scan, Toman;
    var m := Behind(u, y);
    var n := |a| - 1;
    var tail := [Raw(Toman(v, m.Factor()), m.Factor(), a[n].linked)] + Scan(m.rest, Some(""));
    assert ([r] + a)[..n + 1] == [r] + a[..n];
    assert [r] + (a[..n] + tail) == ([r] + a[..n]) + tail;
  }

  lemma {:induction false} FoundHangs(x: string, y: string, gap: Option<string>) returns (u: Word, v: real)
    requires EndOf(x, gap) == After(Some("")) && x != "" && IsSpace(x[|x| - 1]) && Spaced(y)
    requires ReadOne(x).amount.Some? && ReadOne(x).rest != ""
    ensures HangScanned(Scan(x + y, gap), Scan(x, gap), u, v, y)
    decreases |x|, 0
  {
    hide ReadOne, IsLink, Scan, Spaced, HangScanned, EndOf, ReadMoney, NumberRun;
    var f := ReadOne(x);
    OneIsSuffix(x);
    LastOfSuffix(f.rest, x);
    EndFound(x, gap);
    OneInRange(x);
    OneNumber(x);
    OneLocal(x, y);
    ScanFound(x, gap);
    ScanFound(x + y, gap);
    u, v := HangScan(f.rest, y, Some(""));
    HangBehind(Raw(f.amount.value.0, f.amount.value.1, IsLink(gap)), Scan(f.rest + y, Some("")), Scan(f.rest, Some("")), u, v, y);
  }

  lemma LongerIsNotEmpty(gap: Option<string>, more: string)
    requires more != ""
    ensures Longer(gap, more) != Some("")
  {
  }

  lemma {:induction false} PassedHangs(x: string, y: string, gap: Option<string>) returns (u: Word, v: real)
    requires EndOf(x, gap) == After(Some("")) && x != "" && IsSpace(x[|x| - 1]) && Spaced(y)
    requires ReadOne(x).amount.None?
    ensures HangScanned(Scan(x + y, gap), Scan(x, gap), u, v, y)
    decreases |x|, 0
  {
    hide ReadOne, IsLink, Scan, Spaced, HangScanned;
    var f := ReadOne(x);
    var used := |x| - |f.rest|;
    EndPassed(x, gap);
    var more := Longer(gap, x[..used]);
    EndNothing(more);
    LongerIsNotEmpty(gap, x[..used]);
    OneIsSuffix(x);
    LastOfSuffix(f.rest, x);
    OnePassedLocal(x, y);
    ScanPassed(x, gap);
    ScanPassed(x + y, gap);
    assert (x + y)[..used] == x[..used];
    u, v := HangScan(f.rest, y, more);
  }

  // ----- values and units -----

  lemma TomanNotNegative(v: real, f: real)
    requires v >= 0.0 && f >= 0.0
    ensures Toman(v, f) >= 0
  {
    assert v * f >= 0.0;
  }

  lemma TomanRises(v: real, f: real, g: real)
    requires v >= 0.0 && f <= g
    ensures Toman(v, f) <= Toman(v, g)
  {
    assert v * g - v * f == v * (g - f);
    assert v * (g - f) >= 0.0;
  }

  /** The products of a unit and a currency. */
  predicate Known(f: real) {
    f == 1_000_000_000.0 || f == 100_000_000.0 || f == 1_000_000.0 || f == 100_000.0
    || f == 1_000.0 || f == 100.0 || f == 1.0 || f == 0.1
  }

  lemma UnitFactors(u: Word)
    requires u in UNITS
    ensures u.factor == 1_000_000_000.0 || u.factor == 1_000_000.0 || u.factor == 1_000.0
  {
    var i :| 0 <= i < |UNITS| && UNITS[i] == u;
  }

  lemma CurrencyFactors(c: Word)
    requires c in CURRENCIES
    ensures c.factor == 1.0 || c.factor == 0.1
  {
    var i :| 0 <= i < |CURRENCIES| && CURRENCIES[i] == c;
  }

  lemma FactorIsKnown(m: Money)
    requires m.unit.Some? ==> m.unit.value in UNITS
    requires m.currency.Some? ==> m.currency.value in CURRENCIES
    ensures Known(m.Factor())
  {
    if m.unit.Some? { UnitFactors(m.unit.value); }
    if m.currency.Some? { CurrencyFactors(m.currency.value); }
  }

  lemma MoneyIsKnown(s: string)
    ensures Known(ReadMoney(s).Factor())
  {
    hide FirstWord, TrimStart, Known;
    FactorIsKnown(ReadMoney(s));
  }

  /** In the currency behind it a unit counts as it is, or a tenth. */
  lemma BehindFactor(u: Word, y: string)
    requires u in UNITS
    ensures Behind(u, y).Factor() == u.factor || Behind(u, y).Factor() == u.factor * 0.1
    ensures Known(u.factor) && Known(Behind(u, y).Factor())
  {
    hide FirstWord, TrimStart;
    var m := Behind(u, y);
    UnitFactors(u);
    if m.currency.Some? { CurrencyFactors(m.currency.value); }
  }

  predicate Plausible(r: Raw) { r.value >= 0 && Known(r.mult) }

  lemma OneIsPlausible(s: string)
    requires s != "" && ReadOne(s).amount.Some?
    ensures ReadOne(s).amount.value.0 >= 0 && Known(ReadOne(s).amount.value.1)
  {
    hide NumberRun, NumberValue, ReadMoney, Toman, Known;
    if IsDigit(s[0]) {
      MoneyIsKnown(s[NumberRun(s)..]);
      ValueNotNegative(s);
      KnownIsPositive(ReadMoney(s[NumberRun(s)..]).Factor());
      TomanNotNegative(NumberValue(s), ReadMoney(s[NumberRun(s)..]).Factor());
    }
  }

  lemma KnownIsPositive(f: real)
    requires Known(f)
    ensures f > 0.0
  {
  }

  lemma {:induction false} ScanIsPlausible(s: string, gap: Option<string>)
    ensures forall i | 0 <= i < |Scan(s, gap)| :: Plausible(Scan(s, gap)[i])
    decreases |s|
  {
    hide ReadOne, IsLink, Scan, Known;
    if s == "" {
      ScanNothing(gap);
    } else if ReadOne(s).amount.Some? {
      OneIsPlausible(s);
      ScanFound(s, gap);
      ScanIsPlausible(ReadOne(s).rest, Some(""));
    } else {
      ScanPassed(s, gap);
      ScanIsPlausible(ReadOne(s).rest, Longer(gap, s[..|s| - |ReadOne(s).rest|]));
    }
  }

  lemma {:induction false} SumsNotNegative(a: seq<Raw>)
    requires forall i | 0 <= i < |a| :: Plausible(a[i])
    ensures LastSum(a) >= 0 && forall i | 0 <= i < |Sums(Groups(a))| :: Sums(Groups(a))[i] >= 0
  {
    hide Groups, Sums, Known;
    NumberOfSums(a);
    if a != [] {
      var n := |a| - 1;
      var before := Sums(Groups(a[..n]));
      SumsNotNegative(a[..n]);
      SumsSnoc(a[..n], a[n]);
      assert a[..n] + [a[n]] == a;
      assert Plausible(a[n]);
      assert forall i | 0 <= i < |before| :: before[i] >= 0;
    }
  }

  // ----- which lines leak -----

  /** The last amount is linked to one of the same unit, and that one belongs to a sum:
      in a smaller currency the last amount would join it. */
  predicate Rejoins(a: seq<Raw>) {
    var n := |a| - 1;
    n >= 1 && a[n].linked && a[n - 1].mult == a[n].mult && LastSum(a[..n]) != 0
  }

  /** A number waits that a unit makes an amount, and this amount is more than nothing, or
      nothing is not among the amounts, or it bridges to an amount before it; or the last
      amount can be continued and is more than nothing, or bridges in another currency. */
  predicate Leaks(x: string) {
    var n := Normalize(x);
    var a := Scan(n, None);
    match EndOf(n, None)
    case Waiting(number, linked) =>
      Toman(number, 1_000_000_000.0) != 0 || 0 !in Sums(Groups(a))
      || (linked && a != [] && a[|a| - 1].mult > 1.0 && LastSum(a) != 0)
    case After(gap) =>
      OpenGap(gap) && Extendable(a) && (LastSum(a) != 0 || (gap == Some("") && Rejoins(a)))
  }

  // ----- a line that does not leak -----

  lemma FromEqual(xs: seq<int>, ys: seq<int>, zs: seq<int>)
    requires xs == ys + zs
    ensures From(xs, ys, zs)
  {
  }

  /** A last amount that is continued adds nothing of its own. */
  lemma OpenIsSealed(n: string, y: string)
    requires Spaced(y) && EndOf(n, None).After? && !Hanging(n, None) && LastSum(Scan(n, None)) == 0
    ensures From(Sums(Groups(Scan(n + y, None))), Sums(Groups(Scan(n, None))), Sums(Groups(Scan(y, None))))
  {
    hide Scan, EndOf, Groups, Sums, Spaced, Hanging, LastSum, SameButLink, From;
    ScanGoesOn(n, y, None);
    var g := EndOf(n, None).gap;
    GapOnlyLinks(y, g, None);
    FirstLinkIsNothing(Scan(y, g), Scan(y, None));
    FromMerged(Scan(n, None), Scan(y, g));
  }

  /** Another currency for a last amount of nothing changes no sum. */
  lemma SwapLast(init: seq<Raw>, r: Raw, q: Raw)
    requires r.value == 0 && q.value == 0 && q.linked == r.linked && q.mult <= r.mult && LastSum(init + [r]) == 0
    requires JoinsLast(init, q) && !JoinsLast(init, r) ==> LastSum(init) == 0
    ensures LastSum(init + [q]) == 0
    ensures forall x | x in Sums(Groups(init + [q])) :: x in Sums(Groups(init + [r]))
  {
    hide Groups, Sums;
    AddZero(init, r);
    AddZero(init, q);
    SumsSnoc(init, r);
    SumsSnoc(init, q);
    NumberOfSums(init);
  }

  lemma HangIsSealed(n: string, y: string)
    requires Spaced(y) && n != "" && IsSpace(n[|n| - 1]) && EndOf(n, None) == After(Some(""))
    requires LastSum(Scan(n, None)) == 0 && !Rejoins(Scan(n, None))
    ensures From(Sums(Groups(Scan(n + y, None))), Sums(Groups(Scan(n, None))), Sums(Groups(Scan(y, None))))
  {
    hide Scan, EndOf, Groups, Sums, Spaced, LastSum, Toman, Behind, Known, From;
    var u, v := HangScan(n, y, None);
    var a := Scan(n, None);
    var k := |a| - 1;
    var init, r := a[..k], a[k];
    assert a == init + [r];
    var m := Behind(u, y);
    var q := Raw(Toman(v, m.Factor()), m.Factor(), r.linked);
    ScanIsPlausible(n, None);
    HangingZero(init, r, q, u, v, y);
    SwapLast(init, r, q);
    BehindPassed(u, y);
    SumsAfter(y, m.rest, Some(""));
    FromMerged(init + [q], Scan(m.rest, Some("")));
    assert Scan(n + y, None) == (init + [q]) + Scan(m.rest, Some(""));
    FromWeaker(Scan(n + y, None), init + [q], a, Sums(Groups(Scan(y, None))));
  }

  lemma FromWeaker(whole: seq<Raw>, a: seq<Raw>, b: seq<Raw>, zs: seq<int>)
    requires From(Sums(Groups(whole)), Sums(Groups(a)), zs)
    requires forall x | x in Sums(Groups(a)) :: x in Sums(Groups(b))
    ensures From(Sums(Groups(whole)), Sums(Groups(b)), zs)
  {
    hide Groups, Sums;
  }

  lemma BehindPassed(u: Word, y: string)
    ensures Passed(y, Behind(u, y).rest)
  {
    hide Passed, TrimStart, FirstWord;
    CurrencyPassed(y);
  }

  lemma HangingZero(init: seq<Raw>, r: Raw, q: Raw, u: Word, v: real, y: string)
    requires u in UNITS && v >= 0.0 && forall i | 0 <= i < |init + [r]| :: Plausible((init + [r])[i])
    requires r == Raw(Toman(v, u.factor), u.factor, r.linked)
    requires q == Raw(Toman(v, Behind(u, y).Factor()), Behind(u, y).Factor(), r.linked)
    requires LastSum(init + [r]) == 0 && !Rejoins(init + [r])
    ensures r.value == 0 && q.value == 0 && q.mult <= r.mult
    ensures JoinsLast(init, q) && !JoinsLast(init, r) ==> LastSum(init) == 0
  {
    hide Groups, Sums, Toman, Behind, LastSum;
    var a := init + [r];
    BehindFactor(u, y);
    KnownIsPositive(u.factor);
    KnownIsPositive(q.mult);
    TomanRises(v, q.mult, u.factor);
    TomanNotNegative(v, q.mult);
    LastIsZero(init, r);
    assert a[..|init|] == init;
    if JoinsLast(init, q) {
      var last := |init| - 1;
      assert Plausible(a[last]) && a[last] == init[last];
      SameUnit(init[last].mult, u, q.mult);
    }
  }

  /** There is no unit between another and its tenth. */
  lemma SameUnit(f: real, u: Word, g: real)
    requires Known(f) && u in UNITS && (g == u.factor || g == u.factor * 0.1) && g < f
    ensures f > u.factor || f == u.factor
  {
    UnitFactors(u);
  }

  lemma LastIsZero(init: seq<Raw>, r: Raw)
    requires (forall i | 0 <= i < |init + [r]| :: Plausible((init + [r])[i])) && LastSum(init + [r]) == 0
    ensures r.value == 0
  {
    hide Groups, Sums, Known;
    var a := init + [r];
    forall i | 0 <= i < |init| ensures Plausible(init[i]) { assert Plausible(a[i]) && a[i] == init[i]; }
    assert Plausible(a[|init|]);
    SumsNotNegative(init);
    SumsSnoc(init, r);
    NumberOfSums(init);
  }

  /** A waiting number that stands for nothing adds nothing but a zero. */
  lemma WaitIsSealed(n: string, y: string)
    requires Spaced(y) && EndOf(n, None).Waiting? && Toman(EndOf(n, None).number, 1_000_000_000.0) == 0
    requires 0 in Sums(Groups(Scan(n, None))) && EndOf(n, None).number >= 0.0
    requires var a := Scan(n, None); EndOf(n, None).linked && a != [] && a[|a| - 1].mult > 1.0 ==> LastSum(a) == 0
    ensures From(Sums(Groups(Scan(n + y, None))), Sums(Groups(Scan(n, None))), Sums(Groups(Scan(y, None))))
  {
    hide Scan, EndOf, Groups, Sums, Spaced, LastSum, Toman, ReadMoney, From, OpenGap;
    var h := WaitScan(n, y, None);
    var a, m := Scan(n, None), ReadMoney(y);
    MoneyPassed(y);
    SumsAfter(y, m.rest, if m.Some() then Some("") else h);
    if m.Some() {
      WordIsSealed(a, Scan(n + y, None), EndOf(n, None).number, EndOf(n, None).linked, y);
    } else {
      ScanAfterShut(m.rest, h);
      FirstUnlinked(m.rest);
      FromMerged(a, Scan(m.rest, h));
    }
  }

  lemma WordIsSealed(a: seq<Raw>, whole: seq<Raw>, number: real, linked: bool, y: string)
    requires number >= 0.0 && Toman(number, 1_000_000_000.0) == 0 && 0 in Sums(Groups(a))
    requires linked && a != [] && a[|a| - 1].mult > 1.0 ==> LastSum(a) == 0
    requires var m := ReadMoney(y);
      whole == a + ([Raw(Toman(number, m.Factor()), m.Factor(), linked)] + Scan(m.rest, Some("")))
    ensures From(Sums(Groups(whole)), Sums(Groups(a)), Sums(Groups(Scan(ReadMoney(y).rest, Some("")))))
  {
    hide Scan, Groups, Sums, LastSum, Toman, ReadMoney, From;
    var m := ReadMoney(y);
    var f, b := m.Factor(), Scan(m.rest, Some(""));
    var r := Raw(Toman(number, f), f, linked);
    MoneyIsKnown(y);
    TomanRises(number, f, 1_000_000_000.0);
    TomanNotNegative(number, f);
    AddZero(a, r);
    assert whole == (a + [r]) + b;
    ScanInRange(m.rest, Some(""));
    if b != [] { assert InRange(b[0]); }
    FromMerged(a + [r], b);
    FromZero(whole, a, r, b);
  }

  lemma FromZero(whole: seq<Raw>, a: seq<Raw>, r: Raw, b: seq<Raw>)
    requires From(Sums(Groups(whole)), Sums(Groups(a + [r])), Sums(Groups(b)))
    requires From(Sums(Groups(a + [r])), Sums(Groups(a)), [0]) && 0 in Sums(Groups(a))
    ensures From(Sums(Groups(whole)), Sums(Groups(a)), Sums(Groups(b)))
  {
    hide Groups, Sums;
  }

  predicate IsStop(c: char) { IsMark(c) || c == '\n' }

  predicate EndsStop(x: string) { x != "" && IsStop(x[|x| - 1]) }

  lemma BreakEnds(x: string)
    requires x != "" && x[|x| - 1] == '\n'
    ensures Normalize(x) != "" && IsSpace(Normalize(x)[|Normalize(x)| - 1])
  {
    hide Normalize;
    var init := x[..|x| - 1];
    assert x == init + "\n" && ['\n'] + "" == "\n";
    NormalizeConcat(init, "\n");
    NormalizeSpace('\n', "");
    NormalizeNothing();
  }

  lemma {:induction false} WaitingNotNegative(x: string, gap: Option<string>)
    requires EndOf(x, gap).Waiting?
    ensures EndOf(x, gap).number >= 0.0
    decreases |x|
  {
    hide ReadOne, NumberValue;
    if x != "" {
      ValueNotNegative(x);
      if ReadOne(x).amount.Some? {
        WaitingNotNegative(ReadOne(x).rest, Some(""));
      } else if !(IsDigit(x[0]) && ReadOne(x).rest == "") {
        WaitingNotNegative(ReadOne(x).rest, Longer(gap, x[..|x| - |ReadOne(x).rest|]));
      }
    }
  }

  /** Behind a line that does not leak every amount is one of the line or one of the text behind it. */
  lemma SealedAdds(x: string, y: string)
    requires EndsStop(x) && !Leaks(x) && Spaced(y)
    ensures From(Amounts(x + y), Amounts(x), Amounts(y))
  {
    hide Normalize, Scan, Groups, Sums, EndOf, OpenGap, Extendable, LastSum, Rejoins, From, Toman;
    var n := Normalize(x);
    NormalizeConcat(x, y);
    match EndOf(n, None)
    case Waiting(number, linked) =>
      WaitingNotNegative(n, None);
      WaitIsSealed(n, Normalize(y));
    case After(gap) =>
      if Complete(x) {
        CompleteAdds(x, y);
        FromEqual(Amounts(x + y), Amounts(x), Amounts(y));
      } else if gap == Some("") {
        HangingEndsInSpace(x);
        HangIsSealed(n, Normalize(y));
      } else {
        NotHanging(n);
        OpenIsSealed(n, Normalize(y));
      }
  }

  lemma HangingEndsInSpace(x: string)
    requires EndsStop(x) && !Complete(x)
    ensures Normalize(x) != "" && IsSpace(Normalize(x)[|Normalize(x)| - 1])
  {
    hide Normalize, Complete;
    if x[|x| - 1] == '\n' { BreakEnds(x); } else { MarkIsComplete(x); }
  }

  lemma NotHanging(n: string)
    requires EndOf(n, None).After? && EndOf(n, None).gap != Some("")
    ensures !Hanging(n, None)
  {
    hide Scan, EndOf;
  }

  // ----- a line that leaks -----

  /** A number above all of `xs`. */
  function Above(xs: seq<int>): (k: nat)
    ensures forall x | x in xs :: x < k
  {
    if xs == [] then 0 else
    var k, last := Above(xs[..|xs| - 1]), xs[|xs| - 1];
    assert forall x | x in xs :: x in xs[..|xs| - 1] || x == last;
    if last < k then k else last + 1
  }

  /** A sum that is continued by more than all amounts is none of them, nor what continued it. */
  lemma NewSum(xs: seq<int>, sum: int)
    requires sum > 0
    ensures var k := Above(xs); k + sum !in xs && k + sum != k
  {
    var k := Above(xs);
    assert forall x | x in xs :: x < k;
  }

  lemma NewInMerged(whole: seq<int>, xs: seq<int>, sum: int)
    requires sum > 0 && whole != [] && whole[|whole| - 1] == sum + Above(xs)
    ensures !From(whole, xs, [Above(xs)])
  {
    NewSum(xs, sum);
    assert whole[|whole| - 1] in whole;
  }

  lemma LastOfSnoc(a: seq<Raw>, r: Raw)
    ensures Sums(Groups(a + [r])) != [] && LastSum(a + [r]) == if JoinsLast(a, r) then LastSum(a) + r.value else r.value
  {
    hide Groups, Sums;
    SumsSnoc(a, r);
    NumberOfSums(a);
    if a == [] { assert !JoinsLast(a, r); }
  }

  lemma SumsOfOne(r: Raw)
    ensures Sums(Groups([r])) == [r.value]
  {
    OneGroup(r);
  }

  lemma AmountsOf(text: string)
    ensures Amounts(text) == Sums(Groups(Scan(Normalize(text), None)))
  {
  }

  /** A last amount of more than nothing is continued by "and". */
  lemma OpenLeaks(x: string, c: char, t: string) returns (z: string)
    requires EndOf(Normalize(x), None) == After(Some(t)) && OpenGap(Some(t)) && IsSpace(c)
    requires Extendable(Scan(Normalize(x), None)) && LastSum(Scan(Normalize(x), None)) > 0
    ensures Quiet(z) && !From(Amounts(x + ([c] + z)), Amounts(x), Amounts([c] + z))
  {
    hide Normalize, Scan, Groups, EndOf, Amounts, OpenGap, Extendable, Continuation, Sums, Quiet, From;
    var k := Above(Amounts(x));
    z := Continuation(t, k);
    ContinuationScans(x, c, t, k);
    ContinuationIsQuiet(t, k);
    var a, r := Scan(Normalize(x), None), Raw(k, 0.1, true);
    ExtendableJoins(a, r);
    LastOfSnoc(a, r);
    SumsOfOne(Raw(k, 0.1, false));
    AmountsOf(x);
    AmountsOf(x + ([c] + z));
    AmountsOf([c] + z);
    NewInMerged(Sums(Groups(a + [r])), Amounts(x), LastSum(a));
  }

  lemma ExtendableJoins(a: seq<Raw>, r: Raw)
    requires Extendable(a) && r.linked && r.mult == 0.1
    ensures JoinsLast(a, r)
  {
  }

  // ----- the texts behind it -----

  /** A text without stops. */
  predicate Still(z: string) { forall i | 0 <= i < |z| :: !IsStop(z[i]) }

  /** A sentence that normalisation leaves alone, with no white space before it. */
  predicate Quiet(z: string) { z != "" && !IsSpace(z[0]) && PlainText(z) && Still(z) }

  lemma StillConcat(x: string, y: string)
    ensures Still(x) && Still(y) ==> Still(x + y)
  {
  }

  lemma WordIsStill(w: string)
    requires SolidWord(w)
    ensures Still(w)
  {
  }

  lemma NatIsStill(n: nat)
    ensures Still(NatText(n))
  {
    hide NatText;
    forall i | 0 <= i < |NatText(n)| ensures !IsStop(NatText(n)[i]) {
      assert IsDigit(NatText(n)[i]);
    }
  }

  lemma RialIsStill(k: nat)
    ensures Still(InRial(k)) && Still(AndInRial(k))
  {
    hide NatText, Still;
    WordsAreSolid();
    var w := CURRENCIES[2].text;
    assert SolidWord(w);
    WordIsStill(w);
    SpaceIsStill();
    NatIsStill(10 * k);
    StillConcat(" ", w);
    StillConcat(NatText(10 * k), " " + w);
    StillConcat([AND, ' '], InRial(k));
  }

  lemma SpaceIsStill()
    ensures Still(" ") && Still([AND, ' ']) && Still("")
  {
  }

  lemma ContinuationIsQuiet(t: string, k: nat)
    ensures Quiet(Continuation(t, k))
  {
    hide Still, PlainText, Opens, InRial, AndInRial, IsAnd;
    Continuations(t, k);
    RialIsStill(k);
  }

  /** "And" and `k` toman, behind a currency. */
  function Tail(k: nat): string { " " + AndInRial(k) }

  lemma TailScan(k: nat)
    ensures Scan(Tail(k), Some("")) == [Raw(k, 0.1, true)]
  {
    hide Scan, AndInRial, InRial;
    var z := AndInRial(k);
    assert Tail(k)[1..] == z && Tail(k)[..1] == " " && "" + " " == " ";
    ScanPastSpace(Tail(k), Some(""));
    AndRialScan(k, " ");
    RialScan(k, Some(" " + [AND, ' ']));
    assert AllSpaces(" ");
    SpaceThenAnd(" ");
  }

  lemma TailIsPlain(k: nat)
    ensures PlainText(Tail(k)) && Still(Tail(k))
  {
    hide PlainText, Still, AndInRial, InRial;
    RialIsPlain(k);
    RialIsStill(k);
    SpaceIsStill();
    SpaceIsPlain();
    PlainConcat(" ", AndInRial(k));
    StillConcat(" ", AndInRial(k));
  }

  lemma SpaceIsPlain()
    ensures PlainText(" ") && PlainText("")
  {
  }

  /** Toman, and milliard toman. */
  function WordText(big: bool): string {
    if big then UNITS[0].text + (" " + CURRENCIES[0].text) else CURRENCIES[0].text
  }

  function WordFactor(big: bool): real { if big then 1_000_000_000.0 else 1.0 }

  lemma TomanIsQuiet()
    ensures Quiet(CURRENCIES[0].text)
  {
    WordsAreSolid();
    assert SolidWord(CURRENCIES[0].text);
  }

  lemma MilliardIsQuiet()
    ensures Quiet(UNITS[0].text)
  {
    WordsAreSolid();
    assert SolidWord(UNITS[0].text);
  }

  lemma WordIsQuiet(big: bool)
    ensures Quiet(WordText(big))
  {
    hide PlainText, Still;
    TomanIsQuiet();
    if big {
      MilliardIsQuiet();
      SpaceIsPlain();
      SpaceIsStill();
      PlainConcat(" ", CURRENCIES[0].text);
      StillConcat(" ", CURRENCIES[0].text);
      QuietConcat(UNITS[0].text, " " + CURRENCIES[0].text);
    }
  }

  lemma QuietConcat(w: string, tail: string)
    requires Quiet(w) && PlainText(tail) && Still(tail)
    ensures Quiet(w + tail)
  {
    hide PlainText, Still;
    PlainConcat(w, tail);
    StillConcat(w, tail);
  }

  lemma TrimToWord(b: char, w: string)
    requires IsSpace(b) && w != "" && !IsSpace(w[0])
    ensures TrimStart([b] + w) == w && TrimStart(w) == w
  {
    assert ([b] + w)[1..] == w;
  }

  lemma FirstOf(ws: seq<Word>, s: string)
    requires ws != [] && ws[0].text <= s
    ensures FirstWord(ws, s) == Some(ws[0])
  {
  }

  lemma TomanIsNoUnit(tail: string)
    ensures FirstWord(UNITS, CURRENCIES[0].text + tail).None?
    ensures FirstWord(CURRENCIES, CURRENCIES[0].text + tail) == Some(CURRENCIES[0])
  {
    hide FirstWord;
    var s := CURRENCIES[0].text + tail;
    assert s[0] == CURRENCIES[0].text[0];
    OtherStart(UNITS, s);
    FirstOf(CURRENCIES, s);
  }

  lemma TomanMoney(unit: Option<Word>, b: char, tail: string)
    requires IsSpace(b)
    ensures ReadCurrency(unit, TrimStart([b] + (CURRENCIES[0].text + tail))) == Money(unit, Some(CURRENCIES[0]), tail)
    ensures TrimStart([b] + (CURRENCIES[0].text + tail)) == CURRENCIES[0].text + tail
    ensures TrimStart(CURRENCIES[0].text + tail) == CURRENCIES[0].text + tail
  {
    hide FirstWord, TrimStart, PlainText, Still;
    var w := CURRENCIES[0].text;
    TomanIsQuiet();
    assert (w + tail)[0] == w[0] && (w + tail)[|w|..] == tail;
    TrimToWord(b, w + tail);
    TomanIsNoUnit(tail);
  }

  lemma SmallMoney(b: char, tail: string)
    requires IsSpace(b)
    ensures ReadMoney([b] + (CURRENCIES[0].text + tail)) == Money(None, Some(CURRENCIES[0]), tail)
  {
    hide FirstWord, TrimStart;
    TomanMoney(None, b, tail);
    TomanIsNoUnit(tail);
  }

  lemma BigMoney(b: char, tail: string)
    requires IsSpace(b)
    ensures ReadMoney([b] + (UNITS[0].text + ([' '] + (CURRENCIES[0].text + tail))))
      == Money(Some(UNITS[0]), Some(CURRENCIES[0]), tail)
  {
    hide FirstWord, TrimStart, PlainText, Still;
    var unit, after := UNITS[0].text, [' '] + (CURRENCIES[0].text + tail);
    MilliardIsQuiet();
    assert (unit + after)[0] == unit[0] && (unit + after)[|unit|..] == after;
    TrimToWord(b, unit + after);
    FirstOf(UNITS, unit + after);
    TomanMoney(Some(UNITS[0]), ' ', tail);
  }

  lemma WordMoney(big: bool, b: char, tail: string)
    requires IsSpace(b)
    ensures var m := ReadMoney([b] + (WordText(big) + tail)); m.Some() && m.Factor() == WordFactor(big) && m.rest == tail
  {
    hide ReadMoney;
    if big {
      var unit, toman := UNITS[0].text, CURRENCIES[0].text;
      BigMoney(b, tail);
      assert WordText(true) + tail == unit + ([' '] + (toman + tail));
    } else {
      SmallMoney(b, tail);
    }
  }

  /** A word that completes a waiting number, and the text behind the word. */
  lemma WordScans(x: string, c: char, big: bool, tail: string)
    requires EndOf(Normalize(x), None).Waiting? && IsSpace(c) && PlainText(tail) && Still(tail)
    ensures var y, e, a := [c] + (WordText(big) + tail), EndOf(Normalize(x), None), Scan(Normalize(x), None);
      var f := WordFactor(big);
      && Scan(Normalize(x + y), None) == a + ([Raw(Toman(e.number, f), f, e.linked)] + Scan(tail, Some("")))
      && Sums(Groups(Scan(Normalize(y), None))) == Sums(Groups(Scan(tail, Some(""))))
  {
    hide Normalize, Scan, EndOf, Groups, Sums, ReadMoney, Toman, PlainText, Still, WordText, Passed;
    var z, b := WordText(big) + tail, Blank(c);
    WordIsQuiet(big);
    QuietConcat(WordText(big), tail);
    PlainNormalize(z);
    NormalizeConcat(x, [c] + z);
    NormalizeSpace(c, z);
    WordMoney(big, b, tail);
    MoneyPassed([b] + z);
    SumsAfter([b] + z, tail, Some(""));
    var h := WaitScan(Normalize(x), [b] + z, None);
  }

  /** A waiting number of nothing, with nothing among the amounts. */
  lemma ZeroLeaks(x: string, c: char) returns (z: string)
    requires EndOf(Normalize(x), None).Waiting? && IsSpace(c)
    requires Toman(EndOf(Normalize(x), None).number, 1_000_000_000.0) !in Amounts(x)
    ensures Quiet(z) && !From(Amounts(x + ([c] + z)), Amounts(x), Amounts([c] + z))
  {
    hide Normalize, Scan, Groups, EndOf, Amounts, Sums, Quiet, WordText, Toman, PlainText, Still;
    z := WordText(true);
    WordIsQuiet(true);
    SpaceIsPlain();
    SpaceIsStill();
    WordScans(x, c, true, "");
    assert WordText(true) + "" == WordText(true);
    ScanNothing(Some(""));
    var a, e := Scan(Normalize(x), None), EndOf(Normalize(x), None);
    var r := Raw(Toman(e.number, 1_000_000_000.0), 1_000_000_000.0, e.linked);
    assert [r] + [] == [r];
    ScanInRange(Normalize(x), None);
    MilliardNeverJoins(a, r);
    LastOfSnoc(a, r);
    AmountsOf(x);
    AmountsOf(x + ([c] + z));
    AmountsOf([c] + z);
    NumberOfSums([]);
    LastIsNew(Sums(Groups(a + [r])), Amounts(x), Amounts([c] + z));
  }

  lemma MilliardNeverJoins(a: seq<Raw>, r: Raw)
    requires (forall i | 0 <= i < |a| :: InRange(a[i])) && r.mult == 1_000_000_000.0
    ensures !JoinsLast(a, r)
  {
    if a != [] { assert InRange(a[|a| - 1]); }
  }

  lemma LastIsNew(whole: seq<int>, xs: seq<int>, zs: seq<int>)
    requires whole != [] && whole[|whole| - 1] !in xs && zs == []
    ensures !From(whole, xs, zs)
  {
    if From(whole, xs, zs) { FromHas(whole, xs, zs, whole[|whole| - 1]); }
  }

  lemma FromHas(whole: seq<int>, xs: seq<int>, zs: seq<int>, x: int)
    requires From(whole, xs, zs) && x in whole
    ensures x in xs || x in zs
  {
  }

  /** A waiting number that stands for, or bridges to, more than nothing. */
  lemma WaitLeaks(x: string, c: char, big: bool) returns (z: string)
    requires EndOf(Normalize(x), None).Waiting? && IsSpace(c)
    requires var e, a, f := EndOf(Normalize(x), None), Scan(Normalize(x), None), WordFactor(big);
      LastSum(a + [Raw(Toman(e.number, f), f, e.linked)]) > 0
    ensures Quiet(z) && !From(Amounts(x + ([c] + z)), Amounts(x), Amounts([c] + z))
  {
    hide Normalize, Scan, Groups, EndOf, Amounts, Sums, Quiet, WordText, Toman, PlainText, Still, LastSum, Tail, From;
    var k := Above(Amounts(x));
    z := WordText(big) + Tail(k);
    WordIsQuiet(big);
    TailIsPlain(k);
    QuietConcat(WordText(big), Tail(k));
    WordScans(x, c, big, Tail(k));
    TailScan(k);
    var a, e, f := Scan(Normalize(x), None), EndOf(Normalize(x), None), WordFactor(big);
    var r, q := Raw(Toman(e.number, f), f, e.linked), Raw(k, 0.1, true);
    assert a + ([r] + [q]) == (a + [r]) + [q];
    ContinuedSum(a + [r], q, x, [c] + z);
  }

  /** The last sum of `a`, more than nothing, is continued by `q`, which alone is all of `y`. */
  lemma ContinuedSum(a: seq<Raw>, q: Raw, x: string, y: string)
    requires q == Raw(Above(Amounts(x)), 0.1, true) && JoinsLast(a, q) && LastSum(a) > 0
    requires Scan(Normalize(x + y), None) == a + [q] && Sums(Groups(Scan(Normalize(y), None))) == Sums(Groups([q]))
    ensures !From(Amounts(x + y), Amounts(x), Amounts(y))
  {
    hide Normalize, Scan, Groups, Amounts, Sums, From;
    LastOfSnoc(a, q);
    SumsOfOne(q);
    AmountsOf(x + y);
    AmountsOf(y);
    NewInMerged(Sums(Groups(a + [q])), Amounts(x), LastSum(a));
  }

  lemma RialIsCurrency(tail: string)
    ensures FirstWord(CURRENCIES, CURRENCIES[2].text + tail) == Some(CURRENCIES[2])
  {
    var ws, s := CURRENCIES, CURRENCIES[2].text + tail;
    assert ws[1..][0] == ws[1] && ws[1..][1..][0] == ws[2];
    assert s[0] == ws[2].text[0] && ws[0].text[0] != s[0] && ws[1].text[0] != s[0];
    assert FirstWord(ws[1..][1..], s) == Some(ws[2]);
    assert FirstWord(ws[1..], s) == Some(ws[2]);
  }

  lemma RialBehind(u: Word, b: char, tail: string)
    requires IsSpace(b)
    ensures var m := Behind(u, [b] + (CURRENCIES[2].text + tail)); m.Factor() == u.factor * 0.1 && m.rest == tail
  {
    hide FirstWord, TrimStart;
    var w := CURRENCIES[2].text;
    WordsAreSolid();
    assert SolidWord(w);
    assert (w + tail)[0] == w[0] && (w + tail)[|w|..] == tail;
    TrimToWord(b, w + tail);
    RialIsCurrency(tail);
  }

  /** In rial the last amount, of nothing, bridges to the sum before it. */
  lemma HangLeaks(x: string, c: char) returns (z: string)
    requires EndsStop(x) && !Complete(x) && EndOf(Normalize(x), None) == After(Some("")) && IsSpace(c)
    requires Rejoins(Scan(Normalize(x), None))
    ensures Quiet(z) && !From(Amounts(x + ([c] + z)), Amounts(x), Amounts([c] + z))
  {
    hide Normalize, Scan, Groups, EndOf, Amounts, Sums, Quiet, Toman, PlainText, Still, LastSum, Tail, From, Behind, Passed, Complete;
    var n, k, w, b := Normalize(x), Above(Amounts(x)), CURRENCIES[2].text, Blank(c);
    z := w + Tail(k);
    RialWordIsQuiet();
    TailIsPlain(k);
    QuietConcat(w, Tail(k));
    QuietIsPlain(z);
    PlainNormalize(z);
    NormalizeConcat(x, [c] + z);
    NormalizeSpace(c, z);
    HangingEndsInSpace(x);
    var u, v := HangScan(n, [b] + z, None);
    RialBehind(u, b, Tail(k));
    BehindPassed(u, [b] + z);
    SumsAfter([b] + z, Tail(k), Some(""));
    TailScan(k);
    RejoinsInRial(Scan(n, None), u, v, k, x, [c] + z);
  }

  lemma QuietIsPlain(z: string)
    requires Quiet(z)
    ensures PlainText(z)
  {
    hide PlainText;
  }

  lemma RialWordIsQuiet()
    ensures Quiet(CURRENCIES[2].text)
  {
    WordsAreSolid();
    assert SolidWord(CURRENCIES[2].text);
  }

  lemma RejoinsInRial(a: seq<Raw>, u: Word, v: real, k: nat, x: string, y: string)
    requires Rejoins(a) && u in UNITS && v >= 0.0 && k == Above(Amounts(x)) && a == Scan(Normalize(x), None)
    requires a[|a| - 1].mult == u.factor
    requires Scan(Normalize(x + y), None)
      == a[..|a| - 1] + ([Raw(Toman(v, u.factor * 0.1), u.factor * 0.1, a[|a| - 1].linked)] + [Raw(k, 0.1, true)])
    requires Sums(Groups(Scan(Normalize(y), None))) == Sums(Groups([Raw(k, 0.1, true)]))
    ensures !From(Amounts(x + y), Amounts(x), Amounts(y))
  {
    hide Normalize, Scan, Groups, Amounts, Sums, From, LastSum, Toman, Known;
    var n := |a| - 1;
    var init, f := a[..n], u.factor * 0.1;
    var q, r := Raw(Toman(v, f), f, true), Raw(k, 0.1, true);
    UnitFactors(u);
    TomanNotNegative(v, f);
    ScanIsPlausible(Normalize(x), None);
    forall i | 0 <= i < |init| ensures Plausible(init[i]) { assert Plausible(a[i]) && a[i] == init[i]; }
    SumsNotNegative(init);
    LastOfSnoc(init, q);
    assert init + ([q] + [r]) == (init + [q]) + [r];
    ContinuedSum(init + [q], r, x, y);
  }

  /** Behind every line that leaks a quiet sentence may stand that makes a new amount. */
  lemma LeakFails(x: string, c: char) returns (z: string)
    requires EndsStop(x) && Leaks(x) && IsSpace(c)
    ensures Quiet(z) && !From(Amounts(x + ([c] + z)), Amounts(x), Amounts([c] + z))
  {
    hide Normalize, Scan, EndOf, OpenGap, Groups, Sums, Extendable, LastSum, Rejoins, From, Toman, Quiet, Amounts;
    var n := Normalize(x);
    var a := Scan(n, None);
    AmountsOf(x);
    ScanIsPlausible(n, None);
    SumsNotNegative(a);
    match EndOf(n, None)
    case Waiting(number, linked) => z := WaitingFails(x, c);
    case After(gap) =>
      assert gap.Some? by { NothingIsOpen(); }
      if LastSum(a) != 0 {
        z := OpenLeaks(x, c, gap.value);
      } else {
        z := HangLeaks(x, c);
      }
  }

  lemma WaitingFails(x: string, c: char) returns (z: string)
    requires EndOf(Normalize(x), None).Waiting? && Leaks(x) && IsSpace(c) && LastSum(Scan(Normalize(x), None)) >= 0
    ensures Quiet(z) && !From(Amounts(x + ([c] + z)), Amounts(x), Amounts([c] + z))
  {
    hide Normalize, Scan, EndOf, Groups, Sums, LastSum, From, Toman, Quiet, Amounts, Rejoins;
    var n := Normalize(x);
    var a, e := Scan(n, None), EndOf(n, None);
    AmountsOf(x);
    WaitingNotNegative(n, None);
    TomanNotNegative(e.number, 1_000_000_000.0);
    TomanNotNegative(e.number, 1.0);
    var big, small := Raw(Toman(e.number, 1_000_000_000.0), 1_000_000_000.0, e.linked), Raw(Toman(e.number, 1.0), 1.0, e.linked);
    if big.value != 0 {
      ScanInRange(n, None);
      MilliardNeverJoins(a, big);
      LastOfSnoc(a, big);
      z := WaitLeaks(x, c, true);
    } else if 0 !in Amounts(x) {
      z := ZeroLeaks(x, c);
    } else {
      LastOfSnoc(a, small);
      z := WaitLeaks(x, c, false);
    }
  }

  /** Every amount of the whole is one of the line or one of the text behind it, whatever
      that text is, if and only if the line does not leak. */
  lemma LeakRule(x: string)
    requires EndsStop(x)
    ensures (forall y | Spaced(y) :: From(Amounts(x + y), Amounts(x), Amounts(y))) <==> !Leaks(x)
  {
    hide Amounts, Leaks, From;
    if Leaks(x) {
      var z := LeakFails(x, ' ');
      assert Spaced([' '] + z);
    } else {
      forall y | Spaced(y) ensures From(Amounts(x + y), Amounts(x), Amounts(y)) { SealedAdds(x, y); }
    }
  }

  /** A line, or another sentence, that does not leak. */
  predicate Sealed(x: string) { EndsStop(x) && !Leaks(x) }

  lemma CompleteIsSealed(x: string)
    requires EndsStop(x) && Complete(x)
    ensures Sealed(x)
  {
    hide Normalize, Scan, EndOf, OpenGap;
  }
}
