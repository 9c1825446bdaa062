/** Card and SHEBA checks of refund-destination.util.ts: the Luhn formula of
    ISO/IEC 7812-1 Annex B and the ISO 13616-1 check (MOD 97-10) for Iran. */
module RefundDestination {
  import opened JsText

  // ----- Luhn -----

  /** The sum of the figures of a one- or two-figure number. */
  function FigureSum(n: nat): nat { n / 10 + n % 10 }

  /** What a digit adds when it is the `place`-th from the right, counting from 1:
      every second digit is doubled and the figures of the product are added. */
  function LuhnWeight(place: nat, d: Digit): nat {
    FigureSum(if place % 2 == 0 then 2 * d else d)
  }

  function LuhnSum(ds: seq<Digit>): nat {
    if ds == [] then 0 else LuhnWeight(|ds|, ds[0]) + LuhnSum(ds[1..])
  }

  predicate MultipleOfTen(n: nat) { n % 10 == 0 }

  predicate LuhnPasses(ds: seq<Digit>) { |ds| == 16 && MultipleOfTen(LuhnSum(ds)) }

  predicate LuhnValid(s: string) { AllDigits(s) && LuhnPasses(Digits(s)) }

  lemma WeightByHand(place: nat, d: Digit)
    ensures LuhnWeight(place, d) == if place % 2 == 1 then d else if 2 * d > 9 then 2 * d - 9 else 2 * d
  {
  }

  method LuhnOk(digits: string) returns (ok: bool)
    ensures ok <==> LuhnValid(digits)
  {
    hide *;
    LuhnValidMeans(digits);
    if |digits| != 16 || !AllDigits(digits) {
      return false;
    }
    ghost var ds := Digits(digits);
    var sum, alt := 0, false;
    var i := |digits| - 1;
    LuhnSumEmpty(ds);
    LastIsPlain();
    while i >= 0
      invariant -1 <= i < 16
      invariant sum == LuhnSum(ds[i + 1..])
      invariant alt <==> Doubled(i)
    {
      var n := digits[i] as int - 48;
      LuhnStep(digits, i, alt);
      if alt {
        n := n * 2;
        if n > 9 { n := n - 9; }
      }
      sum := sum + n;
      alt := !alt;
      i := i - 1;
    }
    assert i == -1;
    LuhnSumWhole(ds);
    return MultipleOfTen(sum);
  }

  lemma LuhnValidMeans(s: string)
    ensures LuhnValid(s) <==> |s| == 16 && AllDigits(s) && MultipleOfTen(LuhnSum(Digits(s)))
  {
  }

  /** Of sixteen digits every second one is doubled, beginning with the first. */
  predicate Doubled(i: int) { i % 2 == 0 }

  lemma LastIsPlain()
    ensures !Doubled(15)
  {
  }

  lemma LuhnStep(digits: string, i: nat, alt: bool)
    requires |digits| == 16 && AllDigits(digits) && i < 16 && (alt <==> Doubled(i))
    ensures var ds, n := Digits(digits), digits[i] as int - 48;
      LuhnSum(ds[i..]) == LuhnSum(ds[i + 1..]) + if !alt then n else if n * 2 > 9 then n * 2 - 9 else n * 2
    ensures alt <==> !Doubled(i - 1)
  {
    hide LuhnSum, LuhnWeight;
    DigitAt(digits, i);
    WeightByHand(16 - i, Digits(digits)[i]);
    LuhnSumFrom(Digits(digits), i);
  }

  lemma LuhnSumWhole(ds: seq<Digit>)
    ensures LuhnSum(ds[0..]) == LuhnSum(ds)
  {
    assert ds[0..] == ds;
  }

  lemma LuhnSumEmpty(ds: seq<Digit>)
    ensures LuhnSum(ds[|ds|..]) == 0
  {
  }

  lemma LuhnSumFrom(ds: seq<Digit>, i: nat)
    requires i < |ds|
    ensures LuhnSum(ds[i..]) == LuhnWeight(|ds| - i, ds[i]) + LuhnSum(ds[i + 1..])
  {
    hide LuhnWeight;
    assert ds[i..][1..] == ds[i + 1..];
  }

  lemma DigitAt(s: string, i: nat)
    requires AllDigits(s) && i < |s|
    ensures Digits(s)[i] == s[i] as int - 48
  {
  }

  /** Replacing one digit moves the sum by the difference of the two weights. */
  lemma {:induction false} LuhnSumUpdate(ds: seq<Digit>, i: nat, d: Digit)
    requires i < |ds|
    ensures LuhnSum(ds[i := d]) - LuhnSum(ds) == LuhnWeight(|ds| - i, d) - LuhnWeight(|ds| - i, ds[i])
  {
    if i == 0 {
      assert ds[i := d][1..] == ds[1..];
    } else {
      LuhnSumUpdate(ds[1..], i - 1, d);
      assert ds[i := d][1..] == ds[1..][i - 1 := d];
    }
  }

  lemma LuhnRejectsSingleChange(ds: seq<Digit>, i: nat, d: Digit)
    requires LuhnPasses(ds) && i < |ds| && d != ds[i]
    ensures !LuhnPasses(ds[i := d])
  {
    hide LuhnSum, LuhnWeight;
    LuhnSumUpdate(ds, i, d);
    WeightsDiffer(16 - i, ds[i], d);
    Off(LuhnSum(ds), LuhnWeight(16 - i, d) - LuhnWeight(16 - i, ds[i]));
  }

  lemma Tens(k: int, y: int)
    ensures (10 * k + y) % 10 == y % 10
  {
    assert 10 * k + y == 10 * (k + y / 10) + y % 10;
  }

  lemma Off(x: int, y: int)
    requires x % 10 == 0
    ensures (x + y) % 10 == 0 <==> y % 10 == 0
  {
    Tens(x / 10, y);
  }

  /** Doubling with figure sums permutes the ten digits, up to a multiple of ten. */
  lemma WeightsDiffer(place: nat, a: Digit, b: Digit)
    requires a != b
    ensures (LuhnWeight(place, b) - LuhnWeight(place, a)) % 10 != 0
  {
    WeightByHand(place, a);
    WeightByHand(place, b);
  }

  /** What doubling adds to the weight of a digit. */
  function Excess(d: Digit): int { if d > 4 then d - 9 else d }

  lemma WeightPair(place: nat, d: Digit)
    ensures LuhnWeight(place + 1, d) - LuhnWeight(place, d) == if place % 2 == 1 then Excess(d) else -Excess(d)
  {
    hide LuhnWeight;
    WeightByHand(place + 1, d);
    WeightByHand(place, d);
  }

  lemma SameExcess(a: Digit, b: Digit)
    ensures Excess(a) == Excess(b) <==> a == b || (a, b) == (0, 9) || (a, b) == (9, 0)
  {
  }

  lemma SwapWeights(place: nat, a: Digit, b: Digit)
    requires place > 0
    ensures var y := LuhnWeight(place + 1, b) - LuhnWeight(place + 1, a) + LuhnWeight(place, a) - LuhnWeight(place, b);
      y % 10 == 0 <==> a == b || (a, b) == (0, 9) || (a, b) == (9, 0)
  {
    hide LuhnWeight;
    WeightPair(place, a);
    WeightPair(place, b);
    SameExcess(a, b);
  }

  function Swapped<T>(s: seq<T>, i: nat): (r: seq<T>)
    requires i + 1 < |s|
    ensures |r| == |s|
  {
    s[i := s[i + 1]][i + 1 := s[i]]
  }

  /** A swap of two neighbours slips through exactly when they are equal or are 0 and 9. */
  lemma LuhnSwap(ds: seq<Digit>, i: nat)
    requires LuhnPasses(ds) && i + 1 < |ds|
    ensures LuhnPasses(Swapped(ds, i)) <==>
            ds[i] == ds[i + 1] || (ds[i], ds[i + 1]) == (0, 9) || (ds[i], ds[i + 1]) == (9, 0)
  {
    hide LuhnSum, LuhnWeight;
    var a, b := ds[i], ds[i + 1];
    LuhnSumUpdate(ds, i, b);
    LuhnSumUpdate(ds[i := b], i + 1, a);
    SwapWeights(15 - i, a, b);
    Off(LuhnSum(ds), LuhnSum(Swapped(ds, i)) - LuhnSum(ds));
  }

  /** Every 15-digit prefix is completed by exactly one last digit. */
  lemma LuhnCheckDigit(prefix: seq<Digit>) returns (check: Digit)
    requires |prefix| == 15
    ensures forall d: Digit :: LuhnPasses(prefix + [d]) <==> d == check
  {
    hide LuhnSum;
    var zero := prefix + [0 as Digit];
    check := Completing(LuhnSum(zero));
    forall d: Digit ensures LuhnPasses(prefix + [d]) <==> d == check {
      LastDigit(prefix, d);
      CompletesOnce(LuhnSum(zero), d);
    }
  }

  function Completing(sum: nat): Digit { (10 - sum % 10) % 10 }

  lemma CompletesOnce(sum: nat, d: Digit)
    ensures (sum + d) % 10 == 0 <==> d == Completing(sum)
  {
    Tens(sum / 10, sum % 10 + d);
    OnlyTen(sum % 10, d);
  }

  lemma OnlyTen(r: Digit, d: Digit)
    ensures (r + d) % 10 == 0 <==> d == if r == 0 then 0 else 10 - r
  {
  }

  lemma LastDigit(prefix: seq<Digit>, d: Digit)
    requires |prefix| == 15
    ensures LuhnSum(prefix + [d]) == LuhnSum(prefix + [0 as Digit]) + d
  {
    var zero := prefix + [0 as Digit];
    LuhnSumUpdate(zero, 15, d);
    WeightByHand(1, d);
    WeightByHand(1, 0);
    assert zero[15 := d] == prefix + [d];
  }

  // ----- IBAN -----

  /** `toUpperCase` as far as it can produce a character the check accepts:
      ASCII letters, and the dotless i, whose capital is an ASCII I. */
  function Upper(c: char): char {
    if 'a' <= c <= 'z' then (c as int - 32) as char
    else if c == '\U{131}' then 'I'
    else c
  }

  function UpperAll(s: string): (r: string)
    ensures |r| == |s|
  {
    seq(|s|, i requires 0 <= i < |s| => Upper(s[i]))
  }

  function Without(s: string, drop: char -> bool): string {
    if s == "" then "" else if drop(s[0]) then Without(s[1..], drop) else [s[0]] + Without(s[1..], drop)
  }

  function Compact(raw: string): string {
    UpperAll(Without(EnglishDigits(raw), IsSpace))
  }

  predicate IranShape(s: string) {
    |s| == 26 && s[..2] == "IR" && AllDigits(s[2..])
  }

  /** The number MOD 97-10 looks at: BBAN, country letters as 18 and 27, check pair.
      The argument is the 24 digits as written, check pair first. */
  function Checked(ds: seq<Digit>): nat
    requires |ds| == 24
  {
    Number(ds[2..]) * 1_000_000 + 182_700 + Number(ds[..2])
  }

  predicate IbanPasses(ds: seq<Digit>) { |ds| == 24 && Checked(ds) % 97 == 1 }

  predicate IbanValid(s: string) { IranShape(s) && IbanPasses(Digits(s[2..])) }

  /** A letter is written as its two-digit number, A = 10 to Z = 35. */
  function Expanded(c: char): string {
    if 'A' <= c <= 'Z' then
      var n := c as int - 55;
      [DigitChar(n / 10), DigitChar(n % 10)]
    else [c]
  }

  lemma {:induction false} NumberConcat(a: seq<Digit>, b: seq<Digit>)
    ensures Number(a + b) == Number(a) * Pow10(|b|) + Number(b)
  {
    if b == [] {
      assert a + b == a;
    } else {
      var front := b[..|b| - 1];
      NumberConcat(a, front);
      assert (a + b)[..|a + b| - 1] == a + front;
      hide Number, Pow10;
      NumberNext(a + b);
      NumberNext(b);
      Pow10Next(|front|);
      TimesTen(Number(a), Pow10(|front|));
    }
  }

  lemma NumberNext(ds: seq<Digit>)
    requires ds != []
    ensures Number(ds) == 10 * Number(ds[..|ds| - 1]) + ds[|ds| - 1]
  {
  }

  lemma Pow10Next(k: nat)
    ensures Pow10(k + 1) == 10 * Pow10(k)
  {
  }

  lemma TimesTen(x: int, y: int)
    ensures x * (10 * y) == 10 * (x * y)
  {
  }

  lemma Pow10Values()
    ensures Pow10(2) == 100 && Pow10(6) == 1_000_000 && Pow10(9) == 1_000_000_000
  {
    assert Pow10(3) == 1000;
    assert Pow10(5) == 100_000;
    assert Pow10(8) == 100_000_000;
  }

  /** The rearranged and expanded digits write the number that is checked. */
  lemma RearrangedNumber(ds: seq<Digit>)
    requires |ds| == 24
    ensures Number(ds[2..] + [1, 8, 2, 7] + ds[..2]) == Checked(ds)
  {
    Pow10Values();
    var country: seq<Digit> := [1, 8, 2, 7];
    CountryNumber();
    NumberConcat(country, ds[..2]);
    NumberConcat(ds[2..], country + ds[..2]);
    assert ds[2..] + country + ds[..2] == ds[2..] + (country + ds[..2]);
  }

  lemma CountryNumber()
    ensures Number([1, 8, 2, 7]) == 1827
  {
    var c: seq<Digit> := [1, 8, 2, 7];
    assert c[..3] == [1, 8, 2] && c[..3][..2] == [1, 8] && c[..3][..2][..1] == [1];
    assert Number([1]) == 1;
    assert Number([1, 8]) == 18;
    assert Number([1, 8, 2]) == 182;
  }

  /** The digit string left after `slice`, `replace` of letters and joining. */
  method Rearranged(compact: string) returns (n: string)
    requires IranShape(compact)
    ensures n == compact[4..] + "1827" + compact[2..4]
  {
    var moved := compact[4..] + compact[..4];
    n := "";
    for i := 0 to 26
      invariant i <= 22 ==> n == compact[4..][..i]
      invariant i == 23 ==> n == compact[4..] + "18"
      invariant i >= 24 ==> n == compact[4..] + "1827" + compact[2..4][..i - 24]
    {
      if i < 22 {
        assert moved[i] == compact[2..][i + 2];
      } else if i < 24 {
        assert moved[i] == compact[..2][i - 22];
      } else {
        assert moved[i] == compact[2..][i - 24];
      }
      n := n + Expanded(moved[i]);
    }
    assert compact[2..4][..2] == compact[2..4];
  }

  lemma RearrangedDigits(compact: string, n: string)
    requires IranShape(compact) && n == compact[4..] + "1827" + compact[2..4]
    ensures AllDigits(n)
    ensures var ds := Digits(compact[2..]); Digits(n) == ds[2..] + [1, 8, 2, 7] + ds[..2]
  {
    assert forall i | 0 <= i < 22 :: n[i] == compact[2..][i + 2];
    assert forall i | 26 <= i < 28 :: n[i] == compact[2..][i - 26];
    assert n[22] == '1' && n[23] == '8' && n[24] == '2' && n[25] == '7';
  }

  method IbanOk(raw: string) returns (ok: bool)
    ensures ok <==> IbanValid(Compact(raw))
  {
    var compact := Compact(raw);
    if !IranShape(compact) {
      return false;
    }
    var n := Rearranged(compact);
    RearrangedDigits(compact, n);
    RearrangedNumber(Digits(compact[2..]));
    var rem := Remainder97(n);
    return rem == 1;
  }

  /** The digit-by-digit remainder is that of the whole 28-digit number. */
  method Remainder97(n: string) returns (rem: nat)
    requires AllDigits(n)
    ensures rem == Number(Digits(n)) % 97
  {
    ghost var ds := Digits(n);
    rem := 0;
    for i := 0 to |n|
      invariant rem == Number(ds[..i]) % 97
    {
      assert ds[..i + 1][..i] == ds[..i];
      assert n[i] as int - 48 == ds[i];
      CarryRemainder(Number(ds[..i]), ds[i]);
      rem := (rem * 10 + (n[i] as int - 48)) % 97;
    }
    assert ds[..|n|] == ds;
  }

  lemma CarryRemainder(x: nat, d: nat)
    ensures (x % 97 * 10 + d) % 97 == (10 * x + d) % 97
  {
    assert 10 * x + d == 97 * (10 * (x / 97)) + (x % 97 * 10 + d);
    Multiples97(10 * (x / 97), x % 97 * 10 + d);
  }

  lemma Multiples97(k: int, y: int)
    ensures (97 * k + y) % 97 == y % 97
  {
    assert 97 * k + y == 97 * (k + y / 97) + y % 97;
  }

  // ----- what MOD 97-10 detects -----

  lemma {:induction false} NumberUpdate(ds: seq<Digit>, i: nat, d: Digit)
    requires i < |ds|
    ensures Number(ds[i := d]) == Number(ds) + (d - ds[i]) * Pow10(|ds| - 1 - i)
  {
    var last := |ds| - 1;
    if i == last {
      assert ds[i := d][..last] == ds[..last];
    } else {
      NumberUpdate(ds[..last], i, d);
      assert ds[i := d][..last] == ds[..last][i := d];
      TimesTen(d - ds[i], Pow10(last - 1 - i));
    }
  }

  /** 97 is a prime that does not divide ten: 68 * 10 = 7 * 97 + 1. */
  lemma {:induction false} TimesPow10(x: int, k: nat)
    requires (x * Pow10(k)) % 97 == 0
    ensures x % 97 == 0
  {
    if k > 0 {
      TimesTen(x, Pow10(k - 1));
      TenTimes(x * Pow10(k - 1));
      TimesPow10(x, k - 1);
    }
  }

  lemma TenTimes(y: int)
    requires (10 * y) % 97 == 0
    ensures y % 97 == 0
  {
    var q := (10 * y) / 97;
    assert y == 97 * (68 * q - 7 * y);
  }

  /** The power of ten that a digit of the written IBAN weighs. */
  function Place(i: nat): nat
    requires i < 24
  {
    if i < 2 then 1 - i else 29 - i
  }

  lemma CheckedUpdate(ds: seq<Digit>, i: nat, d: Digit)
    requires |ds| == 24 && i < 24
    ensures Checked(ds[i := d]) == Checked(ds) + (d - ds[i]) * Pow10(Place(i))
  {
    hide Number, Pow10;
    var t := ds[i := d];
    if i < 2 {
      assert t[2..] == ds[2..] && t[..2] == ds[..2][i := d];
      NumberUpdate(ds[..2], i, d);
    } else {
      assert t[..2] == ds[..2] && t[2..] == ds[2..][i - 2 := d];
      NumberUpdate(ds[2..], i - 2, d);
      Pow10Add(23 - i, 6);
      Pow10Values();
      Scaled(d - ds[i], Pow10(23 - i), 1_000_000);
    }
  }

  lemma Scaled(x: int, y: int, z: int)
    ensures x * (y * z) == (x * y) * z
  {
  }

  lemma {:induction false} Pow10Add(a: nat, b: nat)
    ensures Pow10(a + b) == Pow10(a) * Pow10(b)
  {
    if a > 0 {
      Pow10Add(a - 1, b);
      Scaled(10, Pow10(a - 1), Pow10(b));
    }
  }

  lemma Shifted(x: int, y: int)
    requires x % 97 == 1 && y % 97 != 0
    ensures (x + y) % 97 != 1
  {
  }

  lemma IbanRejectsSingleChange(ds: seq<Digit>, i: nat, d: Digit)
    requires IbanPasses(ds) && i < 24 && d != ds[i]
    ensures !IbanPasses(ds[i := d])
  {
    CheckedUpdate(ds, i, d);
    SmallTimesPow10(d - ds[i], Place(i));
    Shifted(Checked(ds), (d - ds[i]) * Pow10(Place(i)));
  }

  lemma SmallTimesPow10(x: int, k: nat)
    requires -97 < x < 97 && x != 0
    ensures (x * Pow10(k)) % 97 != 0
  {
    if (x * Pow10(k)) % 97 == 0 {
      TimesPow10(x, k);
    }
  }

  /** The last check digit and the first BBAN digit are neighbours on paper but
      27 places apart in the checked number; 10^27 leaves 19 by 97. */
  lemma TwentySevenPlaces(x: int)
    requires -9 <= x <= 9 && x != 0
    ensures (x * Pow10(27) - x) % 97 != 0
  {
    hide Pow10;
    Pow10Values();
    Pow10Add(9, 9);
    Pow10Add(18, 9);
    var q := 1_000_000_000_000_000_000_000_000_000 / 97;
    assert Pow10(18) == 1_000_000_000_000_000_000;
    assert Pow10(27) == 97 * q + 19;
    TimesNineteen(x, q);
  }

  lemma TimesNineteen(x: int, q: int)
    requires -9 <= x <= 9 && x != 0
    ensures (x * (97 * q + 19) - x) % 97 != 0
  {
    assert x * (97 * q + 19) - x == 97 * (q * x) + 18 * x;
    Multiples97(q * x, 18 * x);
  }

  lemma SwapMoves(x: int, k: nat)
    requires -9 <= x <= 9 && x != 0
    ensures (x * Pow10(k + 1) - x * Pow10(k)) % 97 != 0
  {
    TimesTen(x, Pow10(k));
    SmallTimesPow10(9 * x, k);
    assert (9 * x) * Pow10(k) == 9 * (x * Pow10(k));
  }

  lemma IbanRejectsSwap(ds: seq<Digit>, i: nat)
    requires IbanPasses(ds) && i + 1 < 24 && ds[i] != ds[i + 1]
    ensures !IbanPasses(Swapped(ds, i))
  {
    var a, b := ds[i], ds[i + 1];
    CheckedUpdate(ds, i, b);
    CheckedUpdate(ds[i := b], i + 1, a);
    var y := SwapDelta(a, b, i);
    Shifted(Checked(ds), y);
  }

  lemma SwapDelta(a: Digit, b: Digit, i: nat) returns (y: int)
    requires i + 1 < 24 && a != b
    ensures y == (b - a) * Pow10(Place(i)) + (a - b) * Pow10(Place(i + 1))
    ensures y % 97 != 0
  {
    hide Pow10;
    var p, q := Pow10(Place(i)), Pow10(Place(i + 1));
    y := (b - a) * p + (a - b) * q;
    if i == 1 {
      NoPlaces();
      TwentySevenPlaces(a - b);
    } else {
      SwapMoves(b - a, Place(i + 1));
      Opposite(a, b, q);
    }
  }

  lemma NoPlaces()
    ensures Pow10(0) == 1
  {
  }

  lemma Opposite(a: int, b: int, q: int)
    ensures (a - b) * q == -((b - a) * q)
  {
  }

  function TwoDigits(n: nat): seq<Digit>
    requires n < 100
  {
    [n / 10, n % 10]
  }

  /** Of the pairs 02 to 98 exactly one completes a BBAN. */
  lemma IbanCheckPair(bban: seq<Digit>) returns (pair: nat)
    requires |bban| == 22
    ensures 2 <= pair <= 98
    ensures forall k: nat | 2 <= k <= 98 :: IbanPasses(TwoDigits(k) + bban) <==> k == pair
  {
    var fixed := Number(bban) * 1_000_000 + 182_700;
    pair := 98 - fixed % 97;
    forall k: nat | 2 <= k <= 98 ensures IbanPasses(TwoDigits(k) + bban) <==> k == pair {
      var ds := TwoDigits(k) + bban;
      assert ds[..2] == TwoDigits(k) && ds[2..] == bban;
      NumberOfTwo(k);
      OnePair(fixed, k);
    }
  }

  lemma NumberOfTwo(k: nat)
    requires k < 100
    ensures Number(TwoDigits(k)) == k
  {
    assert TwoDigits(k)[..1] == [k / 10];
    assert Number([k / 10]) == k / 10;
  }

  lemma OnePair(fixed: nat, k: nat)
    requires 2 <= k <= 98
    ensures (fixed + k) % 97 == 1 <==> k == 98 - fixed % 97
  {
  }

  // ----- parsing a destination -----

  datatype Destination = Card(plain: string) | Sheba(plain: string)

  predicate IsSpaceOrDash(c: char) { IsSpace(c) || c == '-' }

  predicate NotDigit(c: char) { !IsDigit(c) }

  function DigitsOnly(raw: string): string { Without(EnglishDigits(raw), NotDigit) }

  predicate StartsWithIr(s: string) { |s| >= 2 && s[0] in {'I', 'i'} && s[1] in {'R', 'r'} }

  function ParseDestination(raw: string): Option<Destination> {
    var compact := Without(EnglishDigits(raw), IsSpaceOrDash);
    if StartsWithIr(compact) || (|compact| == 24 && AllDigits(compact)) then
      var iban := if StartsWithIr(compact) then UpperAll(compact) else "IR" + compact;
      if IbanValid(Compact(iban)) then Some(Sheba(iban)) else None
    else
      var digits := DigitsOnly(raw);
      if LuhnValid(digits) then Some(Card(digits)) else None
  }

  lemma {:induction false} WithoutNothing(s: string, drop: char -> bool)
    requires forall i | 0 <= i < |s| :: !drop(s[i])
    ensures Without(s, drop) == s
  {
    if s != "" { WithoutNothing(s[1..], drop); }
  }

  lemma {:induction false} WithoutGone(s: string, drop: char -> bool)
    ensures forall i | 0 <= i < |Without(s, drop)| :: !drop(Without(s, drop)[i]) && Without(s, drop)[i] in s
  {
    if s != "" { WithoutGone(s[1..], drop); }
  }

  /** Dropping fewer characters first changes nothing about dropping more. */
  lemma {:induction false} WithoutTwice(s: string, fewer: char -> bool, more: char -> bool)
    requires forall c :: fewer(c) ==> more(c)
    ensures Without(Without(s, fewer), more) == Without(s, more)
  {
    if s != "" {
      WithoutTwice(s[1..], fewer, more);
      var rest := Without(s[1..], fewer);
      assert ([s[0]] + rest)[1..] == rest;
    }
  }

  lemma {:induction false} UpperKeepsDigits(s: string)
    ensures Without(UpperAll(s), NotDigit) == Without(s, NotDigit)
  {
    if s != "" {
      UpperKeepsDigits(s[1..]);
      assert UpperAll(s)[1..] == UpperAll(s[1..]);
    }
  }

  /** The characters of a text that is stored. */
  predicate Plain(s: string) { forall i | 0 <= i < |s| :: IsDigit(s[i]) || s[i] == 'I' || s[i] == 'R' }

  lemma PlainIsCompact(s: string)
    requires Plain(s)
    ensures EnglishDigits(s) == s && Without(s, IsSpaceOrDash) == s && UpperAll(s) == s && Compact(s) == s
  {
    WithoutNothing(s, IsSpaceOrDash);
    WithoutNothing(s, IsSpace);
  }

  /** A text that passes as an IBAN once blanks are gone had none to begin with. */
  lemma ShebaTextIsPlain(compact: string)
    requires forall i | 0 <= i < |compact| :: !IsSpace(compact[i]) && EnglishDigit(compact[i]) == compact[i]
    requires StartsWithIr(compact) || AllDigits(compact)
    ensures var iban := if StartsWithIr(compact) then UpperAll(compact) else "IR" + compact;
      EnglishDigits(iban) == iban && Compact(iban) == iban
  {
    var iban := if StartsWithIr(compact) then UpperAll(compact) else "IR" + compact;
    if StartsWithIr(compact) {
      forall i | 0 <= i < |iban| ensures EnglishDigit(iban[i]) == iban[i] && !IsSpace(iban[i]) && Upper(iban[i]) == iban[i] {
        assert iban[i] == Upper(compact[i]);
      }
    } else {
      forall i | 0 <= i < |iban| ensures EnglishDigit(iban[i]) == iban[i] && !IsSpace(iban[i]) {
        assert i >= 2 ==> iban[i] == compact[i - 2];
      }
    }
    WithoutNothing(iban, IsSpace);
    assert EnglishDigits(iban) == iban;
  }

  /** What is stored is a valid card number or a valid SHEBA with exactly the
      digits of the message, and parsing the stored text gives it back. */
  lemma ParseDestinationStable(raw: string)
    requires ParseDestination(raw).Some?
    ensures var d := ParseDestination(raw).value;
      && (if d.Card? then LuhnValid(d.plain) else IbanValid(d.plain))
      && DigitsOnly(d.plain) == DigitsOnly(raw)
      && ParseDestination(d.plain) == Some(d)
  {
    hide Without, EnglishDigits, EnglishDigit, LuhnPasses, IbanPasses, IranShape, UpperAll;
    var english := EnglishDigits(raw);
    var compact := Without(english, IsSpaceOrDash);
    var d := ParseDestination(raw).value;
    if d.Sheba? {
      WithoutGone(english, IsSpaceOrDash);
      WithoutTwice(english, IsSpaceOrDash, NotDigit);
      forall i | 0 <= i < |compact| ensures EnglishDigit(compact[i]) == compact[i] {
        EnglishOnce(raw, compact[i]);
      }
      ShebaStable(compact);
    } else {
      WithoutGone(english, NotDigit);
      CardStable(d.plain);
    }
  }

  lemma CardStable(digits: string)
    requires LuhnValid(digits)
    ensures DigitsOnly(digits) == digits && ParseDestination(digits) == Some(Card(digits))
  {
    PlainIsCompact(digits);
    WithoutNothing(digits, NotDigit);
  }

  lemma ShebaStable(compact: string)
    requires forall i | 0 <= i < |compact| :: !IsSpace(compact[i]) && EnglishDigit(compact[i]) == compact[i]
    requires StartsWithIr(compact) || AllDigits(compact)
    requires IbanValid(Compact(if StartsWithIr(compact) then UpperAll(compact) else "IR" + compact))
    ensures var iban := if StartsWithIr(compact) then UpperAll(compact) else "IR" + compact;
      && IbanValid(iban)
      && DigitsOnly(iban) == Without(compact, NotDigit)
      && ParseDestination(iban) == Some(Sheba(iban))
  {
    var iban := if StartsWithIr(compact) then UpperAll(compact) else "IR" + compact;
    ShebaTextIsPlain(compact);
    ValidIsPlain(iban);
    PlainIsCompact(iban);
    if StartsWithIr(compact) {
      UpperKeepsDigits(compact);
    } else {
      AfterCountry(compact);
    }
  }

  lemma AfterCountry(compact: string)
    ensures Without("IR" + compact, NotDigit) == Without(compact, NotDigit)
  {
    assert ("IR" + compact)[1..] == "R" + compact;
    assert ("R" + compact)[1..] == compact;
  }

  lemma EnglishOnce(raw: string, c: char)
    requires c in EnglishDigits(raw)
    ensures EnglishDigit(c) == c
  {
  }

  lemma ValidIsPlain(iban: string)
    requires IbanValid(iban)
    ensures Plain(iban) && StartsWithIr(iban)
  {
    assert iban[0] == iban[..2][0] && iban[1] == iban[..2][1];
    assert forall i | 2 <= i < 26 :: iban[i] == iban[2..][i - 2];
  }

  // ----- what is accepted -----

  /** The figures of `raw`, in any of the three scripts, are those of `d`, and besides them there are only blanks
      and dashes. */
  predicate Writes(raw: string, d: string)
    decreases |raw|
  {
    if raw == "" then d == ""
    else if IsSpace(raw[0]) || raw[0] == '-' then Writes(raw[1..], d)
    else d != "" && WritesDigit(raw[0], d[0]) && Writes(raw[1..], d[1..])
  }

  predicate WritesDigit(c: char, d: char) {
    IsDigit(d) && (c == d || c as int == 0x6F0 + (d as int - 48) || c as int == 0x660 + (d as int - 48))
  }

  lemma WrittenDigit(c: char, d: char)
    requires WritesDigit(c, d)
    ensures EnglishDigit(c) == d && !IsSpaceOrDash(d) && !NotDigit(d)
  {
  }

  lemma BlankStays(c: char)
    requires IsSpace(c) || c == '-'
    ensures EnglishDigit(c) == c && IsSpaceOrDash(c) && NotDigit(c)
  {
  }

  lemma {:induction false} WrittenDigits(raw: string, d: string)
    requires Writes(raw, d)
    ensures Without(EnglishDigits(raw), IsSpaceOrDash) == d && DigitsOnly(raw) == d && AllDigits(d)
    decreases |raw|
  {
    if raw != "" {
      hide EnglishDigit, IsSpaceOrDash, NotDigit;
      assert EnglishDigits(raw)[1..] == EnglishDigits(raw[1..]);
      if IsSpace(raw[0]) || raw[0] == '-' {
        BlankStays(raw[0]);
        WrittenDigits(raw[1..], d);
      } else {
        WrittenDigit(raw[0], d[0]);
        WrittenDigits(raw[1..], d[1..]);
        assert d == [d[0]] + d[1..];
      }
    }
  }

  lemma SixteenDigits(d: string)
    requires LuhnValid(d)
    ensures |d| == 16 && !StartsWithIr(d)
  {
  }

  /** The 24 digits of a valid SHEBA are accepted, alone or behind their country letters. */
  lemma ShebaIsAccepted(raw: string, d: string)
    requires Writes(raw, d) && |d| == 24 && IbanValid("IR" + d)
    ensures ParseDestination(raw) == Some(Sheba("IR" + d))
  {
    hide IbanPasses, Without, EnglishDigits, AllDigits, IranShape;
    WrittenDigits(raw, d);
    NoCountry(d);
    IbanIsCompact("IR" + d);
  }

  lemma NoCountry(d: string)
    requires AllDigits(d)
    ensures !StartsWithIr(d)
  {
  }

  lemma IbanIsCompact(iban: string)
    requires IbanValid(iban)
    ensures Compact(iban) == iban
  {
    ValidIsPlain(iban);
    PlainIsCompact(iban);
  }

  /** With the letters, in small or capital letters, and blanks or dashes anywhere. */
  predicate WritesIban(raw: string, d: string)
    decreases |raw|
  {
    raw != "" &&
    if IsSpace(raw[0]) || raw[0] == '-' then WritesIban(raw[1..], d)
    else (raw[0] == 'I' || raw[0] == 'i') && WritesTail(raw[1..], d)
  }

  predicate WritesTail(raw: string, d: string)
    decreases |raw|
  {
    raw != "" &&
    if IsSpace(raw[0]) || raw[0] == '-' then WritesTail(raw[1..], d)
    else (raw[0] == 'R' || raw[0] == 'r') && Writes(raw[1..], d)
  }

  lemma LetterStays(c: char)
    requires c == 'I' || c == 'i' || c == 'R' || c == 'r'
    ensures EnglishDigit(c) == c && !IsSpaceOrDash(c)
  {
  }

  lemma {:induction false} WrittenTail(raw: string, d: string) returns (r: char)
    requires WritesTail(raw, d)
    ensures (r == 'R' || r == 'r') && AllDigits(d) && Without(EnglishDigits(raw), IsSpaceOrDash) == [r] + d
    decreases |raw|
  {
    hide EnglishDigit, IsSpaceOrDash;
    assert EnglishDigits(raw)[1..] == EnglishDigits(raw[1..]);
    if IsSpace(raw[0]) || raw[0] == '-' {
      BlankStays(raw[0]);
      r := WrittenTail(raw[1..], d);
    } else {
      LetterStays(raw[0]);
      WrittenDigits(raw[1..], d);
      r := raw[0];
    }
  }

  lemma {:induction false} WrittenIban(raw: string, d: string) returns (i: char, r: char)
    requires WritesIban(raw, d)
    ensures (i == 'I' || i == 'i') && (r == 'R' || r == 'r') && AllDigits(d)
    ensures Without(EnglishDigits(raw), IsSpaceOrDash) == [i, r] + d
    decreases |raw|
  {
    hide EnglishDigit, IsSpaceOrDash;
    assert EnglishDigits(raw)[1..] == EnglishDigits(raw[1..]);
    if IsSpace(raw[0]) || raw[0] == '-' {
      BlankStays(raw[0]);
      i, r := WrittenIban(raw[1..], d);
    } else {
      LetterStays(raw[0]);
      r := WrittenTail(raw[1..], d);
      i := raw[0];
      assert [i] + ([r] + d) == [i, r] + d;
    }
  }

  lemma CountryUp(i: char, r: char, d: string)
    requires (i == 'I' || i == 'i') && (r == 'R' || r == 'r') && AllDigits(d)
    ensures UpperAll([i, r] + d) == "IR" + d && StartsWithIr([i, r] + d)
  {
    assert forall k | 0 <= k < |d| :: Upper(d[k]) == d[k];
  }

  lemma LetteredShebaIsAccepted(raw: string, d: string)
    requires WritesIban(raw, d) && IbanValid("IR" + d)
    ensures ParseDestination(raw) == Some(Sheba("IR" + d))
  {
    hide IbanPasses, Without, EnglishDigits, AllDigits, IranShape, UpperAll;
    var i, r := WrittenIban(raw, d);
    CountryUp(i, r, d);
    IbanIsCompact("IR" + d);
  }

  // ----- exactly what is accepted -----

  /** The figures of `raw` are those of `d`, with anything between them. */
  predicate Shows(raw: string, d: string)
    decreases |raw|
  {
    if raw == "" then d == ""
    else if exists k: nat | k < 10 :: WritesDigit(raw[0], DigitChar(k)) then
      d != "" && WritesDigit(raw[0], d[0]) && Shows(raw[1..], d[1..])
    else Shows(raw[1..], d)
  }

  /** But for blanks and dashes, `raw` begins with the country letters. */
  predicate Lettered(raw: string)
    decreases |raw|
  {
    raw != "" &&
    if IsSpace(raw[0]) || raw[0] == '-' then Lettered(raw[1..])
    else (raw[0] == 'I' || raw[0] == 'i') && LetteredTail(raw[1..])
  }

  predicate LetteredTail(raw: string)
    decreases |raw|
  {
    raw != "" && if IsSpace(raw[0]) || raw[0] == '-' then LetteredTail(raw[1..]) else raw[0] == 'R' || raw[0] == 'r'
  }

  lemma WithoutFirst(raw: string, drop: char -> bool)
    requires raw != ""
    ensures var rest := Without(EnglishDigits(raw[1..]), drop);
      Without(EnglishDigits(raw), drop) == if drop(EnglishDigit(raw[0])) then rest else [EnglishDigit(raw[0])] + rest
  {
    hide EnglishDigit;
    assert EnglishDigits(raw)[1..] == EnglishDigits(raw[1..]);
  }

  lemma FigureIs(c: char)
    ensures IsDigit(EnglishDigit(c)) <==> exists k: nat | k < 10 :: WritesDigit(c, DigitChar(k))
    ensures forall d | WritesDigit(c, d) :: EnglishDigit(c) == d
    ensures IsDigit(EnglishDigit(c)) ==> WritesDigit(c, EnglishDigit(c))
    ensures IsSpaceOrDash(EnglishDigit(c)) <==> IsSpace(c) || c == '-'
  {
    if IsDigit(EnglishDigit(c)) {
      var k: nat := EnglishDigit(c) as int - 48;
      assert k < 10 && WritesDigit(c, DigitChar(k));
    }
  }

  lemma {:induction false} ShowsIs(raw: string, d: string)
    ensures Shows(raw, d) <==> DigitsOnly(raw) == d
    decreases |raw|
  {
    if raw != "" {
      hide Without, EnglishDigit, WritesDigit;
      WithoutFirst(raw, NotDigit);
      FigureIs(raw[0]);
      if IsDigit(EnglishDigit(raw[0])) {
        if d != "" {
          ShowsIs(raw[1..], d[1..]);
          assert d == [d[0]] + d[1..];
        }
      } else {
        ShowsIs(raw[1..], d);
      }
    }
  }

  lemma {:induction false} WritesIs(raw: string, d: string)
    ensures Writes(raw, d) <==> AllDigits(d) && Without(EnglishDigits(raw), IsSpaceOrDash) == d
    decreases |raw|
  {
    if Writes(raw, d) {
      WrittenDigits(raw, d);
    } else if raw != "" {
      hide Without, EnglishDigit, WritesDigit;
      WithoutFirst(raw, IsSpaceOrDash);
      FigureIs(raw[0]);
      if IsSpace(raw[0]) || raw[0] == '-' {
        WritesIs(raw[1..], d);
      } else if d != "" {
        WritesIs(raw[1..], d[1..]);
        assert d == [d[0]] + d[1..];
      }
    }
  }

  lemma {:induction false} LetteredTailIs(raw: string)
    ensures var compact := Without(EnglishDigits(raw), IsSpaceOrDash);
      LetteredTail(raw) <==> compact != "" && compact[0] in {'R', 'r'}
    decreases |raw|
  {
    if raw != "" {
      hide Without;
      WithoutFirst(raw, IsSpaceOrDash);
      FigureIs(raw[0]);
      if IsSpace(raw[0]) || raw[0] == '-' { LetteredTailIs(raw[1..]); }
    }
  }

  lemma {:induction false} LetteredIs(raw: string)
    ensures Lettered(raw) <==> StartsWithIr(Without(EnglishDigits(raw), IsSpaceOrDash))
    decreases |raw|
  {
    if raw != "" {
      hide Without;
      WithoutFirst(raw, IsSpaceOrDash);
      FigureIs(raw[0]);
      if IsSpace(raw[0]) || raw[0] == '-' { LetteredIs(raw[1..]); } else { LetteredTailIs(raw[1..]); }
    }
  }

  lemma {:induction false} WritesTailIs(raw: string, d: string)
    requires LetteredTail(raw)
    ensures var compact := Without(EnglishDigits(raw), IsSpaceOrDash);
      compact != "" && (WritesTail(raw, d) <==> AllDigits(d) && compact[1..] == d)
    decreases |raw|
  {
    hide Without, AllDigits;
    WithoutFirst(raw, IsSpaceOrDash);
    FigureIs(raw[0]);
    if IsSpace(raw[0]) || raw[0] == '-' { WritesTailIs(raw[1..], d); } else { WritesIs(raw[1..], d); }
  }

  lemma {:induction false} WritesIbanIs(raw: string, d: string)
    requires Lettered(raw)
    ensures var compact := Without(EnglishDigits(raw), IsSpaceOrDash);
      |compact| >= 2 && (WritesIban(raw, d) <==> AllDigits(d) && compact[2..] == d)
    decreases |raw|
  {
    hide Without, AllDigits;
    WithoutFirst(raw, IsSpaceOrDash);
    FigureIs(raw[0]);
    if IsSpace(raw[0]) || raw[0] == '-' {
      WritesIbanIs(raw[1..], d);
    } else {
      LetteredTailIs(raw[1..]);
      WritesTailIs(raw[1..], d);
      var rest := Without(EnglishDigits(raw[1..]), IsSpaceOrDash);
      assert ([EnglishDigit(raw[0])] + rest)[2..] == rest[1..];
    }
  }

  lemma OnlyDigits(raw: string)
    requires AllDigits(Without(EnglishDigits(raw), IsSpaceOrDash))
    ensures DigitsOnly(raw) == Without(EnglishDigits(raw), IsSpaceOrDash)
  {
    WithoutTwice(EnglishDigits(raw), IsSpaceOrDash, NotDigit);
    WithoutNothing(Without(EnglishDigits(raw), IsSpaceOrDash), NotDigit);
  }

  /** A message is taken as a card number if and only if its figures, whatever is between them, are a valid one, and it
      does not begin with the country letters. */
  lemma CardExactly(raw: string, d: string)
    ensures ParseDestination(raw) == Some(Card(d)) <==> Shows(raw, d) && LuhnValid(d) && !Lettered(raw)
  {
    hide Without, EnglishDigits, LuhnValid, IbanValid, Shows, Lettered, StartsWithIr;
    ShowsIs(raw, d);
    LetteredIs(raw);
    if AllDigits(Without(EnglishDigits(raw), IsSpaceOrDash)) { OnlyDigits(raw); }
    if LuhnValid(d) { SixteenDigits(d); }
  }

  /** It is taken as a SHEBA if and only if it writes the 24 figures of a valid one, with or without its letters, with
      nothing but blanks and dashes between them. */
  lemma ShebaExactly(raw: string, d: string)
    ensures ParseDestination(raw) == Some(Sheba("IR" + d)) <==>
      IbanValid("IR" + d) && (WritesIban(raw, d) || Writes(raw, d))
  {
    if IbanValid("IR" + d) && WritesIban(raw, d) {
      LetteredShebaIsAccepted(raw, d);
    } else if IbanValid("IR" + d) && Writes(raw, d) {
      ShebaHas24(d);
      ShebaIsAccepted(raw, d);
    } else if ParseDestination(raw) == Some(Sheba("IR" + d)) {
      ShebaWasWritten(raw, d);
    }
  }

  lemma ShebaHas24(d: string)
    requires IbanValid("IR" + d)
    ensures |d| == 24 && AllDigits(d)
  {
    assert ("IR" + d)[2..] == d;
  }

  lemma ShebaWasWritten(raw: string, d: string)
    requires ParseDestination(raw) == Some(Sheba("IR" + d))
    ensures IbanValid("IR" + d) && (WritesIban(raw, d) || Writes(raw, d))
  {
    hide Without, EnglishDigits, IbanPasses, UpperAll, StartsWithIr, WritesIban, Writes, Lettered;
    ParseDestinationStable(raw);
    ShebaHas24(d);
    LetteredIs(raw);
    var compact := Without(EnglishDigits(raw), IsSpaceOrDash);
    if Lettered(raw) {
      WritesIbanIs(raw, d);
      SameTail(compact, d);
    } else {
      WritesIs(raw, d);
      assert ("IR" + compact)[2..] == compact && ("IR" + d)[2..] == d;
    }
  }

  lemma SameTail(compact: string, d: string)
    requires |compact| >= 2 && UpperAll(compact) == "IR" + d && AllDigits(d)
    ensures compact[2..] == d
  {
    forall i | 0 <= i < |d| ensures compact[2 + i] == d[i] {
      assert UpperAll(compact)[2 + i] == d[i];
    }
    assert |UpperAll(compact)| == 2 + |d|;
  }
}
