/** The JavaScript text and number primitives the modelled files lean on:
    white space, ASCII digits, trim, join, decimal printing and rounding.
    A string is a sequence of Unicode scalar values. */
module JsText {

  datatype Option<+T> = None | Some(value: T)

  /** The characters matched by `\s` and removed by `trim`. */
  predicate IsSpace(c: char) {
    || '\t' <= c <= '\r'
    || c == ' '
    || c in {'\U{A0}', '\U{1680}', '\U{2028}', '\U{2029}', '\U{202F}', '\U{205F}', '\U{3000}', '\U{FEFF}'}
    || '\U{2000}' <= c <= '\U{200A}'
  }

  predicate IsDigit(c: char) { '0' <= c <= '9' }

  predicate AllDigits(s: string) { forall i | 0 <= i < |s| :: IsDigit(s[i]) }

  /** A decimal figure as a number. */
  type Digit = d: int | 0 <= d < 10

  function DigitValue(c: char): Digit
    requires IsDigit(c)
  {
    c as int - '0' as int
  }

  function DigitChar(d: Digit): (c: char)
    ensures IsDigit(c) && DigitValue(c) == d
  {
    (d + '0' as int) as char
  }

  function Digits(s: string): (ds: seq<Digit>)
    requires AllDigits(s)
    ensures |ds| == |s|
  {
    seq(|s|, i requires 0 <= i < |s| => DigitValue(s[i]))
  }

  /** The number a run of digits writes in base ten. */
  function Number(ds: seq<Digit>): nat {
    if ds == [] then 0 else 10 * Number(ds[..|ds| - 1]) + ds[|ds| - 1]
  }

  /** The decimal figures of a number, as `String(n)` writes them. */
  function Figures(n: nat): (ds: seq<Digit>)
    ensures ds != [] && Number(ds) == n
  {
    if n < 10 then
      assert [n][..0] == [];
      [n]
    else
      var ds := Figures(n / 10) + [n % 10];
      assert ds[..|ds| - 1] == Figures(n / 10);
      ds
  }

  function Written(ds: seq<Digit>): (s: string)
    ensures |s| == |ds| && AllDigits(s) && Digits(s) == ds
  {
    seq(|ds|, i requires 0 <= i < |ds| => DigitChar(ds[i]))
  }

  function NatText(n: nat): (s: string)
    ensures s != "" && AllDigits(s) && Number(Digits(s)) == n
  {
    Written(Figures(n))
  }

  /** No zero comes first, but for zero itself: with the contract of `NatText`, the one decimal text of `n`. */
  lemma {:induction false} NatTextIsPlain(n: nat)
    ensures NatText(n)[0] == '0' <==> n == 0
    ensures n == 0 ==> NatText(n) == "0"
  {
    if n >= 10 {
      NatTextIsPlain(n / 10);
      assert Figures(n)[0] == Figures(n / 10)[0];
    }
  }

  function Pow10(k: nat): (p: nat)
    ensures p > 0
  {
    if k == 0 then 1 else 10 * Pow10(k - 1)
  }

  /** How many digits a text opens with. */
  function DigitRun(s: string): (n: nat)
    ensures n <= |s| && AllDigits(s[..n]) && (n < |s| ==> !IsDigit(s[n]))
  {
    if s == "" || !IsDigit(s[0]) then 0 else 1 + DigitRun(s[1..])
  }

  lemma {:induction false} DigitRunAll(s: string, rest: string)
    requires AllDigits(s) && (rest == "" || !IsDigit(rest[0]))
    ensures DigitRun(s + rest) == |s|
  {
    if s == "" {
      assert s + rest == rest;
    } else {
      DigitRunAll(s[1..], rest);
      assert (s + rest)[1..] == s[1..] + rest;
    }
  }

  /** The number that digits before and after a dot write. */
  function Decimal(whole: string, fraction: string): real
    requires AllDigits(whole) && AllDigits(fraction)
  {
    Number(Digits(whole)) as real + Number(Digits(fraction)) as real / Pow10(|fraction|) as real
  }

  /** `padStart(width, '0')`. */
  function PadStart(s: string, width: nat): (r: string)
    ensures |r| == Max(|s|, width)
    ensures s <= r || |r| == width
    ensures AllDigits(s) ==> AllDigits(r)
    decreases width - |s|
  {
    if |s| < width then PadStart("0" + s, width) else s
  }

  /** Persian and Arabic-Indic digits become ASCII digits; all else stays. */
  function EnglishDigit(c: char): char {
    if '\U{06F0}' <= c <= '\U{06F9}' then (c as int - 0x06F0 + '0' as int) as char
    else if '\U{0660}' <= c <= '\U{0669}' then (c as int - 0x0660 + '0' as int) as char
    else c
  }

  function EnglishDigits(s: string): (r: string)
    ensures |r| == |s|
  {
    seq(|s|, i requires 0 <= i < |s| => EnglishDigit(s[i]))
  }

  // ----- splitting and joining -----

  predicate At(s: string, sep: string, i: nat) {
    i + |sep| <= |s| && s[i..i + |sep|] == sep
  }

  /** The leftmost occurrence of `sep` that starts at `from` or later. */
  function Find(s: string, sep: string, from: nat := 0): (r: Option<nat>)
    ensures r.Some? ==> from <= r.value && r.value + |sep| <= |s|
    decreases |s| - from
  {
    if from + |sep| > |s| then None
    else if At(s, sep, from) then Some(from)
    else Find(s, sep, from + 1)
  }

  /** `s.split(sep)` for a non-empty separator. */
  function Split(s: string, sep: string): (parts: seq<string>)
    requires sep != ""
    ensures parts != []
    decreases |s|
  {
    match Find(s, sep)
    case None => [s]
    case Some(i) => [s[..i]] + Split(s[i + |sep|..], sep)
  }

  function Join(parts: seq<string>, sep: string): string {
    if parts == [] then ""
    else if |parts| == 1 then parts[0]
    else parts[0] + sep + Join(parts[1..], sep)
  }

  /** Pieces that a left-to-right split can have produced: each separator is the
      first one that can be seen from the start of the piece before it. */
  ghost predicate Cut(parts: seq<string>, sep: string) {
    && parts != []
    && if |parts| == 1 then Find(parts[0], sep) == None
       else Find(parts[0] + sep, sep) == Some(|parts[0]|) && Cut(parts[1..], sep)
  }

  lemma {:induction false} FindMeans(s: string, sep: string, from: nat := 0)
    ensures Find(s, sep, from).Some? ==>
      At(s, sep, Find(s, sep, from).value) && forall j | from <= j < Find(s, sep, from).value :: !At(s, sep, j)
    ensures Find(s, sep, from).None? ==> forall j | from <= j :: !At(s, sep, j)
    decreases |s| - from
  {
    if from + |sep| <= |s| && !At(s, sep, from) { FindMeans(s, sep, from + 1); }
  }

  lemma {:induction false} FindIs(s: string, sep: string, i: nat, from: nat := 0)
    requires from <= i && At(s, sep, i) && forall j | from <= j < i :: !At(s, sep, j)
    ensures Find(s, sep, from) == Some(i)
    decreases i - from
  {
    if from < i { FindIs(s, sep, i, from + 1); }
  }

  /** More text on the right does not change what was found. */
  lemma FindPrefix(a: string, b: string, sep: string)
    requires Find(a, sep).Some?
    ensures Find(a + b, sep) == Find(a, sep)
  {
    var i := Find(a, sep).value;
    FindMeans(a, sep);
    forall j | 0 <= j <= i ensures At(a + b, sep, j) == At(a, sep, j) {
      assert j + |sep| <= |a|;
      assert (a + b)[j..j + |sep|] == a[j..j + |sep|];
    }
    FindIs(a + b, sep, i);
  }

  lemma SplitAt(s: string, sep: string, i: nat)
    requires sep != "" && Find(s, sep) == Some(i)
    ensures Split(s, sep) == [s[..i]] + Split(s[i + |sep|..], sep)
  {
  }

  lemma FoundAt(s: string, sep: string, i: nat)
    requires Find(s, sep) == Some(i)
    ensures s == s[..i] + sep + s[i + |sep|..]
  {
    hide Find;
    FindMeans(s, sep);
    ThreeParts(s, i, i + |sep|);
  }

  lemma ThreeParts(s: string, i: nat, j: nat)
    requires i <= j <= |s|
    ensures s == s[..i] + s[i..j] + s[j..]
  {
  }

  function Closed(s: string, sep: string): seq<string>
    requires sep != ""
  {
    Split(s, sep)[..|Split(s, sep)| - 1]
  }

  function Open(s: string, sep: string): string
    requires sep != ""
  {
    Split(s, sep)[|Split(s, sep)| - 1]
  }

  /** Splitting a text that arrives in two halves: all pieces of the first half
      but the last are final, the last one is continued by the second half. */
  lemma {:induction false} SplitConcat(a: string, b: string, sep: string)
    requires sep != ""
    ensures Split(a + b, sep) == Closed(a, sep) + Split(Open(a, sep) + b, sep)
    decreases |a|
  {
    match Find(a, sep)
    case None =>
      assert Closed(a, sep) == [] && Open(a, sep) == a;
    case Some(i) =>
      var rest := a[i + |sep|..];
      SplitConcat(rest, b, sep);
      SplitStep(a, sep, i);
      SplitLonger(a, b, sep, i);
      Associative([a[..i]], Closed(rest, sep), Split(Open(rest, sep) + b, sep));
  }

  lemma Associative<T>(x: seq<T>, y: seq<T>, z: seq<T>)
    ensures x + (y + z) == (x + y) + z
  {
  }

  lemma SplitLonger(a: string, b: string, sep: string, i: nat)
    requires sep != "" && Find(a, sep) == Some(i)
    ensures Split(a + b, sep) == [a[..i]] + Split(a[i + |sep|..] + b, sep)
  {
    FindPrefix(a, b, sep);
    SplitAt(a + b, sep, i);
    assert (a + b)[..i] == a[..i];
    assert (a + b)[i + |sep|..] == a[i + |sep|..] + b;
  }

  lemma SplitStep(a: string, sep: string, i: nat)
    requires sep != "" && Find(a, sep) == Some(i)
    ensures Open(a, sep) == Open(a[i + |sep|..], sep)
    ensures Closed(a, sep) == [a[..i]] + Closed(a[i + |sep|..], sep)
  {
    SplitAt(a, sep, i);
  }

  /** A split loses nothing and is a cut of its text. */
  lemma {:induction false} SplitJoin(s: string, sep: string)
    requires sep != ""
    ensures Cut(Split(s, sep), sep) && Join(Split(s, sep), sep) == s
    decreases |s|
  {
    match Find(s, sep)
    case None =>
    case Some(i) =>
      SplitAt(s, sep, i);
      FoundAt(s, sep, i);
      SplitJoin(s[i + |sep|..], sep);
      FindTruncated(s, sep, i);
      assert Split(s, sep)[1..] == Split(s[i + |sep|..], sep);
  }

  lemma SlicePrefix(s: string, n: nat, i: nat, j: nat)
    requires i <= j <= n <= |s|
    ensures s[..n][i..j] == s[i..j]
  {
  }

  lemma FindTruncated(s: string, sep: string, i: nat)
    requires Find(s, sep) == Some(i)
    ensures Find(s[..i] + sep, sep) == Some(i)
  {
    var t := s[..i] + sep;
    FindMeans(s, sep);
    FoundAt(s, sep, i);
    assert t == s[..i + |sep|];
    forall j | 0 <= j <= i ensures At(t, sep, j) == At(s, sep, j) {
      SlicePrefix(s, i + |sep|, j, j + |sep|);
    }
    FindIs(t, sep, i);
  }

  /** A text has no other cut than its split. */
  lemma {:induction false} JoinSplit(parts: seq<string>, sep: string)
    requires sep != "" && Cut(parts, sep)
    ensures Split(Join(parts, sep), sep) == parts
    decreases |parts|
  {
    if |parts| > 1 {
      var rest := Join(parts[1..], sep);
      var first := parts[0] + sep;
      JoinSplit(parts[1..], sep);
      FindPrefix(first, rest, sep);
      SplitAt(first + rest, sep, |parts[0]|);
      assert (first + rest)[|parts[0]| + |sep|..] == rest;
      assert (first + rest)[..|parts[0]|] == parts[0];
    }
  }

  predicate Lacks(s: string, c: char) { forall i | 0 <= i < |s| :: s[i] != c }

  /** A text without the first character of a separator cannot hide that separator. */
  lemma LacksFind(s: string, sep: string)
    requires sep != "" && Lacks(s, sep[0])
    ensures Find(s, sep) == None
    ensures Find(s + sep, sep) == Some(|s|)
  {
    forall i | 0 <= i < |s| ensures !At(s, sep, i) && !At(s + sep, sep, i) {
      if i + |sep| <= |s| { assert s[i..i + |sep|][0] == s[i]; }
      assert (s + sep)[i..i + |sep|][0] == s[i];
    }
    FindMeans(s, sep);
    FindIs(s + sep, sep, |s|);
  }

  ghost predicate AllLack(xs: seq<string>, c: char) { forall i | 0 <= i < |xs| :: Lacks(xs[i], c) }

  lemma {:induction false} LackingCut(parts: seq<string>, sep: string)
    requires parts != [] && sep != "" && AllLack(parts, sep[0])
    ensures Cut(parts, sep)
  {
    LacksFind(parts[0], sep);
    if |parts| > 1 { LackingCut(parts[1..], sep); }
  }

  lemma {:induction false} JoinConcat(xs: seq<string>, ys: seq<string>, sep: string)
    requires xs != [] && ys != []
    ensures Join(xs + ys, sep) == Join(xs, sep) + sep + Join(ys, sep)
  {
    var x, rest := xs[0], xs[1..];
    assert xs + ys == [x] + (rest + ys);
    JoinMore(x, rest + ys, sep);
    if rest != [] {
      JoinConcat(rest, ys, sep);
      JoinMore(x, rest, sep);
      assert xs == [x] + rest;
    } else {
      assert rest + ys == ys;
    }
  }

  lemma JoinMore(x: string, rest: seq<string>, sep: string)
    requires rest != []
    ensures Join([x] + rest, sep) == x + sep + Join(rest, sep)
  {
    assert ([x] + rest)[1..] == rest;
  }

  lemma {:induction false} JoinLacks(parts: seq<string>, sep: string, c: char)
    requires Lacks(sep, c) && forall i | 0 <= i < |parts| :: Lacks(parts[i], c)
    ensures Lacks(Join(parts, sep), c)
  {
    if |parts| > 1 { JoinLacks(parts[1..], sep, c); }
  }

  function TrimStart(s: string): string {
    if s != "" && IsSpace(s[0]) then TrimStart(s[1..]) else s
  }

  function TrimEnd(s: string): string {
    if s != "" && IsSpace(s[|s| - 1]) then TrimEnd(s[..|s| - 1]) else s
  }

  function Trim(s: string): string { TrimEnd(TrimStart(s)) }

  predicate AllSpaces(s: string) { forall i | 0 <= i < |s| :: IsSpace(s[i]) }

  /** A text that neither begins nor ends with white space. */
  predicate Tight(s: string) { s != "" && !IsSpace(s[0]) && !IsSpace(s[|s| - 1]) }

  lemma {:induction false} TrimStartGoes(a: string, s: string)
    requires AllSpaces(a) && (s == "" || !IsSpace(s[0]))
    ensures TrimStart(a + s) == s
  {
    if a == "" {
      assert a + s == s;
    } else {
      assert (a + s)[1..] == a[1..] + s;
      TrimStartGoes(a[1..], s);
    }
  }

  lemma {:induction false} TrimEndGoes(s: string, b: string)
    requires AllSpaces(b) && (s == "" || !IsSpace(s[|s| - 1]))
    ensures TrimEnd(s + b) == s
  {
    if b == "" {
      assert s + b == s;
    } else {
      assert (s + b)[..|s + b| - 1] == s + b[..|b| - 1];
      TrimEndGoes(s, b[..|b| - 1]);
    }
  }

  /** Trimming takes the white space around a text and nothing else. */
  lemma TrimGoes(a: string, s: string, b: string)
    requires AllSpaces(a) && AllSpaces(b) && Tight(s)
    ensures Trim(a + s + b) == s
  {
    hide TrimStart, TrimEnd;
    assert a + s + b == a + (s + b) && (s + b)[0] == s[0];
    TrimStartGoes(a, s + b);
    TrimEndGoes(s, b);
  }

  /** `Math.round`: to the nearest whole number, halves upward. */
  function Round(x: real): int { (x + 0.5).Floor }

  function Max(a: int, b: int): int { if a < b then b else a }

  function Min(a: int, b: int): int { if a < b then a else b }
}
