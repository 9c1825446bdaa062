/** `canonicalJson` of memo-cache.ts: one text per JSON value, whatever the order
    in which the properties of its objects were added. */
module CanonicalJson {
  import opened JsText

  /** A number is given by the text JSON prints for it; the properties of an
      object are listed in the order in which they were added. */
  datatype Json = Null | Bool(b: bool) | Num(text: string) | Str(s: string) | Arr(items: Items) | Obj(fields: Fields)
  datatype Items = NoItems | Item(head: Json, tail: Items)
  datatype Fields = NoFields | Field(name: string, value: Json, rest: Fields)

  // ----- sizes, for recursion through sorted fields -----

  function Size(v: Json): nat {
    match v
    case Arr(items) => 1 + ItemsSize(items)
    case Obj(fields) => 1 + FieldsSize(fields)
    case _ => 0
  }

  function ItemsSize(xs: Items): nat {
    match xs
    case NoItems => 0
    case Item(h, t) => 1 + Size(h) + ItemsSize(t)
  }

  function FieldsSize(fs: Fields): nat {
    match fs
    case NoFields => 0
    case Field(_, v, rest) => 1 + Size(v) + FieldsSize(rest)
  }

  // ----- the order of `sort()`: by UTF-16 code unit -----

  /** Orders characters as their first differing code units: a character outside
      the basic plane starts with a surrogate, which lies below U+E000. */
  function Rank(c: char): int {
    var n := c as int;
    if n < 0xD800 then n else if n >= 0x10000 then n - 0x10000 + 0xD800 else n + 0x100000
  }

  predicate Before(a: string, b: string) {
    b != "" && (a == "" || Rank(a[0]) < Rank(b[0]) || (a[0] == b[0] && Before(a[1..], b[1..])))
  }

  /** The UTF-16 units of a character and of a text. */
  function Units(c: char): seq<int> {
    var n := c as int;
    if n < 0x1_0000 then [n] else [0xD800 + (n - 0x1_0000) / 0x400, 0xDC00 + (n - 0x1_0000) % 0x400]
  }

  function UnitsOf(s: string): seq<int> {
    if s == "" then [] else Units(s[0]) + UnitsOf(s[1..])
  }

  predicate UnitsBefore(xs: seq<int>, ys: seq<int>) {
    ys != [] && (xs == [] || xs[0] < ys[0] || (xs[0] == ys[0] && UnitsBefore(xs[1..], ys[1..])))
  }

  lemma RankIsUnits(c: char, d: char)
    ensures c != d ==> Units(c)[0] != Units(d)[0] || (|Units(c)| == |Units(d)| == 2 && Units(c)[1] != Units(d)[1])
    ensures Rank(c) < Rank(d) <==>
      Units(c)[0] < Units(d)[0] || (|Units(c)| == |Units(d)| == 2 && Units(c)[0] == Units(d)[0] && Units(c)[1] < Units(d)[1])
  {
  }

  lemma UnitsFirst(c: char, s: seq<int>)
    ensures Units(c) + s != [] && (Units(c) + s)[0] == Units(c)[0]
    ensures |Units(c)| == 1 ==> (Units(c) + s)[1..] == s
    ensures |Units(c)| == 2 ==> (Units(c) + s)[1..] == [Units(c)[1]] + s && ([Units(c)[1]] + s)[1..] == s
  {
  }

  lemma FirstUnitsDecide(c: char, d: char, s: seq<int>, t: seq<int>)
    ensures UnitsBefore(Units(c) + s, Units(d) + t) <==> Rank(c) < Rank(d) || (c == d && UnitsBefore(s, t))
  {
    hide Units, Rank;
    RankIsUnits(c, d);
    RankIsUnits(d, c);
    UnitsFirst(c, s);
    UnitsFirst(d, t);
    OneOrTwo(c);
    OneOrTwo(d);
  }

  lemma OneOrTwo(c: char)
    ensures |Units(c)| == 1 || |Units(c)| == 2
  {
  }

  /** Names are sorted as `sort()` does it: by the numbers of their UTF-16 units. */
  lemma {:induction false} BeforeIsUtf16(a: string, b: string)
    ensures Before(a, b) <==> UnitsBefore(UnitsOf(a), UnitsOf(b))
  {
    hide Units, Rank;
    if a != "" { UnitsFirst(a[0], UnitsOf(a[1..])); }
    if b != "" { UnitsFirst(b[0], UnitsOf(b[1..])); }
    if a != "" && b != "" {
      BeforeIsUtf16(a[1..], b[1..]);
      FirstUnitsDecide(a[0], b[0], UnitsOf(a[1..]), UnitsOf(b[1..]));
    }
  }

  function Insert(name: string, v: Json, fs: Fields): (r: Fields)
    ensures FieldsSize(r) == 1 + Size(v) + FieldsSize(fs)
  {
    match fs
    case NoFields => Field(name, v, NoFields)
    case Field(n, w, rest) =>
      if Before(n, name) then Field(n, w, Insert(name, v, rest)) else Field(name, v, fs)
  }

  function SortFields(fs: Fields): (r: Fields)
    ensures FieldsSize(r) == FieldsSize(fs)
  {
    match fs
    case NoFields => NoFields
    case Field(n, v, rest) => Insert(n, v, SortFields(rest))
  }

  // ----- printing -----

  function Hex(n: int): char
    requires 0 <= n < 16
  {
    if n < 10 then (n + '0' as int) as char else (n - 10 + 'a' as int) as char
  }

  /** One character of a JSON string. */
  function Escaped(c: char): string {
    if c == '"' then "\\\""
    else if c == '\\' then "\\\\"
    else if c as int == 8 then "\\b"
    else if c as int == 12 then "\\f"
    else if c == '\n' then "\\n"
    else if c == '\r' then "\\r"
    else if c == '\t' then "\\t"
    else if c as int < 0x20 then "\\u00" + [Hex(c as int / 16), Hex(c as int % 16)]
    else [c]
  }

  /** The escapes of JSON: seven short ones, numbers for the other control characters, and nothing else. */
  lemma EscapesAre(c: char)
    ensures Quoted([c]) == Escaped(c) + "\""
    ensures c in "\"\\" ==> Escaped(c) == ['\\', c]
    ensures c in "\U{8}\t\n\U{C}\r" ==>
      Escaped(c) == ['\\', if c == '\U{8}' then 'b' else if c == '\t' then 't' else if c == '\n' then 'n' else if c == '\U{C}' then 'f' else 'r']
    ensures c < ' ' && c !in "\U{8}\t\n\U{C}\r" ==> Escaped(c) == ['\\', 'u', '0', '0', Hex(c as int / 16), Hex(c as int % 16)]
    ensures c >= ' ' && c !in "\"\\" ==> Escaped(c) == [c]
  {
    assert [c][1..] == "";
    assert Quoted("") == "\"";
  }

  /** A string literal without its opening quote. */
  function Quoted(s: string): string {
    if s == "" then "\"" else Escaped(s[0]) + Quoted(s[1..])
  }

  function JsonString(s: string): string { "\"" + Quoted(s) }

  /** The text of a value; arrays keep their order, properties are sorted by name. */
  function Canonical(v: Json): string
    decreases Size(v), 0
  {
    match v
    case Null => "null"
    case Bool(b) => if b then "true" else "false"
    case Num(t) => t
    case Str(s) => JsonString(s)
    case Arr(items) => "[" + ItemsText(items, true)
    case Obj(fields) => "{" + FieldsText(SortFields(fields), true)
  }

  /** `join(',')` and the closing bracket; a comma goes before all but the first. */
  function ItemsText(xs: Items, first: bool): string
    decreases ItemsSize(xs), 1
  {
    match xs
    case NoItems => "]"
    case Item(h, t) => (if first then "" else ",") + (Canonical(h) + ItemsText(t, false))
  }

  function FieldsText(fs: Fields, first: bool): string
    decreases FieldsSize(fs), 1
  {
    match fs
    case NoFields => "}"
    case Field(n, v, rest) =>
      (if first then "" else ",") + (JsonString(n) + (":" + (Canonical(v) + FieldsText(rest, false))))
  }

  // ----- JSON values and their equality -----

  predicate NumberChar(c: char) { IsDigit(c) || c in "+-.e" }

  /** Number texts, and objects without a repeated name. */
  predicate Proper(v: Json) {
    match v
    case Num(t) => t != "" && (IsDigit(t[0]) || t[0] == '-') && forall i | 0 <= i < |t| :: NumberChar(t[i])
    case Arr(items) => ProperItems(items)
    case Obj(fields) => ProperFields(fields)
    case _ => true
  }

  predicate ProperItems(xs: Items) { xs.Item? ==> Proper(xs.head) && ProperItems(xs.tail) }

  predicate ProperFields(fs: Fields) {
    fs.Field? ==> Proper(fs.value) && !Has(fs.rest, fs.name) && ProperFields(fs.rest)
  }

  predicate Has(fs: Fields, name: string) { fs.Field? && (fs.name == name || Has(fs.rest, name)) }

  function Get(fs: Fields, name: string): (v: Json)
    requires Has(fs, name)
    ensures Size(v) < FieldsSize(fs)
  {
    if fs.name == name then fs.value else Get(fs.rest, name)
  }

  /** Equal up to the order of properties, at any depth. */
  ghost predicate Same(a: Json, b: Json)
    decreases Size(a), 0
  {
    match (a, b)
    case (Arr(xs), Arr(ys)) => SameItems(xs, ys)
    case (Obj(fs), Obj(gs)) =>
      && (forall n :: Has(fs, n) <==> Has(gs, n))
      && (forall n | Has(fs, n) && Has(gs, n) :: Same(Get(fs, n), Get(gs, n)))
    case _ => a == b
  }

  ghost predicate SameItems(xs: Items, ys: Items)
    decreases ItemsSize(xs), 1
  {
    match (xs, ys)
    case (NoItems, NoItems) => true
    case (Item(h, t), Item(k, u)) => Same(h, k) && SameItems(t, u)
    case _ => false
  }

  /** Equal names and same values, position by position. */
  ghost predicate Aligned(fs: Fields, gs: Fields)
    decreases FieldsSize(fs), 1
  {
    match (fs, gs)
    case (NoFields, NoFields) => true
    case (Field(n, v, rest), Field(m, w, more)) => n == m && Same(v, w) && Aligned(rest, more)
    case _ => false
  }

  // ----- sorting -----

  lemma {:induction false} BeforeOrders(a: string, b: string)
    ensures !Before(a, a)
    ensures !(Before(a, b) && Before(b, a))
    ensures a != b ==> Before(a, b) || Before(b, a)
  {
    if a != "" && b != "" {
      BeforeOrders(a[1..], b[1..]);
      if a[0] == b[0] && a[1..] == b[1..] { assert a == [a[0]] + a[1..] && b == [b[0]] + b[1..]; }
    } else if a != "" {
      BeforeOrders(a[1..], a[1..]);
    }
  }

  lemma {:induction false} BeforeTransitive(a: string, b: string, c: string)
    requires Before(a, b) && Before(b, c)
    ensures Before(a, c)
  {
    if a != "" && a[0] == b[0] && b[0] == c[0] { BeforeTransitive(a[1..], b[1..], c[1..]); }
  }

  predicate Sorted(fs: Fields) {
    fs.Field? ==> Sorted(fs.rest) && (fs.rest.Field? ==> Before(fs.name, fs.rest.name))
  }

  lemma {:induction false} SortedAfter(fs: Fields, name: string)
    requires Sorted(fs) && fs.Field? && Has(fs.rest, name)
    ensures Before(fs.name, name)
  {
    if fs.rest.name != name {
      SortedAfter(fs.rest, name);
      BeforeTransitive(fs.name, fs.rest.name, name);
    }
  }

  lemma {:induction false} InsertSorted(name: string, v: Json, fs: Fields)
    requires Sorted(fs) && !Has(fs, name)
    ensures Sorted(Insert(name, v, fs))
    ensures Insert(name, v, fs).name == name || (fs.Field? && Insert(name, v, fs).name == fs.name)
  {
    if fs.Field? {
      BeforeOrders(fs.name, name);
      InsertSorted(name, v, fs.rest);
    }
  }

  lemma {:induction false} InsertHas(name: string, v: Json, fs: Fields, n: string)
    requires !Has(fs, name)
    ensures Has(Insert(name, v, fs), n) <==> n == name || Has(fs, n)
    ensures Has(Insert(name, v, fs), n) ==> Get(Insert(name, v, fs), n) == if n == name then v else Get(fs, n)
  {
    if fs.Field? { InsertHas(name, v, fs.rest, n); }
  }

  lemma {:induction false} InsertProper(name: string, v: Json, fs: Fields)
    requires !Has(fs, name) && ProperFields(fs) && Proper(v)
    ensures ProperFields(Insert(name, v, fs))
  {
    if fs.Field? {
      InsertProper(name, v, fs.rest);
      InsertHas(name, v, fs.rest, fs.name);
    }
  }

  /** Sorting moves properties around and does nothing else. */
  lemma {:induction false} SortKeeps(fs: Fields, n: string)
    requires ProperFields(fs)
    ensures Has(SortFields(fs), n) <==> Has(fs, n)
    ensures Has(fs, n) ==> Get(SortFields(fs), n) == Get(fs, n)
  {
    if fs.Field? {
      SortKeeps(fs.rest, n);
      SortKeeps(fs.rest, fs.name);
      InsertHas(fs.name, fs.value, SortFields(fs.rest), n);
    }
  }

  lemma {:induction false} SortSorts(fs: Fields)
    requires ProperFields(fs)
    ensures Sorted(SortFields(fs)) && ProperFields(SortFields(fs))
  {
    if fs.Field? {
      SortSorts(fs.rest);
      SortKeeps(fs.rest, fs.name);
      InsertSorted(fs.name, fs.value, SortFields(fs.rest));
      InsertProper(fs.name, fs.value, SortFields(fs.rest));
    }
  }

  /** The same names with the same values. */
  ghost predicate SameFields(fs: Fields, gs: Fields) {
    && (forall n :: Has(fs, n) <==> Has(gs, n))
    && (forall n | Has(fs, n) && Has(gs, n) :: Same(Get(fs, n), Get(gs, n)))
  }

  lemma SameFieldsSorted(fs: Fields, gs: Fields)
    requires ProperFields(fs) && ProperFields(gs)
    ensures SameFields(fs, gs) <==> SameFields(SortFields(fs), SortFields(gs))
  {
    hide SortFields, Has, Get, Same;
    forall n
      ensures Has(SortFields(fs), n) <==> Has(fs, n)
      ensures Has(SortFields(gs), n) <==> Has(gs, n)
      ensures Has(fs, n) ==> Get(SortFields(fs), n) == Get(fs, n)
      ensures Has(gs, n) ==> Get(SortFields(gs), n) == Get(gs, n)
    {
      SortKeeps(fs, n);
      SortKeeps(gs, n);
    }
  }

  lemma {:induction false} AlignedIsSame(fs: Fields, gs: Fields)
    requires Aligned(fs, gs)
    ensures SameFields(fs, gs)
  {
    if fs.Field? {
      AlignedIsSame(fs.rest, gs.rest);
      forall n | Has(fs, n) && Has(gs, n) ensures Same(Get(fs, n), Get(gs, n)) {
        if n != fs.name { assert Has(fs.rest, n) && Has(gs.rest, n); }
      }
    }
  }

  /** In sorted lists the first names are the least ones, hence equal. */
  lemma HeadsMatch(fs: Fields, gs: Fields)
    requires Sorted(fs) && Sorted(gs) && SameFields(fs, gs) && fs.Field?
    ensures gs.Field? && fs.name == gs.name
  {
    assert Has(fs, fs.name);
    assert Has(gs, gs.name);
    BeforeOrders(fs.name, gs.name);
    if fs.name != gs.name {
      SortedAfter(fs, gs.name);
      SortedAfter(gs, fs.name);
    }
  }

  lemma RestsMatch(fs: Fields, gs: Fields)
    requires Sorted(fs) && Sorted(gs) && SameFields(fs, gs) && fs.Field? && gs.Field? && fs.name == gs.name
    requires ProperFields(fs) && ProperFields(gs)
    ensures SameFields(fs.rest, gs.rest) && Same(fs.value, gs.value)
  {
    forall n
      ensures Has(fs.rest, n) <==> Has(fs, n) && n != fs.name
      ensures Has(gs.rest, n) <==> Has(gs, n) && n != gs.name
    {
    }
    assert Get(fs, fs.name) == fs.value && Get(gs, gs.name) == gs.value;
    forall n | Has(fs.rest, n) && Has(gs.rest, n) ensures Same(Get(fs.rest, n), Get(gs.rest, n)) {
      assert Has(fs, n) && Has(gs, n);
      assert Get(fs, n) == Get(fs.rest, n) && Get(gs, n) == Get(gs.rest, n);
    }
  }

  lemma {:induction false} SameIsAligned(fs: Fields, gs: Fields)
    requires Sorted(fs) && Sorted(gs) && ProperFields(fs) && ProperFields(gs) && SameFields(fs, gs)
    ensures Aligned(fs, gs)
  {
    if fs.Field? {
      HeadsMatch(fs, gs);
      RestsMatch(fs, gs);
      SameIsAligned(fs.rest, gs.rest);
    } else if gs.Field? {
      assert Has(gs, gs.name);
    }
  }

  // ----- same values have the same text -----

  lemma {:induction false} SameText(a: Json, b: Json)
    requires Proper(a) && Proper(b) && Same(a, b)
    ensures Canonical(a) == Canonical(b)
    decreases Size(a), 0
  {
    match a
    case Arr(xs) => SameItemsText(xs, b.items, true);
    case Obj(fs) =>
      var gs := b.fields;
      assert SameFields(fs, gs);
      SameFieldsSorted(fs, gs);
      SortSorts(fs);
      SortSorts(gs);
      SameIsAligned(SortFields(fs), SortFields(gs));
      AlignedText(SortFields(fs), SortFields(gs), true);
    case _ =>
  }

  lemma {:induction false} SameItemsText(xs: Items, ys: Items, first: bool)
    requires ProperItems(xs) && ProperItems(ys) && SameItems(xs, ys)
    ensures ItemsText(xs, first) == ItemsText(ys, first)
    decreases ItemsSize(xs), 1
  {
    if xs.Item? {
      SameText(xs.head, ys.head);
      SameItemsText(xs.tail, ys.tail, false);
    }
  }

  lemma {:induction false} AlignedText(fs: Fields, gs: Fields, first: bool)
    requires ProperFields(fs) && ProperFields(gs) && Aligned(fs, gs)
    ensures FieldsText(fs, first) == FieldsText(gs, first)
    decreases FieldsSize(fs), 1
  {
    if fs.Field? {
      SameText(fs.value, gs.value);
      AlignedText(fs.rest, gs.rest, false);
    }
  }

  // ----- different values have different texts -----

  function HexValue(c: char): int { if IsDigit(c) then c as int - '0' as int else c as int - 'a' as int + 10 }

  /** Reads one character of a string literal, plain or escaped. */
  function ReadChar(s: string): Option<(char, string)> {
    if s == "" || s[0] == '"' then None
    else if s[0] != '\\' then Some((s[0], s[1..]))
    else if |s| < 2 then None
    else if s[1] == 'u' then
      if |s| >= 6 && 0 <= 16 * HexValue(s[4]) + HexValue(s[5]) < 0x20
      then Some(((16 * HexValue(s[4]) + HexValue(s[5])) as char, s[6..])) else None
    else
      var c := if s[1] == 'b' then 8 as char else if s[1] == 'f' then 12 as char else if s[1] == 'n' then '\n'
               else if s[1] == 'r' then '\r' else if s[1] == 't' then '\t' else s[1];
      Some((c, s[2..]))
  }

  lemma HexBack(n: int)
    requires 0 <= n < 16
    ensures HexValue(Hex(n)) == n
  {
  }

  lemma ReadCharBack(c: char, rest: string)
    ensures ReadChar(Escaped(c) + rest) == Some((c, rest))
  {
    var e := Escaped(c);
    var s := e + rest;
    assert s[|e|..] == rest;
    if |e| == 6 {
      HexBack(c as int / 16);
      HexBack(c as int % 16);
      assert s[4] == Hex(c as int / 16) && s[5] == Hex(c as int % 16);
    }
  }

  lemma {:induction false} QuotedUnique(s: string, t: string, x: string, y: string)
    requires Quoted(s) + x == Quoted(t) + y
    ensures s == t && x == y
  {
    QuotedReads(s, x);
    QuotedReads(t, y);
    if s != "" && t != "" {
      QuotedUnique(s[1..], t[1..], x, y);
      assert s == [s[0]] + s[1..] && t == [t[0]] + t[1..];
    } else if s == "" && t == "" {
      assert x == (Quoted(s) + x)[1..] && y == (Quoted(t) + y)[1..];
    }
  }

  lemma QuotedReads(s: string, x: string)
    ensures ReadChar(Quoted(s) + x) == if s == "" then None else Some((s[0], Quoted(s[1..]) + x))
  {
    if s == "" { NothingReads(x); } else { SomethingReads(s, x); }
  }

  lemma NothingReads(x: string)
    ensures ReadChar(Quoted("") + x) == None
  {
  }

  lemma SomethingReads(s: string, x: string)
    requires s != ""
    ensures ReadChar(Quoted(s) + x) == Some((s[0], Quoted(s[1..]) + x))
  {
    hide Escaped, ReadChar;
    ReadCharBack(s[0], Quoted(s[1..]) + x);
    assert Quoted(s) + x == Escaped(s[0]) + (Quoted(s[1..]) + x);
  }

  lemma StringUnique(s: string, t: string, x: string, y: string)
    requires JsonString(s) + x == JsonString(t) + y
    ensures s == t && x == y
  {
    hide Quoted;
    Behind("\"", Quoted(s), x, Quoted(t), y);
    QuotedUnique(s, t, x, y);
  }

  /** What can stand behind a value. */
  predicate Follow(s: string) { s == "" || s[0] in ",]}" }

  /** How many characters of numbers a text opens with. */
  function NumberLength(s: string): nat {
    if s == "" || !NumberChar(s[0]) then 0 else 1 + NumberLength(s[1..])
  }

  lemma {:induction false} RunIs(a: string, s: string)
    requires (forall i | 0 <= i < |a| :: NumberChar(a[i])) && Follow(s)
    ensures NumberLength(a + s) == |a|
  {
    if a == "" {
      assert a + s == s;
    } else {
      RunIs(a[1..], s);
      assert (a + s)[1..] == a[1..] + s;
    }
  }

  lemma NumberUnique(a: string, b: string, s: string, t: string)
    requires (forall i | 0 <= i < |a| :: NumberChar(a[i])) && (forall i | 0 <= i < |b| :: NumberChar(b[i]))
    requires Follow(s) && Follow(t) && a + s == b + t
    ensures a == b && s == t
  {
    var x, y := a + s, b + t;
    RunIs(a, s);
    RunIs(b, t);
    assert a == x[..|a|] && b == y[..|b|] && s == x[|a|..] && t == y[|b|..];
  }

  /** The first character tells the kind of a value. */
  predicate Opens(v: Json, c: char) {
    match v
    case Null => c == 'n'
    case Bool(b) => c == if b then 't' else 'f'
    case Num(_) => IsDigit(c) || c == '-'
    case Str(_) => c == '"'
    case Arr(_) => c == '['
    case Obj(_) => c == '{'
  }

  lemma OpensWith(v: Json)
    requires Proper(v)
    ensures Canonical(v) != "" && Opens(v, Canonical(v)[0])
  {
    match v
    case Bool(b) =>
    case _ =>
  }

  lemma SameKind(a: Json, b: Json, s: string, t: string)
    requires Proper(a) && Proper(b) && Canonical(a) + s == Canonical(b) + t
    ensures Opens(a, Canonical(a)[0]) && Opens(b, Canonical(a)[0])
  {
    OpensWith(a);
    OpensWith(b);
    assert (Canonical(a) + s)[0] == Canonical(a)[0];
    assert (Canonical(b) + t)[0] == Canonical(b)[0];
  }

  lemma Rest(c: string, s: string, t: string)
    requires c + s == c + t
    ensures s == t
  {
    assert s == (c + s)[|c|..] && t == (c + t)[|c|..];
  }

  lemma Behind(c: string, x: string, s: string, y: string, t: string)
    requires (c + x) + s == (c + y) + t
    ensures x + s == y + t
  {
    assert x + s == ((c + x) + s)[|c|..];
    assert y + t == ((c + y) + t)[|c|..];
  }

  /** A value is determined by its text, even with more text behind it. */
  lemma {:induction false} TextUnique(a: Json, b: Json, s: string, t: string)
    requires Proper(a) && Proper(b) && Follow(s) && Follow(t)
    requires Canonical(a) + s == Canonical(b) + t
    ensures Same(a, b) && s == t
    decreases Size(a), 0
  {
    SameKind(a, b, s, t);
    match a
    case Null => Rest("null", s, t);
    case Bool(v) => Rest(if v then "true" else "false", s, t);
    case Num(x) => NumberUnique(x, b.text, s, t);
    case Str(x) => StringUnique(x, b.s, s, t);
    case Arr(xs) =>
      Behind("[", ItemsText(xs, true), s, ItemsText(b.items, true), t);
      ItemsUnique(xs, b.items, true, s, t);
    case Obj(fs) => ObjectUnique(fs, b.fields, s, t);
  }

  lemma {:induction false} ObjectUnique(fs: Fields, gs: Fields, s: string, t: string)
    requires ProperFields(fs) && ProperFields(gs)
    requires Canonical(Obj(fs)) + s == Canonical(Obj(gs)) + t
    ensures Same(Obj(fs), Obj(gs)) && s == t
    decreases FieldsSize(fs), 2
  {
    Behind("{", FieldsText(SortFields(fs), true), s, FieldsText(SortFields(gs), true), t);
    SortSorts(fs);
    SortSorts(gs);
    FieldsUnique(SortFields(fs), SortFields(gs), true, s, t);
    AlignedIsSame(SortFields(fs), SortFields(gs));
    SameFieldsSorted(fs, gs);
    assert SameFields(fs, gs);
  }

  lemma ItemsOpen(xs: Items, first: bool)
    requires ProperItems(xs)
    ensures ItemsText(xs, first) != ""
    ensures (ItemsText(xs, first)[0] == ']') == xs.NoItems?
    ensures !first ==> Follow(ItemsText(xs, first))
  {
    if xs.Item? { OpensWith(xs.head); }
  }

  lemma FieldsOpen(fs: Fields, first: bool)
    ensures FieldsText(fs, first) != ""
    ensures (FieldsText(fs, first)[0] == '}') == fs.NoFields?
    ensures !first ==> Follow(FieldsText(fs, first))
  {
  }

  lemma SameOpening(x: string, s: string, y: string, t: string)
    requires x != "" && y != "" && x + s == y + t
    ensures x[0] == y[0]
  {
    assert x[0] == (x + s)[0] && y[0] == (y + t)[0];
  }

  lemma {:induction false} ItemsUnique(xs: Items, ys: Items, first: bool, s: string, t: string)
    requires ProperItems(xs) && ProperItems(ys)
    requires ItemsText(xs, first) + s == ItemsText(ys, first) + t
    ensures SameItems(xs, ys) && s == t
    decreases ItemsSize(xs), 1
  {
    ItemsOpen(xs, first);
    ItemsOpen(ys, first);
    SameOpening(ItemsText(xs, first), s, ItemsText(ys, first), t);
    if xs.NoItems? {
      Rest("]", s, t);
    } else {
      var x, y := ItemsText(xs.tail, false), ItemsText(ys.tail, false);
      Behind(if first then "" else ",", Canonical(xs.head) + x, s, Canonical(ys.head) + y, t);
      Associative(Canonical(xs.head), x, s);
      Associative(Canonical(ys.head), y, t);
      ItemsOpen(xs.tail, false);
      ItemsOpen(ys.tail, false);
      TextUnique(xs.head, ys.head, x + s, y + t);
      ItemsUnique(xs.tail, ys.tail, false, s, t);
    }
  }

  lemma NameUnique(n: string, m: string, x: string, y: string, s: string, t: string)
    requires (JsonString(n) + (":" + x)) + s == (JsonString(m) + (":" + y)) + t
    ensures n == m && x + s == y + t
  {
    assert (JsonString(n) + (":" + x)) + s == JsonString(n) + (":" + (x + s));
    assert (JsonString(m) + (":" + y)) + t == JsonString(m) + (":" + (y + t));
    StringUnique(n, m, ":" + (x + s), ":" + (y + t));
    assert (":" + (x + s))[1..] == x + s && (":" + (y + t))[1..] == y + t;
  }

  lemma {:induction false} FieldsUnique(fs: Fields, gs: Fields, first: bool, s: string, t: string)
    requires ProperFields(fs) && ProperFields(gs)
    requires FieldsText(fs, first) + s == FieldsText(gs, first) + t
    ensures Aligned(fs, gs) && s == t
    decreases FieldsSize(fs), 1
  {
    FieldsOpen(fs, first);
    FieldsOpen(gs, first);
    SameOpening(FieldsText(fs, first), s, FieldsText(gs, first), t);
    if fs.NoFields? {
      Rest("}", s, t);
    } else {
      var x, y := FieldsText(fs.rest, false), FieldsText(gs.rest, false);
      FirstField(fs.name, Canonical(fs.value), x, gs.name, Canonical(gs.value), y, if first then "" else ",", s, t);
      FieldsOpen(fs.rest, false);
      FieldsOpen(gs.rest, false);
      TextUnique(fs.value, gs.value, x + s, y + t);
      FieldsUnique(fs.rest, gs.rest, false, s, t);
    }
  }

  lemma FirstField(n: string, v: string, x: string, m: string, w: string, y: string, c: string, s: string, t: string)
    requires (c + (JsonString(n) + (":" + (v + x)))) + s == (c + (JsonString(m) + (":" + (w + y)))) + t
    ensures n == m && v + (x + s) == w + (y + t)
  {
    hide JsonString;
    Behind(c, JsonString(n) + (":" + (v + x)), s, JsonString(m) + (":" + (w + y)), t);
    NameUnique(n, m, v + x, w + y, s, t);
    assert v + (x + s) == (v + x) + s;
    assert w + (y + t) == (w + y) + t;
  }

  /** Two JSON values have one text exactly when they are equal up to the order
      of properties. */
  lemma CanonicalIffSame(a: Json, b: Json)
    requires Proper(a) && Proper(b)
    ensures Canonical(a) == Canonical(b) <==> Same(a, b)
  {
    if Same(a, b) { SameText(a, b); }
    if Canonical(a) == Canonical(b) {
      assert Canonical(a) + "" == Canonical(b) + "";
      TextUnique(a, b, "", "");
    }
  }
}
