/** The version counters of version-keys.ts and the text of a memo key. */
module VersionKeys {
  import opened JsText
  import opened MemoProtocol

  const ACE_PROMPT_VERSION := "2026-10-16.1"

  function Letter(kind: Kind): char {
    match kind
    case StoreKind => 's'
    case KbKind => 'k'
    case ProductKind => 'p'
  }

  function PartText(part: (Kind, nat)): string { [Letter(part.0)] + NatText(part.1) }

  function PartTexts(parts: seq<(Kind, nat)>): seq<string> {
    seq(|parts|, i requires 0 <= i < |parts| => PartText(parts[i]))
  }

  /** What `versionsFor` returns. */
  function StampText(parts: seq<(Kind, nat)>): string { Join([ACE_PROMPT_VERSION] + PartTexts(parts), ".") }

  function Version(counters: map<Source, nat>, x: Source): nat { if x in counters then counters[x] else 0 }

  /** A stamp, part by part; a counter that was never raised counts as nothing. */
  lemma StampLooks(store: nat, kb: nat, product: nat, x: Source)
    ensures StampText([(StoreKind, store), (KbKind, kb), (ProductKind, product)])
         == "2026-10-16.1" + "." + ("s" + NatText(store) + "." + ("k" + NatText(kb) + "." + ("p" + NatText(product))))
    ensures Version(map[], x) == 0
    ensures NatText(store)[0] == '0' <==> store == 0
  {
    NatTextIsPlain(store);
    hide NatText;
    var parts := [(StoreKind, store), (KbKind, kb), (ProductKind, product)];
    var a, b, c := PartText(parts[0]), PartText(parts[1]), PartText(parts[2]);
    assert PartTexts(parts) == [a, b, c];
    var all := [ACE_PROMPT_VERSION, a, b, c];
    assert [ACE_PROMPT_VERSION] + [a, b, c] == all && all[1..] == [a, b, c] && [a, b, c][1..] == [b, c] && [b, c][1..] == [c];
    assert Join([c], ".") == c;
    assert Join([b, c], ".") == b + "." + c;
    assert Join([a, b, c], ".") == a + "." + (b + "." + c);
    assert Join(all, ".") == ACE_PROMPT_VERSION + "." + (a + "." + (b + "." + c));
  }

  function PartsOf(counters: map<Source, nat>, xs: seq<Source>): seq<(Kind, nat)> {
    seq(|xs|, i requires 0 <= i < |xs| => (xs[i].kind, Version(counters, xs[i])))
  }

  function Bumped(counters: map<Source, nat>, xs: seq<Source>): map<Source, nat> {
    if xs == [] then counters else
    var before, x := Bumped(counters, xs[..|xs| - 1]), xs[|xs| - 1];
    before[x := Version(before, x) + 1]
  }

  lemma BumpedStart(counters: map<Source, nat>, xs: seq<Source>)
    ensures Bumped(counters, xs[..0]) == counters
  {
  }

  lemma BumpedNext(counters: map<Source, nat>, xs: seq<Source>, i: nat)
    requires i < |xs|
    ensures var before := Bumped(counters, xs[..i]);
      Bumped(counters, xs[..i + 1]) == before[xs[i] := Version(before, xs[i]) + 1]
  {
    assert xs[..i + 1][..i] == xs[..i];
  }

  lemma NoParts(counters: map<Source, nat>, xs: seq<Source>)
    ensures PartTexts(PartsOf(counters, xs[..0])) == []
  {
  }

  lemma PartsNext(counters: map<Source, nat>, xs: seq<Source>, i: nat)
    requires i < |xs|
    ensures PartTexts(PartsOf(counters, xs[..i + 1]))
         == PartTexts(PartsOf(counters, xs[..i])) + [PartText((xs[i].kind, Version(counters, xs[i])))]
  {
    hide PartText;
    assert xs[..i + 1] == xs[..i] + [xs[i]];
  }

  /** Each counter rises by the number of times its source is listed. */
  lemma {:induction false} BumpedCounts(counters: map<Source, nat>, xs: seq<Source>, y: Source)
    ensures Version(Bumped(counters, xs), y) == Version(counters, y) + multiset(xs)[y]
  {
    if xs != [] {
      BumpedCounts(counters, xs[..|xs| - 1], y);
      assert xs == xs[..|xs| - 1] + [xs[|xs| - 1]];
    }
  }

  /** Redis as these two functions see it: counters, and how many more
      operations it answers before one throws. */
  class VersionStore {
    var counters: map<Source, nat>
    var answers: nat

    constructor (counters: map<Source, nat>, answers: nat)
      ensures this.counters == counters && this.answers == answers
    {
      this.counters, this.answers := counters, answers;
    }

    method Get(x: Source) returns (v: Option<nat>)
      modifies `answers
      ensures v == if old(answers) == 0 then None else Some(Version(counters, x))
      ensures answers == if old(answers) == 0 then 0 else old(answers) - 1
    {
      if answers == 0 { return None; }
      answers := answers - 1;
      return Some(Version(counters, x));
    }

    method Incr(x: Source) returns (ok: bool)
      modifies this
      ensures ok == (old(answers) > 0)
      ensures counters == if ok then old(counters)[x := Version(old(counters), x) + 1] else old(counters)
      ensures answers == if ok then old(answers) - 1 else 0
    {
      if answers == 0 { return false; }
      answers := answers - 1;
      counters := counters[x := Version(counters, x) + 1];
      return true;
    }

    /** One GET per source in order; an error anywhere gives no stamp at all. */
    method VersionsFor(storeId: Option<string>, kb: bool, productIds: seq<string>) returns (stamp: Option<string>)
      modifies `answers
      ensures var xs := SourcesOf(storeId, kb, productIds);
        stamp == if old(answers) < |xs| then None else Some(StampText(PartsOf(counters, xs)))
    {
      hide SourcesOf, PartText, PartTexts, PartsOf, Join;
      var xs := SourcesOf(storeId, kb, productIds);
      var parts := [ACE_PROMPT_VERSION];
      NoParts(counters, xs);
      for i := 0 to |xs|
        invariant answers + i == old(answers)
        invariant parts == [ACE_PROMPT_VERSION] + PartTexts(PartsOf(counters, xs[..i]))
      {
        var v := Get(xs[i]);
        if v.None? { return None; }
        PartsNext(counters, xs, i);
        parts := parts + [PartText((xs[i].kind, v.value))];
      }
      assert xs[..|xs|] == xs;
      return Some(Join(parts, "."));
    }

    /** One INCR per source in order; the first error ends the loop. */
    method BumpVersions(storeId: Option<string>, kb: bool, productIds: seq<string>)
      modifies this
      ensures var xs := SourcesOf(storeId, kb, productIds);
        counters == Bumped(old(counters), xs[..Min(|xs|, old(answers))])
    {
      hide SourcesOf, Bumped;
      var xs := SourcesOf(storeId, kb, productIds);
      BumpedStart(counters, xs);
      for i := 0 to |xs|
        invariant answers + i == old(answers)
        invariant counters == Bumped(old(counters), xs[..i])
      {
        BumpedNext(old(counters), xs, i);
        var ok := Incr(xs[i]);
        if !ok { return; }
      }
    }
  }

  // ----- the text of a key says everything about the key -----

  lemma PartTextUnique(a: (Kind, nat), b: (Kind, nat))
    requires PartText(a) == PartText(b)
    ensures a == b
  {
    assert PartText(a)[1..] == NatText(a.1) && PartText(b)[1..] == NatText(b.1);
    assert PartText(a)[0] == Letter(a.0) && PartText(b)[0] == Letter(b.0);
  }

  lemma {:induction false} PiecesCut(pieces: seq<string>, c: char)
    requires pieces != [] && forall i | 0 <= i < |pieces| :: Lacks(pieces[i], c)
    ensures Cut(pieces, [c])
  {
    LacksFind(pieces[0], [c]);
    if |pieces| > 1 { PiecesCut(pieces[1..], c); }
  }

  /** The pieces of a stamp between its dots. */
  function StampPieces(parts: seq<(Kind, nat)>): seq<string> { ["2026-10-16", "1"] + PartTexts(parts) }

  lemma StampSplits(parts: seq<(Kind, nat)>)
    ensures Split(StampText(parts), ".") == StampPieces(parts)
  {
    var texts := PartTexts(parts);
    forall i | 0 <= i < |StampPieces(parts)| ensures Lacks(StampPieces(parts)[i], '.') {
      if i >= 2 { assert Lacks(PartText(parts[i - 2]), '.'); }
    }
    PiecesCut(StampPieces(parts), '.');
    JoinSplit(StampPieces(parts), ".");
    StampJoins(texts);
  }

  lemma StampJoins(texts: seq<string>)
    ensures Join([ACE_PROMPT_VERSION] + texts, ".") == Join(["2026-10-16", "1"] + texts, ".")
  {
    assert ["2026-10-16", "1"][1..] == ["1"];
    assert Join(["2026-10-16", "1"], ".") == ACE_PROMPT_VERSION;
    if texts == [] {
      assert [ACE_PROMPT_VERSION] + texts == [ACE_PROMPT_VERSION];
      assert ["2026-10-16", "1"] + texts == ["2026-10-16", "1"];
    } else {
      JoinConcat([ACE_PROMPT_VERSION], texts, ".");
      JoinConcat(["2026-10-16", "1"], texts, ".");
    }
  }

  lemma StampUnique(a: seq<(Kind, nat)>, b: seq<(Kind, nat)>)
    requires StampText(a) == StampText(b)
    ensures a == b
  {
    StampSplits(a);
    StampSplits(b);
    assert StampPieces(a)[2..] == PartTexts(a) && StampPieces(b)[2..] == PartTexts(b);
    forall i | 0 <= i < |a| ensures a[i] == b[i] {
      assert PartTexts(a)[i] == PartTexts(b)[i];
      PartTextUnique(a[i], b[i]);
    }
  }

  /** The text that is hashed for a key. */
  function HashedText(k: Key): string { k.owner + ("|" + (StampText(k.parts) + ("|" + k.input))) }

  lemma FirstBar(a: string, b: string, c: string, d: string)
    requires Lacks(a, '|') && Lacks(c, '|') && a + ("|" + b) == c + ("|" + d)
    ensures a == c && b == d
  {
    var s, t := a + ("|" + b), c + ("|" + d);
    assert s[|a|] == '|' && t[|c|] == '|';
    assert a == s[..|a|] && c == t[..|c|];
    assert b == s[|a| + 1..] && d == t[|c| + 1..];
  }

  lemma PartLacksBar(part: (Kind, nat))
    ensures Lacks(PartText(part), '|')
  {
  }

  lemma StampLacksBar(parts: seq<(Kind, nat)>)
    ensures Lacks(StampText(parts), '|')
  {
    hide Join, PartText;
    var pieces := [ACE_PROMPT_VERSION] + PartTexts(parts);
    forall i | 0 <= i < |pieces| ensures Lacks(pieces[i], '|') {
      if i > 0 { PartLacksBar(parts[i - 1]); } else { assert Lacks(ACE_PROMPT_VERSION, '|'); }
    }
    JoinLacks(pieces, ".", '|');
  }

  /** Store ids carry no bar, so equal hashed texts come from equal keys only. */
  lemma HashedTextUnique(a: Key, b: Key)
    requires Lacks(a.owner, '|') && Lacks(b.owner, '|')
    ensures HashedText(a) == HashedText(b) <==> (a.owner, a.parts, a.input) == (b.owner, b.parts, b.input)
  {
    if HashedText(a) == HashedText(b) {
      FirstBar(a.owner, StampText(a.parts) + ("|" + a.input), b.owner, StampText(b.parts) + ("|" + b.input));
      StampLacksBar(a.parts);
      StampLacksBar(b.parts);
      FirstBar(StampText(a.parts), a.input, StampText(b.parts), b.input);
      StampUnique(a.parts, b.parts);
    }
  }
}
