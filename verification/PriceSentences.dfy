/** What the price guard of fa-amounts.util.ts keeps: every sentence whose amounts are
    allowed stays, in its place, and a text of such sentences comes back as it was. */
module PriceSentences {
  import opened JsText
  import opened FaAmounts
  import opened AmountSplits
  import opened PriceLeaks
  import opened PriceGuard

  // ----- how a text is written in sentences -----

  predicate EndsSentence(c: char) { c in {'.', '!', '?', '\U{061F}', '\n'} }

  /** No white space follows a mark or a line break inside `x`. */
  predicate OnePiece(x: string) {
    forall i | 0 < i < |x| :: !(EndsSentence(x[i - 1]) && IsSpace(x[i]))
  }

  /** Sentences and the white space between them. Only the first may begin with white space, only the
      last may be empty, and all but the last end with a mark or a line break. */
  ghost predicate Written(parts: seq<string>, seps: seq<string>) {
    && |parts| == |seps| + 1
    && OnePiece(parts[0])
    && (seps != [] ==>
          && parts[0] != "" && EndsSentence(parts[0][|parts[0]| - 1])
          && seps[0] != "" && AllSpaces(seps[0])
          && (parts[1] != "" ==> !IsSpace(parts[1][0]))
          && (parts[1] == "" ==> |parts| == 2)
          && Written(parts[1..], seps[1..]))
  }

  function TextOf(parts: seq<string>, seps: seq<string>): string
    requires |parts| == |seps| + 1
  {
    if seps == [] then parts[0] else parts[0] + (seps[0] + TextOf(parts[1..], seps[1..]))
  }

  lemma {:induction false} NoCutIs(x: string, p: nat)
    ensures CutFrom(x, p) == None <==> forall i | p <= i < |x| && 0 < i :: !(EndsSentence(x[i - 1]) && IsSpace(x[i]))
    decreases |x| - p
  {
    if p < |x| { NoCutIs(x, p + 1); }
  }

  lemma FirstCut(x: string, y: string)
    requires OnePiece(x) && x != "" && EndsSentence(x[|x| - 1]) && y != "" && IsSpace(y[0])
    ensures CutFrom(x + y, 0) == Some(|x|)
  {
    NoCutIs(x, 0);
    hide CutFrom;
    CutAtEnd(x, y, 0);
  }

  lemma {:induction false} RestStarts(parts: seq<string>, seps: seq<string>)
    requires Written(parts, seps)
    ensures parts[0] != "" ==> TextOf(parts, seps) != "" && TextOf(parts, seps)[0] == parts[0][0]
    ensures parts[0] == "" ==> TextOf(parts, seps) == ""
  {
  }

  /** A text written in sentences is split into these sentences. */
  lemma {:induction false} SentencesReadBack(parts: seq<string>, seps: seq<string>)
    requires Written(parts, seps)
    ensures Sentences(TextOf(parts, seps)) == parts
    decreases |seps|
  {
    hide Sentences, CutFrom;
    if seps == [] {
      NoCutIs(parts[0], 0);
      SentencesUncut(parts[0]);
    } else {
      var rest := TextOf(parts[1..], seps[1..]);
      var y := seps[0] + rest;
      SentencesReadBack(parts[1..], seps[1..]);
      RestStarts(parts[1..], seps[1..]);
      assert y[0] == seps[0][0];
      FirstCut(parts[0], y);
      SentencesCut(parts[0] + y, |parts[0]|);
      TrimStartGoes(seps[0], rest);
      assert (parts[0] + y)[..|parts[0]|] == parts[0] && (parts[0] + y)[|parts[0]|..] == y;
    }
  }

  /** Every text is written in the sentences into which it is split. */
  lemma {:induction false} EveryTextIsWritten(text: string) returns (seps: seq<string>)
    ensures Written(Sentences(text), seps) && TextOf(Sentences(text), seps) == text
    decreases |text|
  {
    hide Sentences;
    match CutFrom(text, 0)
    case None =>
      seps := [];
      NoCutIs(text, 0);
      SentencesUncut(text);
    case Some(p) =>
      SentencesCut(text, p);
      FirstPiece(text, p);
      var y := text[p..];
      var rest := TrimStart(y);
      var others := EveryTextIsWritten(rest);
      var sep := SpaceBefore(y);
      seps := [sep] + others;
      assert seps[1..] == others;
      TrimmedStarts(y);
      RestStarts(Sentences(rest), others);
      NothingIsOne(rest);
  }

  lemma FirstPiece(text: string, p: nat)
    requires CutFrom(text, 0) == Some(p)
    ensures 0 < p < |text| && OnePiece(text[..p]) && EndsSentence(text[p - 1]) && IsSpace(text[p])
  {
    CutIsFirst(text, 0, p);
  }

  lemma {:induction false} CutIsFirst(text: string, q: nat, p: nat)
    requires CutFrom(text, q) == Some(p)
    ensures q <= p < |text| && forall i | q <= i < p && 0 < i :: !(EndsSentence(text[i - 1]) && IsSpace(text[i]))
    decreases |text| - q
  {
    if !(q > 0 && IsStop(text[q - 1]) && IsSpace(text[q])) { CutIsFirst(text, q + 1, p); }
  }

  /** The white space that `TrimStart` removes. */
  lemma {:induction false} SpaceBefore(y: string) returns (sep: string)
    ensures y == sep + TrimStart(y) && AllSpaces(sep)
    ensures y != "" && IsSpace(y[0]) ==> sep != ""
  {
    if y != "" && IsSpace(y[0]) {
      var more := SpaceBefore(y[1..]);
      sep := [y[0]] + more;
      assert y == [y[0]] + y[1..];
    } else {
      sep := "";
    }
  }

  lemma {:induction false} TrimmedStarts(y: string)
    ensures TrimStart(y) != "" ==> !IsSpace(TrimStart(y)[0])
  {
    if y != "" && IsSpace(y[0]) { TrimmedStarts(y[1..]); }
  }

  lemma NothingIsOne(rest: string)
    ensures rest == "" ==> Sentences(rest) == [""]
  {
  }

  // ----- what is kept -----

  /** A sentence stays if and only if all its amounts are allowed; the others are not touched. */
  lemma {:induction false} KeptIs(before: seq<string>, part: string, after: seq<string>, allowed: set<int>)
    ensures Kept(before + ([part] + after), allowed)
         == Kept(before, allowed) + ((if AllIn(Amounts(part), allowed) then [part] else []) + Kept(after, allowed))
  {
    hide Amounts, Kept, AllIn;
    if before == [] {
      assert before + ([part] + after) == [part] + after;
      KeptFirst(part, after, allowed);
      NothingKept(allowed);
    } else {
      var rest := before[1..] + ([part] + after);
      assert before + ([part] + after) == [before[0]] + rest && before == [before[0]] + before[1..];
      KeptFirst(before[0], rest, allowed);
      KeptFirst(before[0], before[1..], allowed);
      KeptIs(before[1..], part, after, allowed);
    }
  }

  lemma KeptFirst(part: string, after: seq<string>, allowed: set<int>)
    ensures Kept([part] + after, allowed) == (if AllIn(Amounts(part), allowed) then [part] else []) + Kept(after, allowed)
  {
    hide Amounts;
    assert ([part] + after)[1..] == after;
  }

  /** The amounts that are reported: those in the text that are not allowed, each once. */
  lemma UnauthorizedAre(text: string, allowed: set<int>)
    ensures var r := FindUnauthorizedAmounts(text, allowed);
      && (forall x :: x in r <==> x in Amounts(text) && x !in allowed)
      && (forall i, j | 0 <= i < j < |r| :: r[i] != r[j])
  {
    hide Amounts;
    NotAllowedAre(Amounts(text), allowed);
  }

  lemma {:induction false} NotAllowedAre(amounts: seq<int>, allowed: set<int>)
    ensures var r := NotAllowed(amounts, allowed);
      && (forall x :: x in r <==> x in amounts && x !in allowed)
      && (forall i, j | 0 <= i < j < |r| :: r[i] != r[j])
  {
    if amounts != [] {
      NotAllowedAre(amounts[..|amounts| - 1], allowed);
      assert amounts == amounts[..|amounts| - 1] + [amounts[|amounts| - 1]];
    }
  }

  /** The guard, on a text in sentences: if every amount of every sentence is allowed, the text comes back unchanged;
      else the sentences that stay and the card line come back, a blank between them. */
  lemma GuardKeeps(parts: seq<string>, seps: seq<string>, allowed: set<int>, card: string)
    requires Written(parts, seps)
    ensures var r := StripUnauthorizedPriceSentences(TextOf(parts, seps), allowed, card);
      && ((forall i | 0 <= i < |parts| :: AllIn(Amounts(parts[i]), allowed)) <==> !r.changed)
      && r.text == if r.changed then Trim(Join(Kept(parts, allowed) + [card], " ")) else TextOf(parts, seps)
  {
    hide Amounts, Sentences, Trim, Join, AllIn, Kept;
    SentencesReadBack(parts, seps);
    AllKeptIff(parts, allowed);
  }

  lemma {:induction false} AllKeptIff(parts: seq<string>, allowed: set<int>)
    ensures |Kept(parts, allowed)| <= |parts|
    ensures |Kept(parts, allowed)| == |parts| <==> forall i | 0 <= i < |parts| :: AllIn(Amounts(parts[i]), allowed)
  {
    hide Amounts, AllIn, Kept;
    if parts == [] {
      NothingKept(allowed);
    } else {
      AllKeptIff(parts[1..], allowed);
      NothingKept(allowed);
      KeptIs([], parts[0], parts[1..], allowed);
      assert [] + ([parts[0]] + parts[1..]) == parts;
      assert forall i | 0 <= i < |parts| - 1 :: parts[1..][i] == parts[i + 1];
      assert forall i | 0 < i < |parts| :: parts[i] == parts[1..][i - 1];
    }
  }
}
