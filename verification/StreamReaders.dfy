/** The two buffer-and-split readers: the event stream of generated images
    (image-generation.service.ts) and the progress lines of ffmpeg
    (media-transcode.worker.ts). Both start from decoded text. */
module StreamReaders {
  import opened JsText

  /** The text that a list of chunks carries. */
  function Concat(chunks: seq<string>): string {
    if chunks == [] then "" else Concat(chunks[..|chunks| - 1]) + chunks[|chunks| - 1]
  }

  // ----- image events -----

  datatype UsageFields = UsageFields(
    textTokens: Option<int>, imageTokens: Option<int>, outputTokens: Option<int>,
    promptTokens: Option<int>, completionTokens: Option<int>, cost: Option<real>)

  /** What `JSON.parse` makes of the data of an event. `Unusable` stands for text
      that does not parse or has no fields; a missing text field is empty. */
  datatype Event =
    | Unusable
    | Event(kind: string, b64: string, mediaType: Option<string>, usage: UsageFields,
            code: Option<string>, errorType: Option<string>, message: Option<string>)

  datatype Usage = Usage(textIn: int, imageIn: int, out: int, costMicros: Option<int>)

  datatype ImageError = ImageError(message: string, code: Option<string>, policy: bool)

  /** What has been read so far. Once `error` is set nothing more is read. */
  datatype Progress = Progress(
    partials: seq<string>, final: Option<string>, mediaType: string, usage: Usage,
    seen: set<string>, error: Option<ImageError>)

  const START := Progress([], None, "image/png", Usage(0, 0, 0, None), {}, None)

  function OrElse<T>(a: Option<T>, b: Option<T>): Option<T> { if a.Some? then a else b }

  function GetOr<T>(a: Option<T>, default: T): T { if a.Some? then a.value else default }

  function Lower(c: char): char { if 'A' <= c <= 'Z' then (c as int + 32) as char else c }

  predicate MatchesAt(s: string, word: string, i: nat) {
    i + |word| <= |s| && forall k | 0 <= k < |word| :: Lower(s[i + k]) == word[k]
  }

  /** `word`, given in small letters, occurs in `s` in any case. */
  predicate Mentions(s: string, word: string) {
    exists i | 0 <= i <= |s| :: MatchesAt(s, word, i)
  }

  /** `w` is `word` in some mixture of small and capital letters. */
  predicate Spells(w: string, word: string) {
    |w| == |word| && forall k | 0 <= k < |w| :: w[k] == word[k] || w[k] as int + 32 == word[k] as int
  }

  predicate SmallLetters(word: string) { forall k | 0 <= k < |word| :: 'a' <= word[k] <= 'z' }

  lemma SpellingMatches(s: string, word: string, i: nat)
    requires SmallLetters(word) && i + |word| <= |s|
    ensures MatchesAt(s, word, i) <==> Spells(s[i..i + |word|], word)
  {
    var w := s[i..i + |word|];
    forall k | 0 <= k < |word|
      ensures Lower(s[i + k]) == word[k] <==> w[k] == word[k] || w[k] as int + 32 == word[k] as int
    {
      LowerMeans(s[i + k], word[k]);
    }
  }

  lemma LowerMeans(c: char, d: char)
    requires 'a' <= d <= 'z'
    ensures Lower(c) == d <==> c == d || c as int + 32 == d as int
  {
  }

  /** The text an error is judged by: its code, or else its type, and its message. */
  function Judged(e: Event, fallback: string): string
    requires e.Event?
  {
    GetOr(OrElse(e.code, e.errorType), "") + " " + GetOr(e.message, fallback)
  }

  /** A word of the policy, in any letters, makes the error one of the policy, and nothing else does. */
  lemma PolicyMeans(e: Event, fallback: string)
    requires e.Event?
    ensures ErrorOf(e, fallback).message == if e.message.Some? then e.message.value else fallback
    ensures ErrorOf(e, fallback).code == if e.code.Some? then e.code else e.errorType
    ensures var text := Judged(e, fallback);
      ErrorOf(e, fallback).policy <==> exists i, j | 0 <= i <= j <= |text| ::
        Spells(text[i..j], "moderation") || Spells(text[i..j], "policy") || Spells(text[i..j], "safety")
  {
    var text := Judged(e, fallback);
    MentionMeans(text, "moderation");
    MentionMeans(text, "policy");
    MentionMeans(text, "safety");
  }

  lemma MentionMeans(s: string, word: string)
    requires SmallLetters(word)
    ensures Mentions(s, word) <==> exists i, j | 0 <= i <= j <= |s| :: Spells(s[i..j], word)
  {
    hide MatchesAt, Spells;
    if Mentions(s, word) {
      var i :| 0 <= i <= |s| && MatchesAt(s, word, i);
      FitsIn(s, word, i);
      SpellingMatches(s, word, i);
      assert Spells(s[i..i + |word|], word);
    }
    forall i, j | 0 <= i <= j <= |s| && Spells(s[i..j], word) ensures Mentions(s, word) {
      SpelledLength(s[i..j], word);
      SpellingMatches(s, word, i);
    }
  }

  lemma FitsIn(s: string, word: string, i: nat)
    requires MatchesAt(s, word, i)
    ensures i + |word| <= |s|
  {
  }

  lemma SpelledLength(w: string, word: string)
    requires Spells(w, word)
    ensures |w| == |word|
  {
  }

  function ErrorOf(e: Event, fallback: string): ImageError
    requires e.Event?
  {
    var code := OrElse(e.code, e.errorType);
    var message := GetOr(e.message, fallback);
    var text := GetOr(code, "") + " " + message;
    ImageError(message, code, Mentions(text, "moderation") || Mentions(text, "policy") || Mentions(text, "safety"))
  }

  function UsageOf(u: UsageFields): Usage {
    Usage(GetOr(OrElse(u.textTokens, u.promptTokens), 0),
          GetOr(u.imageTokens, 0),
          GetOr(OrElse(u.outputTokens, u.completionTokens), 0),
          if u.cost.Some? then Some(Round(u.cost.value * 1_000_000.0)) else None)
  }

  const PARTIAL := "image_generation.partial_image"
  const COMPLETED := "image_generation.completed"

  function OnEvent(p: Progress, e: Event, fallback: string): Progress {
    if e.Unusable? then p else
    var q := if e.kind != "" then p.(seen := p.seen + {e.kind}) else p;
    if e.kind == PARTIAL && e.b64 != "" then
      q.(partials := q.partials + [e.b64])
    else if e.kind == "error" then
      q.(error := Some(ErrorOf(e, fallback)))
    else if e.kind == COMPLETED && e.b64 != "" then
      q.(final := Some(e.b64), mediaType := GetOr(e.mediaType, "image/png"), usage := UsageOf(e.usage))
    else q
  }

  /** The event in a piece between blank lines: only a `data:` line that is not
      the end mark has one. */
  function EventOf(part: string, parse: string -> Event): Event {
    var line := Trim(part);
    if !("data:" <= line) then Unusable else
    var raw := Trim(line[5..]);
    if raw == "[DONE]" then Unusable else parse(raw)
  }

  function EventsOf(parts: seq<string>, parse: string -> Event): seq<Event> {
    seq(|parts|, i requires 0 <= i < |parts| => EventOf(parts[i], parse))
  }

  /** Events after an error are not looked at. */
  function Step(p: Progress, e: Event, fallback: string): Progress {
    if p.error.Some? then p else OnEvent(p, e, fallback)
  }

  function OnEvents(p: Progress, es: seq<Event>, fallback: string): Progress {
    if es == [] then p else Step(OnEvents(p, es[..|es| - 1], fallback), es[|es| - 1], fallback)
  }

  datatype Outcome =
    | Image(partials: seq<string>, base64: string, mediaType: string, usage: Usage)
    | Refused(partials: seq<string>, error: ImageError)
    | NoImage(partials: seq<string>, seen: set<string>)

  function OutcomeOf(p: Progress): Outcome {
    match p.error
    case Some(e) => Refused(p.partials, e)
    case None =>
      match p.final
      case Some(b) => Image(p.partials, b, p.mediaType, p.usage)
      case None => NoImage(p.partials, p.seen)
  }

  /** The events of the finished pieces of a text cut at blank lines. */
  function TextEvents(text: string, parse: string -> Event): seq<Event> {
    EventsOf(Closed(text, "\n\n"), parse)
  }

  /** The outcome as a function of the whole text. */
  function WholeOutcome(text: string, parse: string -> Event, fallback: string): Outcome {
    OutcomeOf(OnEvents(START, TextEvents(text, parse), fallback))
  }

  /** The loop over the pieces of one chunk; it leaves at the first error. */
  method ReadParts(start: Progress, parts: seq<string>, parse: string -> Event, fallback: string) returns (p: Progress)
    requires start.error.None?
    ensures p == OnEvents(start, EventsOf(parts, parse), fallback)
  {
    ghost var es := EventsOf(parts, parse);
    p := start;
    for k := 0 to |parts|
      invariant p == OnEvents(start, es[..k], fallback)
      invariant p.error.None?
    {
      assert es[..k + 1][..k] == es[..k];
      p := OnEvent(p, EventOf(parts[k], parse), fallback);
      if p.error.Some? {
        AfterError(start, es[..k + 1], es[k + 1..], fallback);
        assert es == es[..k + 1] + es[k + 1..];
        return;
      }
    }
    assert es[..|parts|] == es;
  }

  method ParseImageStream(chunks: seq<string>, parse: string -> Event, fallback: string) returns (r: Outcome)
    ensures r == WholeOutcome(Concat(chunks), parse, fallback)
  {
    var buffer := "";
    var p := START;
    for c := 0 to |chunks|
      invariant buffer == Open(Concat(chunks[..c]), "\n\n")
      invariant p == OnEvents(START, TextEvents(Concat(chunks[..c]), parse), fallback)
      invariant p.error.None?
    {
      FeedEvents(Concat(chunks[..c]), chunks[c], parse, fallback);
      Extended(chunks, c);
      var pieces := Split(buffer + chunks[c], "\n\n");
      buffer := pieces[|pieces| - 1];
      p := ReadParts(p, pieces[..|pieces| - 1], parse, fallback);
      if p.error.Some? {
        ErrorEnds(chunks, c + 1, parse, fallback);
        return Refused(p.partials, p.error.value);
      }
    }
    assert chunks[..|chunks|] == chunks;
    return OutcomeOf(p);
  }

  lemma Extended(chunks: seq<string>, c: nat)
    requires c < |chunks|
    ensures Concat(chunks[..c + 1]) == Concat(chunks[..c]) + chunks[c]
  {
    assert chunks[..c + 1][..c] == chunks[..c];
  }

  /** What a new chunk does to the buffer: the pieces it closes come after those
      closed before, and the rest stays open. */
  lemma Feed(before: string, chunk: string, sep: string)
    requires sep != ""
    ensures var pieces := Split(Open(before, sep) + chunk, sep);
      && Closed(before + chunk, sep) == Closed(before, sep) + pieces[..|pieces| - 1]
      && Open(before + chunk, sep) == pieces[|pieces| - 1]
  {
    SplitConcat(before, chunk, sep);
  }

  lemma FeedEvents(before: string, chunk: string, parse: string -> Event, fallback: string)
    ensures var pieces := Split(Open(before, "\n\n") + chunk, "\n\n");
      && Open(before + chunk, "\n\n") == pieces[|pieces| - 1]
      && OnEvents(START, TextEvents(before + chunk, parse), fallback)
         == OnEvents(OnEvents(START, TextEvents(before, parse), fallback), EventsOf(pieces[..|pieces| - 1], parse), fallback)
  {
    var pieces := Split(Open(before, "\n\n") + chunk, "\n\n");
    Feed(before, chunk, "\n\n");
    EventsConcat(Closed(before, "\n\n"), pieces[..|pieces| - 1], parse);
    OnEventsConcat(START, TextEvents(before, parse), EventsOf(pieces[..|pieces| - 1], parse), fallback);
  }

  lemma EventsConcat(a: seq<string>, b: seq<string>, parse: string -> Event)
    ensures EventsOf(a + b, parse) == EventsOf(a, parse) + EventsOf(b, parse)
  {
  }

  lemma {:induction false} OnEventsConcat(p: Progress, a: seq<Event>, b: seq<Event>, fallback: string)
    ensures OnEvents(p, a + b, fallback) == OnEvents(OnEvents(p, a, fallback), b, fallback)
  {
    if b == [] {
      assert a + b == a;
    } else {
      OnEventsConcat(p, a, b[..|b| - 1], fallback);
      assert (a + b)[..|a + b| - 1] == a + b[..|b| - 1];
    }
  }

  lemma {:induction false} ErrorStays(p: Progress, es: seq<Event>, fallback: string)
    requires p.error.Some?
    ensures OnEvents(p, es, fallback) == p
  {
    if es != [] { ErrorStays(p, es[..|es| - 1], fallback); }
  }

  lemma AfterError(p: Progress, es: seq<Event>, more: seq<Event>, fallback: string)
    requires OnEvents(p, es, fallback).error.Some?
    ensures OnEvents(p, es + more, fallback) == OnEvents(p, es, fallback)
  {
    OnEventsConcat(p, es, more, fallback);
    ErrorStays(OnEvents(p, es, fallback), more, fallback);
  }

  /** Pieces that are closed stay closed whatever comes later. */
  lemma {:induction false} ClosedGrows(chunks: seq<string>, c: nat, sep: string) returns (more: seq<string>)
    requires c <= |chunks| && sep != ""
    ensures Closed(Concat(chunks), sep) == Closed(Concat(chunks[..c]), sep) + more
    decreases |chunks| - c
  {
    if c == |chunks| {
      assert chunks[..c] == chunks;
      more := [];
    } else {
      var later := ClosedGrows(chunks, c + 1, sep);
      Extended(chunks, c);
      Feed(Concat(chunks[..c]), chunks[c], sep);
      var pieces := Split(Open(Concat(chunks[..c]), sep) + chunks[c], sep);
      more := pieces[..|pieces| - 1] + later;
      Associative(Closed(Concat(chunks[..c]), sep), pieces[..|pieces| - 1], later);
    }
  }

  lemma ErrorEnds(chunks: seq<string>, c: nat, parse: string -> Event, fallback: string)
    requires c <= |chunks|
    requires OnEvents(START, TextEvents(Concat(chunks[..c]), parse), fallback).error.Some?
    ensures WholeOutcome(Concat(chunks), parse, fallback)
         == OutcomeOf(OnEvents(START, TextEvents(Concat(chunks[..c]), parse), fallback))
  {
    var later := ClosedGrows(chunks, c, "\n\n");
    AfterError(START, TextEvents(Concat(chunks[..c]), parse), EventsOf(later, parse), fallback);
    EventsConcat(Closed(Concat(chunks[..c]), "\n\n"), later, parse);
  }

  // ----- what the outcome says about the pieces -----

  predicate IsError(e: Event) { e.Event? && e.kind == "error" }

  predicate IsPartial(e: Event) { e.Event? && e.kind == PARTIAL && e.b64 != "" }

  predicate IsImage(e: Event) { e.Event? && e.kind == COMPLETED && e.b64 != "" }

  /** The pictures of the partial-image events, in order. */
  function Partials(es: seq<Event>): seq<string> {
    if es == [] then [] else
    var e := es[|es| - 1];
    Partials(es[..|es| - 1]) + if IsPartial(e) then [e.b64] else []
  }

  ghost predicate FirstError(es: seq<Event>, k: nat) {
    k < |es| && IsError(es[k]) && forall i | 0 <= i < k :: !IsError(es[i])
  }

  ghost predicate LastImage(es: seq<Event>, k: nat) {
    k < |es| && IsImage(es[k]) && forall i | k < i < |es| :: !IsImage(es[i])
  }

  /** Progress told by the events alone: the first error hides everything after
      it, else the last finished picture counts. */
  ghost predicate Told(p: Progress, es: seq<Event>, fallback: string) {
    match p.error
    case Some(x) =>
      exists k: nat :: FirstError(es, k) && x == ErrorOf(es[k], fallback) && p.partials == Partials(es[..k])
    case None =>
      && (forall i | 0 <= i < |es| :: !IsError(es[i])) && p.partials == Partials(es)
      && (p.final.None? ==> forall i | 0 <= i < |es| :: !IsImage(es[i]))
      && (p.final.Some? ==> exists k: nat :: LastImage(es, k) && Shows(p, es[k]))
  }

  predicate Shows(p: Progress, e: Event) {
    && e.Event? && p.final == Some(e.b64)
    && p.mediaType == GetOr(e.mediaType, "image/png") && p.usage == UsageOf(e.usage)
  }

  lemma {:induction false} ProgressTold(es: seq<Event>, fallback: string)
    ensures Told(OnEvents(START, es, fallback), es, fallback)
  {
    if es != [] {
      ProgressTold(es[..|es| - 1], fallback);
      ToldStep(OnEvents(START, es[..|es| - 1], fallback), es[..|es| - 1], es[|es| - 1], fallback);
      assert es == es[..|es| - 1] + [es[|es| - 1]];
    }
  }

  lemma ToldStep(p: Progress, es: seq<Event>, e: Event, fallback: string)
    requires Told(p, es, fallback)
    ensures Told(Step(p, e, fallback), es + [e], fallback)
  {
    var q, fs := Step(p, e, fallback), es + [e];
    if p.error.Some? {
      var k: nat :| FirstError(es, k) && p.error.value == ErrorOf(es[k], fallback) && p.partials == Partials(es[..k]);
      assert fs[..k] == es[..k];
      assert FirstError(fs, k);
    } else if IsError(e) {
      assert fs[..|es|] == es;
      assert FirstError(fs, |es|);
    } else {
      assert fs[..|es|] == es;
      NoErrorStep(p, es, e, fallback);
    }
  }

  lemma NoErrorStep(p: Progress, es: seq<Event>, e: Event, fallback: string)
    requires Told(p, es, fallback) && p.error.None? && !IsError(e)
    ensures var q, fs := Step(p, e, fallback), es + [e];
      && (q.final.None? ==> forall i | 0 <= i < |fs| :: !IsImage(fs[i]))
      && (q.final.Some? ==> exists k: nat :: LastImage(fs, k) && Shows(q, fs[k]))
  {
    var q, fs := Step(p, e, fallback), es + [e];
    if IsImage(e) {
      assert LastImage(fs, |es|) && Shows(q, e);
    } else if p.final.Some? {
      var k: nat :| LastImage(es, k) && Shows(p, es[k]);
      assert LastImage(fs, k) && Shows(q, fs[k]);
    }
  }

  /** The kinds of the events. */
  function Kinds(es: seq<Event>): set<string> { set i | 0 <= i < |es| && es[i].Event? && es[i].kind != "" :: es[i].kind }

  lemma {:induction false} SeenAreKinds(es: seq<Event>, fallback: string)
    requires forall i | 0 <= i < |es| :: !IsError(es[i])
    ensures OnEvents(START, es, fallback).seen == Kinds(es) && OnEvents(START, es, fallback).error.None?
  {
    if es != [] {
      hide ErrorOf, UsageOf;
      var n := |es| - 1;
      SeenAreKinds(es[..n], fallback);
      KindsNext(es);
    }
  }

  lemma KindsNext(es: seq<Event>)
    requires es != []
    ensures var n := |es| - 1;
      Kinds(es) == Kinds(es[..n]) + if es[n].Event? && es[n].kind != "" then {es[n].kind} else {}
  {
    var n := |es| - 1;
    forall x | x in Kinds(es) ensures x in Kinds(es[..n]) || (es[n].Event? && x == es[n].kind) {
      var i :| 0 <= i < |es| && es[i].Event? && es[i].kind != "" && es[i].kind == x;
      if i < n { assert es[..n][i] == es[i]; }
    }
    forall x | x in Kinds(es[..n]) ensures x in Kinds(es) {
      var i :| 0 <= i < n && es[..n][i].Event? && es[..n][i].kind != "" && es[..n][i].kind == x;
      assert es[i].kind == x;
    }
    if es[n].Event? && es[n].kind != "" { assert es[n].kind in Kinds(es); }
  }

  /** The outcome told by the events alone: the first error with the pictures before it; else the last finished
      picture; else the kinds that were seen. */
  ghost predicate Tells(r: Outcome, es: seq<Event>, fallback: string) {
    match r
    case Refused(ps, x) =>
      exists k: nat :: FirstError(es, k) && x == ErrorOf(es[k], fallback) && ps == Partials(es[..k])
    case Image(ps, b, m, u) =>
      && (forall i | 0 <= i < |es| :: !IsError(es[i])) && ps == Partials(es)
      && exists k: nat :: LastImage(es, k) && b == es[k].b64 && m == GetOr(es[k].mediaType, "image/png") && u == UsageOf(es[k].usage)
    case NoImage(ps, seen) =>
      && (forall i | 0 <= i < |es| :: !IsError(es[i]) && !IsImage(es[i])) && ps == Partials(es) && seen == Kinds(es)
  }

  lemma OutcomeTold(text: string, parse: string -> Event, fallback: string)
    ensures Tells(WholeOutcome(text, parse, fallback), TextEvents(text, parse), fallback)
  {
    hide ErrorOf, UsageOf, TextEvents, Kinds, OnEvents;
    var es := TextEvents(text, parse);
    var p := OnEvents(START, es, fallback);
    ProgressTold(es, fallback);
    if p.error.None? {
      SeenAreKinds(es, fallback);
      if p.final.Some? {
        var k: nat :| LastImage(es, k) && Shows(p, es[k]);
        assert LastImage(es, k) && p.final.value == es[k].b64;
      }
    }
  }

  // ----- a stream as it is written -----

  /** The data of an event: one line of text. */
  predicate Payload(d: string) { Tight(d) && Lacks(d, '\n') }

  /** Events as a server writes them. */
  function Served(ds: seq<string>): string {
    if ds == [] then "" else Served(ds[..|ds| - 1]) + ("data: " + ds[|ds| - 1] + "\n\n")
  }

  /** A `data:` line with any white space around its parts is read to its data; the end mark says nothing. */
  lemma DataIsRead(a: string, b: string, d: string, c: string, parse: string -> Event)
    requires AllSpaces(a) && AllSpaces(b) && AllSpaces(c) && Tight(d)
    ensures EventOf(a + ("data:" + b + d) + c, parse) == if d == "[DONE]" then Unusable else parse(d)
  {
    hide Trim;
    var line := "data:" + b + d;
    assert Tight(line) by { assert line[|line| - 1] == d[|d| - 1]; }
    TrimGoes(a, line, c);
    assert line[5..] == b + d + "";
    TrimGoes(b, d, "");
  }

  /** A line that begins otherwise says nothing, a comment of the stream for one. */
  lemma OtherLinesSayNothing(line: string, parse: string -> Event)
    requires Tight(line) && line[0] != 'd'
    ensures EventOf(line, parse) == Unusable
  {
    hide Trim;
    TrimGoes("", line, "");
    assert "" + line + "" == line;
  }

  lemma PieceSplits(d: string)
    requires Lacks(d, '\n')
    ensures Split("data: " + d + "\n\n", "\n\n") == ["data: " + d, ""]
  {
    var parts := ["data: " + d, ""];
    assert Lacks("data: " + d, '\n');
    LacksFind("data: " + d, "\n\n");
    LacksFind("", "\n\n");
    assert parts[1..] == [""];
    JoinSplit(parts, "\n\n");
    assert Join(parts, "\n\n") == "data: " + d + "\n\n";
  }

  lemma {:induction false} ServedSplits(ds: seq<string>)
    requires forall i | 0 <= i < |ds| :: Payload(ds[i])
    ensures Closed(Served(ds), "\n\n") == seq(|ds|, i requires 0 <= i < |ds| => "data: " + ds[i])
    ensures Open(Served(ds), "\n\n") == ""
  {
    hide Split, Closed, Open, Served;
    if ds == [] {
      NothingServed();
    } else {
      var n := |ds| - 1;
      ServedSplits(ds[..n]);
      PieceSplits(ds[n]);
      ServedNext(ds);
      Feed(Served(ds[..n]), "data: " + ds[n] + "\n\n", "\n\n");
      assert "" + ("data: " + ds[n] + "\n\n") == "data: " + ds[n] + "\n\n";
      assert ["data: " + ds[n], ""][..1] == ["data: " + ds[n]];
    }
  }

  lemma NothingServed()
    ensures Closed(Served([]), "\n\n") == [] && Open(Served([]), "\n\n") == ""
  {
    LacksFind("", "\n\n");
  }

  lemma ServedNext(ds: seq<string>)
    requires ds != []
    ensures Served(ds) == Served(ds[..|ds| - 1]) + ("data: " + ds[|ds| - 1] + "\n\n")
  {
  }

  /** What a server writes is read back event by event, however it is cut into chunks. */
  lemma ServedReadBack(ds: seq<string>, parse: string -> Event, k: nat)
    requires (forall i | 0 <= i < |ds| :: Payload(ds[i])) && k < |ds|
    ensures |TextEvents(Served(ds), parse)| == |ds|
    ensures TextEvents(Served(ds), parse)[k] == if ds[k] == "[DONE]" then Unusable else parse(ds[k])
  {
    hide Closed, Open, EventOf, Served;
    ServedSplits(ds);
    DataIsRead("", " ", ds[k], "", parse);
    assert "" + ("data:" + " " + ds[k]) + "" == "data: " + ds[k];
  }

  /** The usage of both providers: token details and a total, or a prompt, a completion and a cost in dollars. */
  lemma UsageTold(text: int, image: int, output: int, prompt: int, completion: int, micros: int)
    ensures UsageOf(UsageFields(Some(text), Some(image), Some(output), None, None, None)) == Usage(text, image, output, None)
    ensures UsageOf(UsageFields(None, None, None, Some(prompt), Some(completion), Some(micros as real / 1_000_000.0)))
         == Usage(prompt, 0, completion, Some(micros))
    ensures UsageOf(UsageFields(None, None, None, None, None, None)) == Usage(0, 0, 0, None)
  {
  }

  // ----- ffmpeg progress -----

  /** `\d+(?:\.\d+)?` at the start of a text. */
  function ReadDecimal(s: string): Option<real> {
    var n := DigitRun(s);
    if n == 0 then None
    else if n < |s| && s[n] == '.' && DigitRun(s[n + 1..]) > 0 then
      Some(Decimal(s[..n], s[n + 1..][..DigitRun(s[n + 1..])]))
    else Some(Decimal(s[..n], ""))
  }

  /** `\d+:` at the start of a text: the number and what follows. */
  function ReadField(s: string): Option<(nat, string)> {
    var n := DigitRun(s);
    if 0 < n < |s| && s[n] == ':' then Some((Number(Digits(s[..n])), s[n + 1..])) else None
  }

  function ClockTime(s: string): Option<real> {
    match ReadField(s)
    case None => None
    case Some((h, rest)) =>
      match ReadField(rest)
      case None => None
      case Some((m, tail)) =>
        match ReadDecimal(tail)
        case None => None
        case Some(sec) => Some((h * 3600 + m * 60) as real + sec)
  }

  /** The seconds of an `out_time=h:m:s` line. */
  function OutTime(line: string): Option<real> {
    if "out_time=" <= line then ClockTime(line[9..]) else None
  }

  function Percent(sec: real, duration: real): int
    requires duration > 0.0
  {
    Min(99, Max(0, Round(sec / duration * 100.0)))
  }

  /** The percentages that a list of complete lines reports. */
  function Reports(lines: seq<string>, duration: real): seq<int>
    requires duration > 0.0
  {
    if lines == [] then [] else
    var before, last := Reports(lines[..|lines| - 1], duration), OutTime(lines[|lines| - 1]);
    if last.Some? then before + [Percent(last.value, duration)] else before
  }

  method ReportLines(lines: seq<string>, duration: real) returns (reported: seq<int>)
    requires duration > 0.0
    ensures reported == Reports(lines, duration)
  {
    reported := [];
    for k := 0 to |lines|
      invariant reported == Reports(lines[..k], duration)
    {
      assert lines[..k + 1][..k] == lines[..k];
      var sec := OutTime(lines[k]);
      if sec.Some? {
        reported := reported + [Percent(sec.value, duration)];
      }
    }
    assert lines[..|lines|] == lines;
  }

  /** The listener on the output of ffmpeg: one `data` event per chunk. */
  method ReadProgress(chunks: seq<string>, duration: real) returns (reported: seq<int>)
    requires duration > 0.0
    ensures reported == Reports(Closed(Concat(chunks), "\n"), duration)
  {
    var buf := "";
    reported := [];
    for c := 0 to |chunks|
      invariant buf == Open(Concat(chunks[..c]), "\n")
      invariant reported == Reports(Closed(Concat(chunks[..c]), "\n"), duration)
    {
      Extended(chunks, c);
      Feed(Concat(chunks[..c]), chunks[c], "\n");
      var pieces := Split(buf + chunks[c], "\n");
      var lines := pieces[..|pieces| - 1];
      ReportsConcat(Closed(Concat(chunks[..c]), "\n"), lines, duration);
      buf := pieces[|pieces| - 1];
      var news := ReportLines(lines, duration);
      reported := reported + news;
    }
    assert chunks[..|chunks|] == chunks;
  }

  lemma {:induction false} ReportsConcat(a: seq<string>, b: seq<string>, duration: real)
    requires duration > 0.0
    ensures Reports(a + b, duration) == Reports(a, duration) + Reports(b, duration)
  {
    hide OutTime, Percent;
    if b == [] {
      assert a + b == a;
    } else {
      ReportsConcat(a, b[..|b| - 1], duration);
      assert (a + b)[..|a + b| - 1] == a + b[..|b| - 1];
    }
  }

  lemma FieldReadBack(field: string, rest: string)
    requires field != "" && AllDigits(field)
    ensures ReadField(field + (":" + rest)) == Some((Number(Digits(field)), rest))
  {
    DigitRunAll(field, ":" + rest);
    assert (field + (":" + rest))[..|field|] == field;
    assert (field + (":" + rest))[|field| + 1..] == rest;
  }

  /** Seconds as ffmpeg prints them: whole, or with a dot and a fraction. */
  function DecimalText(whole: string, fraction: string): string {
    if fraction == "" then whole else whole + ("." + fraction)
  }

  /** Seconds are read up to where they end. */
  lemma DecimalReadBack(whole: string, fraction: string, rest: string)
    requires whole != "" && AllDigits(whole) && AllDigits(fraction)
    requires rest == "" || !IsDigit(rest[0])
    requires fraction == "" ==> !(|rest| > 1 && rest[0] == '.' && IsDigit(rest[1]))
    ensures ReadDecimal(DecimalText(whole, fraction) + rest) == Some(Decimal(whole, fraction))
  {
    if fraction == "" { WholeReadBack(whole, rest); } else { FractionReadBack(whole, fraction, rest); }
  }

  lemma WholeReadBack(whole: string, rest: string)
    requires whole != "" && AllDigits(whole)
    requires rest == "" || !IsDigit(rest[0])
    requires !(|rest| > 1 && rest[0] == '.' && IsDigit(rest[1]))
    ensures ReadDecimal(whole + rest) == Some(Decimal(whole, ""))
  {
    hide Decimal, DigitRun, AllDigits;
    var s := whole + rest;
    DigitRunAll(whole, rest);
    assert s[..|whole|] == whole;
    if rest != "" && rest[0] == '.' {
      assert s[|whole| + 1..] == rest[1..];
      NoDigitRun(rest[1..]);
    }
  }

  lemma NoDigitRun(s: string)
    requires s == "" || !IsDigit(s[0])
    ensures DigitRun(s) == 0
  {
  }

  lemma FractionReadBack(whole: string, fraction: string, rest: string)
    requires whole != "" && fraction != "" && AllDigits(whole) && AllDigits(fraction)
    requires rest == "" || !IsDigit(rest[0])
    ensures ReadDecimal(whole + ("." + fraction) + rest) == Some(Decimal(whole, fraction))
  {
    hide ReadDecimal, Decimal, DigitRun, AllDigits;
    var tail := "." + (fraction + rest);
    assert whole + ("." + fraction) + rest == whole + tail;
    assert tail[1..] == fraction + rest;
    DigitRunAll(whole, tail);
    DigitRunAll(fraction, rest);
    FractionAt(whole, tail, fraction);
  }

  lemma FractionAt(whole: string, tail: string, fraction: string)
    requires whole != "" && DigitRun(whole + tail) == |whole| && tail != "" && tail[0] == '.'
    requires fraction != "" && DigitRun(tail[1..]) == |fraction| && tail[1..][..|fraction|] == fraction
    ensures ReadDecimal(whole + tail) == Some(Decimal(whole, fraction))
  {
    hide Decimal, DigitRun;
    var s := whole + tail;
    assert s[..|whole|] == whole && s[|whole| + 1..] == tail[1..];
  }

  /** A progress line is read as the hours, minutes and seconds it shows. */
  lemma OutTimeReadBack(h: string, m: string, tail: string)
    requires h != "" && AllDigits(h) && m != "" && AllDigits(m) && ReadDecimal(tail).Some?
    ensures OutTime("out_time=" + (h + (":" + (m + (":" + tail)))))
         == Some((Number(Digits(h)) * 3600 + Number(Digits(m)) * 60) as real + ReadDecimal(tail).value)
  {
    ClockReadBack(h, m, tail);
    Prefixed(h + (":" + (m + (":" + tail))));
  }

  /** The shape of a line that reports a time. */
  ghost predicate TimeLine(line: string, h: string, m: string, tail: string) {
    && h != "" && AllDigits(h) && m != "" && AllDigits(m) && tail != "" && IsDigit(tail[0])
    && line == "out_time=" + (h + (":" + (m + (":" + tail))))
  }

  /** Only such a line reports a time. */
  lemma OutTimeShape(line: string) returns (h: string, m: string, tail: string)
    requires OutTime(line).Some?
    ensures TimeLine(line, h, m, tail)
  {
    hide ReadField, ReadDecimal;
    var s := line[9..];
    assert line == "out_time=" + s;
    var rest;
    h, rest := FieldShape(s);
    m, tail := FieldShape(rest);
    DecimalShape(tail);
  }

  lemma FieldShape(s: string) returns (field: string, rest: string)
    requires ReadField(s).Some?
    ensures field != "" && AllDigits(field) && s == field + (":" + rest) && rest == ReadField(s).value.1
  {
    var n := DigitRun(s);
    field, rest := s[..n], s[n + 1..];
    assert s == s[..n] + ([s[n]] + s[n + 1..]);
  }

  lemma DecimalShape(s: string)
    ensures ReadDecimal(s).Some? <==> s != "" && IsDigit(s[0])
  {
  }

  /** In a list of lines, a line that shows a time gives one report, in its place. */
  lemma TimeIsReported(before: seq<string>, h: string, m: string, tail: string, after: seq<string>, duration: real)
    requires duration > 0.0 && h != "" && AllDigits(h) && m != "" && AllDigits(m) && ReadDecimal(tail).Some?
    ensures var line := "out_time=" + (h + (":" + (m + (":" + tail))));
      Reports(before + ([line] + after), duration)
        == Reports(before, duration)
           + ([Percent((Number(Digits(h)) * 3600 + Number(Digits(m)) * 60) as real + ReadDecimal(tail).value, duration)]
              + Reports(after, duration))
  {
    hide OutTime, Percent, Number, Digits, ReadDecimal, Reports;
    var line := "out_time=" + (h + (":" + (m + (":" + tail))));
    OutTimeReadBack(h, m, tail);
    Surrounded(before, line, after, duration);
  }

  /** Every other line gives none. */
  lemma OtherLinesAreSilent(before: seq<string>, line: string, after: seq<string>, duration: real)
    requires duration > 0.0 && forall h, m, tail :: !TimeLine(line, h, m, tail)
    ensures Reports(before + ([line] + after), duration) == Reports(before, duration) + Reports(after, duration)
  {
    hide OutTime, Percent, TimeLine, Reports;
    if OutTime(line).Some? {
      var h, m, tail := OutTimeShape(line);
      assert false;
    }
    Surrounded(before, line, after, duration);
    assert [] + Reports(after, duration) == Reports(after, duration);
  }

  lemma Surrounded(before: seq<string>, line: string, after: seq<string>, duration: real)
    requires duration > 0.0
    ensures Reports(before + ([line] + after), duration)
         == Reports(before, duration)
            + ((if OutTime(line).Some? then [Percent(OutTime(line).value, duration)] else []) + Reports(after, duration))
  {
    hide OutTime, Percent, Reports;
    ReportsConcat([line], after, duration);
    ReportsConcat(before, [line] + after, duration);
    OneReport(line, duration);
  }

  lemma OneReport(line: string, duration: real)
    requires duration > 0.0
    ensures Reports([line], duration) == if OutTime(line).Some? then [Percent(OutTime(line).value, duration)] else []
  {
    hide OutTime, Percent;
    assert [line][..0] == [];
  }

  lemma Prefixed(clock: string)
    ensures OutTime("out_time=" + clock) == ClockTime(clock)
  {
    assert ("out_time=" + clock)[9..] == clock;
  }

  lemma ClockReadBack(h: string, m: string, tail: string)
    requires h != "" && AllDigits(h) && m != "" && AllDigits(m) && ReadDecimal(tail).Some?
    ensures ClockTime(h + (":" + (m + (":" + tail))))
         == Some((Number(Digits(h)) * 3600 + Number(Digits(m)) * 60) as real + ReadDecimal(tail).value)
  {
    FieldReadBack(m, tail);
    FieldReadBack(h, m + (":" + tail));
  }

  /** Reports lie in 0..99 and never fall while the reported time grows. */
  lemma PercentInOrder(a: real, b: real, duration: real)
    requires duration > 0.0 && a <= b
    ensures 0 <= Percent(a, duration) <= Percent(b, duration) <= 99
    ensures 0.0 <= 100.0 * a <= 99.0 * duration ==>
      (2 * Percent(a, duration) - 1) as real * duration <= 200.0 * a < (2 * Percent(a, duration) + 1) as real * duration
  {
    Scaled(a, b, duration);
    if 0.0 <= 100.0 * a <= 99.0 * duration { PercentNear(a, duration); }
  }

  lemma PercentNear(a: real, duration: real)
    requires duration > 0.0 && 0.0 <= 100.0 * a <= 99.0 * duration
    ensures (2 * Percent(a, duration) - 1) as real * duration <= 200.0 * a < (2 * Percent(a, duration) + 1) as real * duration
  {
    var x := a / duration * 100.0;
    assert x * duration == 100.0 * a;
    Bounds(x, duration);
    PercentIs(a, duration, x);
    hide Percent;
    TimesBounds(x, Percent(a, duration), duration, 200.0 * a);
  }

  lemma PercentIs(a: real, duration: real, x: real)
    requires duration > 0.0 && x == a / duration * 100.0 && 0.0 <= x <= 99.0
    ensures Percent(a, duration) == Round(x)
  {
  }

  lemma Bounds(x: real, d: real)
    requires d > 0.0 && 0.0 <= x * d <= 99.0 * d
    ensures 0.0 <= x <= 99.0
  {
    Signed(x, d);
    Signed(99.0 - x, d);
    assert (99.0 - x) * d == 99.0 * d - x * d;
  }

  lemma Signed(x: real, d: real)
    requires d > 0.0
    ensures x * d >= 0.0 <==> x >= 0.0
  {
  }

  lemma TimesBounds(x: real, r: int, d: real, y: real)
    requires d > 0.0 && r as real <= x + 0.5 < r as real + 1.0 && y == 2.0 * (x * d)
    ensures (2 * r - 1) as real * d <= y < (2 * r + 1) as real * d
  {
    var low, high := 2.0 * x - (2 * r - 1) as real, (2 * r + 1) as real - 2.0 * x;
    Product(low, d);
    Product(high, d);
    assert low * d == 2.0 * (x * d) - (2 * r - 1) as real * d;
    assert high * d == (2 * r + 1) as real * d - 2.0 * (x * d);
  }

  lemma Product(x: real, d: real)
    requires d > 0.0 && x >= 0.0
    ensures x * d >= 0.0 && (x > 0.0 ==> x * d > 0.0)
  {
  }

  lemma Scaled(a: real, b: real, d: real)
    requires d > 0.0 && a <= b
    ensures a / d <= b / d
  {
    assert b / d - a / d == (b - a) / d;
  }
}
