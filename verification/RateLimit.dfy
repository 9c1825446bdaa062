/** The fixed-window limits on one-time codes of buyer-otp-limit.ts, over all runs of
    attempts whose `INCR` and `EXPIRE` calls interleave and may never come. */
module RateLimit {
  import opened JsText

  datatype Key = Phone(phone: string) | Ip(ip: string) | StorePhone(store: string, number: string)

  /** The Redis key. */
  function KeyText(k: Key): string {
    match k
    case Phone(p) => "shopBuyerOtp:global:phone:" + p
    case Ip(ip) => "shopBuyerOtp:global:ip:" + ip
    case StorePhone(s, p) => "shopBuyerOtp:rate:" + (s + (":" + p))
  }

  function Window(k: Key): int { if k.StorePhone? then 600_000 else 3_600_000 }

  function Limit(k: Key): nat {
    match k
    case Phone(_) => 5
    case Ip(_) => 20
    case StorePhone(_, _) => 3
  }

  /** A counter, when it was made (for the proof), and when it expires, if it does. */
  datatype Counter = Counter(count: nat, first: int, expires: Option<int>)

  type Counters = map<Key, Counter>

  predicate Alive(cs: Counters, k: Key, now: int) {
    k in cs && (cs[k].expires.Some? ==> now < cs[k].expires.value)
  }

  function Incr(cs: Counters, k: Key, now: int): Counters {
    cs[k := if Alive(cs, k, now) then cs[k].(count := cs[k].count + 1) else Counter(1, now, None)]
  }

  function Expire(cs: Counters, k: Key, now: int): Counters {
    if Alive(cs, k, now) then cs[k := cs[k].(expires := Some(now + Window(k)))] else cs
  }

  predicate Over(cs: Counters, k: Key) { k in cs && cs[k].count > Limit(k) }

  datatype Block = ByPhone | ByIp | ByStore

  datatype Attempt = Attempt(id: nat, store: string, phone: string, ip: Option<string>)

  /** The keys of an attempt in the order of the checks. */
  function KeysOf(a: Attempt): seq<Key> {
    [Phone(a.phone)] + (if a.ip.Some? && a.ip.value != "" then [Ip(a.ip.value)] else []) + [StorePhone(a.store, a.phone)]
  }

  // ----- one attempt that nothing disturbs -----

  /** One call of `overLimit`. */
  function CheckOne(cs: Counters, k: Key, now: int): (r: Counters)
    ensures k in r && Over(r, k) == Over(Incr(cs, k, now), k)
  {
    var cs' := Incr(cs, k, now);
    if cs'[k].count == 1 then Expire(cs', k, now) else cs'
  }

  /** The counters after the checks, and the key that blocked, if one did. */
  datatype Checked = Checked(counters: Counters, blocked: Option<Key>)

  function Check(cs: Counters, ks: seq<Key>, now: int): Checked
    decreases |ks|
  {
    if ks == [] then Checked(cs, None) else
    var cs' := CheckOne(cs, ks[0], now);
    if Over(cs', ks[0]) then Checked(cs', Some(ks[0])) else Check(cs', ks[1..], now)
  }

  function BlockOf(k: Option<Key>): Option<Block> {
    match k
    case None => None
    case Some(Phone(_)) => Some(ByPhone)
    case Some(Ip(_)) => Some(ByIp)
    case Some(StorePhone(_, _)) => Some(ByStore)
  }

  class Limiter {
    var counters: Counters

    constructor ()
      ensures counters == map[]
    {
      counters := map[];
    }

    method OverLimit(k: Key, max: nat, now: int) returns (over: bool)
      requires max == Limit(k)
      modifies this
      ensures counters == CheckOne(old(counters), k, now) && over == Over(counters, k)
    {
      counters := Incr(counters, k, now);
      var count := counters[k].count;
      if count == 1 { counters := Expire(counters, k, now); }
      return count > max;
    }

    /** Over the phone limit the other counters are not touched, and so on. */
    method BuyerOtpSendBlock(a: Attempt, now: int) returns (block: Option<Block>)
      modifies this
      ensures var c := Check(old(counters), KeysOf(a), now);
        counters == c.counters && block == BlockOf(c.blocked)
        && (block == Some(ByPhone) <==> c.blocked == Some(Phone(a.phone)))
        && (block == Some(ByIp) <==> a.ip.Some? && c.blocked == Some(Ip(a.ip.value)))
        && (block == Some(ByStore) <==> c.blocked == Some(StorePhone(a.store, a.phone)))
    {
      hide CheckOne, Over;
      ChecksInOrder(counters, a, now);
      var over := OverLimit(Phone(a.phone), 5, now);
      if over { return Some(ByPhone); }
      if a.ip.Some? && a.ip.value != "" {
        over := OverLimit(Ip(a.ip.value), 20, now);
        if over { return Some(ByIp); }
      }
      over := OverLimit(StorePhone(a.store, a.phone), 3, now);
      if over { return Some(ByStore); }
      return None;
    }
  }

  lemma ChecksInOrder(cs: Counters, a: Attempt, now: int)
    ensures var p, i, s := Phone(a.phone), if a.ip.Some? then Ip(a.ip.value) else Ip(""), StorePhone(a.store, a.phone);
      var cs1 := CheckOne(cs, p, now);
      var withIp := a.ip.Some? && a.ip.value != "";
      var cs2 := if withIp then CheckOne(cs1, i, now) else cs1;
      var cs3 := CheckOne(cs2, s, now);
      Check(cs, KeysOf(a), now) ==
        if Over(cs1, p) then Checked(cs1, Some(p))
        else if withIp && Over(cs2, i) then Checked(cs2, Some(i))
        else Checked(cs3, if Over(cs3, s) then Some(s) else None)
  {
    hide CheckOne, Over;
    var p, s := Phone(a.phone), StorePhone(a.store, a.phone);
    var cs1 := CheckOne(cs, p, now);
    LastCheck(cs1, s, now);
    if a.ip.Some? && a.ip.value != "" {
      var i := Ip(a.ip.value);
      assert KeysOf(a) == [p, i, s] && [p, i, s][1..] == [i, s] && [i, s][1..] == [s];
      LastCheck(CheckOne(cs1, i, now), s, now);
    } else {
      assert KeysOf(a) == [p, s] && [p, s][1..] == [s];
    }
  }

  lemma LastCheck(cs: Counters, k: Key, now: int)
    ensures Check(cs, [k], now) == Checked(CheckOne(cs, k, now), if Over(CheckOne(cs, k, now), k) then Some(k) else None)
  {
    hide CheckOne, Over;
    assert [k][1..] == [];
  }

  // ----- different keys have different texts -----

  lemma LastColon(a: string, b: string, c: string, d: string)
    requires Lacks(b, ':') && Lacks(d, ':') && a + (":" + b) == c + (":" + d)
    ensures a == c && b == d
  {
    var s, t := a + (":" + b), c + (":" + d);
    assert s[|a|] == ':' && t[|c|] == ':';
    NotBehind(a, b, c, d);
    NotBehind(c, d, a, b);
    assert a == s[..|a|] && c == t[..|c|] && b == s[|a| + 1..] && d == t[|c| + 1..];
  }

  lemma NotBehind(a: string, b: string, c: string, d: string)
    requires Lacks(b, ':') && a + (":" + b) == c + (":" + d)
    ensures |a| >= |c|
  {
    var s := a + (":" + b);
    forall i | |a| < i < |s| ensures s[i] != ':' { assert s[i] == b[i - |a| - 1]; }
    assert (c + (":" + d))[|c|] == ':';
  }

  function Prefix(k: Key): string {
    match k
    case Phone(_) => "shopBuyerOtp:global:phone:"
    case Ip(_) => "shopBuyerOtp:global:ip:"
    case StorePhone(_, _) => "shopBuyerOtp:rate:"
  }

  predicate NoColon(k: Key) {
    match k
    case Phone(p) => Lacks(p, ':')
    case Ip(_) => true
    case StorePhone(_, p) => Lacks(p, ':')
  }

  lemma Kinds(a: Key, b: Key)
    requires KeyText(a) == KeyText(b)
    ensures a.Phone? == b.Phone? && a.Ip? == b.Ip?
  {
    var s, t := KeyText(a), KeyText(b);
    assert Prefix(a) <= s && Prefix(b) <= t;
    assert s[13] == Prefix(a)[13] && t[13] == Prefix(b)[13];
    if !a.StorePhone? && !b.StorePhone? { assert s[20] == Prefix(a)[20] && t[20] == Prefix(b)[20]; }
  }

  /** Counters are never shared: phone numbers carry no colon. */
  lemma KeyTextUnique(a: Key, b: Key)
    requires NoColon(a) && NoColon(b)
    ensures KeyText(a) == KeyText(b) <==> a == b
  {
    if KeyText(a) == KeyText(b) {
      Kinds(a, b);
      var n := |Prefix(a)|;
      assert KeyText(a)[n..] == KeyText(b)[n..];
      match a
      case Phone(p) => assert KeyText(a)[n..] == p && KeyText(b)[n..] == b.phone;
      case Ip(ip) => assert KeyText(a)[n..] == ip && KeyText(b)[n..] == b.ip;
      case StorePhone(s, p) =>
        assert KeyText(a)[n..] == s + (":" + p) && KeyText(b)[n..] == b.store + (":" + b.number);
        LastColon(s, p, b.store, b.number);
    }
  }

  // ----- runs -----

  /** Where an attempt is: in its checks, before the `EXPIRE` of a new counter, or at its end. */
  datatype Stage = Checking | Expiring | Blocked | Failed | Sent(at: int)

  /** `next` checks are passed, and `passed` says when. */
  datatype Progress = Progress(next: nat, passed: map<Key, int>, stage: Stage)

  datatype State = State(now: int, counters: Counters, attempts: map<Attempt, Progress>) {
    function Of(a: Attempt): Progress { if a in attempts then attempts[a] else Progress(0, map[], Checking) }

    function Put(a: Attempt, p: Progress): State { this.(attempts := attempts[a := p]) }
  }

  const INIT := State(0, map[], map[])

  /** Redis calls of all attempts in any order; an attempt may fail at any time. */
  datatype Step = Tick(ms: nat) | DoIncr(a: Attempt) | DoExpire(a: Attempt) | Return(a: Attempt) | Abort(a: Attempt)

  predicate Enabled(s: State, step: Step) {
    match step
    case Tick(_) => true
    case DoIncr(a) => s.Of(a).stage.Checking? && s.Of(a).next < |KeysOf(a)|
    case DoExpire(a) => s.Of(a).stage.Expiring? && 0 < s.Of(a).next <= |KeysOf(a)|
    case Return(a) => s.Of(a).stage.Checking? && s.Of(a).next == |KeysOf(a)|
    case Abort(a) => s.Of(a).stage.Checking? || s.Of(a).stage.Expiring?
  }

  function Apply(s: State, step: Step): State
    requires Enabled(s, step)
  {
    match step
    case Tick(ms) => s.(now := s.now + ms)
    case DoIncr(a) => ApplyIncr(s, a)
    case DoExpire(a) =>
      s.Put(a, s.Of(a).(stage := Checking)).(counters := Expire(s.counters, KeysOf(a)[s.Of(a).next - 1], s.now))
    case Return(a) => s.Put(a, s.Of(a).(stage := Sent(s.now)))
    case Abort(a) => s.Put(a, s.Of(a).(stage := Failed))
  }

  function ApplyIncr(s: State, a: Attempt): State
    requires s.Of(a).next < |KeysOf(a)|
  {
    var p := s.Of(a);
    var k := KeysOf(a)[p.next];
    var cs := Incr(s.counters, k, s.now);
    var p' := if Over(cs, k) then p.(stage := Blocked)
      else Progress(p.next + 1, p.passed[k := s.now], if cs[k].count == 1 then Expiring else Checking);
    s.Put(a, p').(counters := cs)
  }

  predicate Possible(s: State, steps: seq<Step>)
    decreases |steps|
  {
    steps == [] || (Enabled(s, steps[0]) && Possible(Apply(s, steps[0]), steps[1..]))
  }

  function Run(s: State, steps: seq<Step>): State
    requires Possible(s, steps)
    decreases |steps|
  {
    if steps == [] then s else Run(Apply(s, steps[0]), steps[1..])
  }

  lemma {:induction false} RunConcat(s: State, a: seq<Step>, b: seq<Step>)
    requires Possible(s, a) && Possible(Run(s, a), b)
    ensures Possible(s, a + b) && Run(s, a + b) == Run(Run(s, a), b)
    decreases |a|
  {
    if a == [] {
      assert a + b == b;
    } else {
      hide Apply, Enabled;
      RunConcat(Apply(s, a[0]), a[1..], b);
      assert (a + b)[1..] == a[1..] + b;
    }
  }

  lemma RunOne(s: State, step: Step)
    requires Enabled(s, step)
    ensures Possible(s, [step]) && Run(s, [step]) == Apply(s, step)
  {
    hide Apply, Enabled;
    assert [step][1..] == [];
  }

  /** The attempts that passed the check of `k` in the time from `lo` up to, not including, `hi`. */
  function Passers(s: State, k: Key, lo: int, hi: int): set<Attempt> {
    set a | a in s.attempts && k in s.attempts[a].passed && lo <= s.attempts[a].passed[k] < hi
  }

  function Passes(s: State, k: Key, lo: int, hi: int): nat { |Passers(s, k, lo, hi)| }

  // ----- what every run keeps -----

  /** Nothing has passed in the future. */
  ghost predicate Timely(s: State) {
    forall a, k | a in s.attempts && k in s.attempts[a].passed :: s.attempts[a].passed[k] <= s.now
  }

  /** The promise: a span as long as the window holds less than twice the limit. */
  ghost predicate SpanOk(s: State, k: Key, lo: int) { Passes(s, k, lo, lo + Window(k)) < 2 * Limit(k) }

  ghost predicate BelowTwice(s: State, k: Key) { forall lo: int :: SpanOk(s, k, lo) }

  /** The life of the present counter of `k` holds no more passes than it counted and its
      limit say, one less after its first moment, none after its end, and the time before it,
      short of one window, holds less than the limit. */
  ghost predicate WindowOk(s: State, k: Key) {
    if k in s.counters then
      var c := s.counters[k];
      && c.first <= s.now
      && (c.expires.Some? ==> c.first + Window(k) <= c.expires.value)
      && Passes(s, k, c.first, s.now + 1) <= Min(c.count, Limit(k))
      && Passes(s, k, c.first + 1, s.now + 1) < Min(c.count, Limit(k))
      && (c.expires.Some? && c.expires.value <= s.now ==> Passes(s, k, c.expires.value, s.now + 1) == 0)
      && Passes(s, k, c.first - Window(k) + 1, c.first) < Limit(k)
    else forall lo, hi: int :: Passes(s, k, lo, hi) == 0
  }

  ghost predicate Ok(s: State, k: Key) { Timely(s) && BelowTwice(s, k) && WindowOk(s, k) }

  lemma PassesSplit(s: State, k: Key, lo: int, mid: int, hi: int)
    requires lo <= mid <= hi
    ensures Passes(s, k, lo, hi) == Passes(s, k, lo, mid) + Passes(s, k, mid, hi)
  {
    var x, y := Passers(s, k, lo, mid), Passers(s, k, mid, hi);
    assert Passers(s, k, lo, hi) == x + y && x !! y;
  }

  lemma PassesWithin(s: State, k: Key, a: int, lo: int, hi: int, b: int)
    requires a <= lo <= hi <= b
    ensures Passes(s, k, lo, hi) <= Passes(s, k, a, b)
  {
    hide Passes;
    PassesSplit(s, k, a, lo, b);
    PassesSplit(s, k, lo, hi, b);
  }

  lemma NoneLater(s: State, k: Key, lo: int, hi: int)
    requires Timely(s) && s.now < lo
    ensures Passes(s, k, lo, hi) == 0
  {
    assert Passers(s, k, lo, hi) == {};
  }

  lemma NoneInNothing(s: State, k: Key, lo: int)
    ensures Passes(s, k, lo, lo) == 0
  {
    assert Passers(s, k, lo, lo) == {};
  }

  /** The counter of `k` and what has passed under `k` are as before. */
  ghost predicate Untouched(s: State, t: State, k: Key) {
    && (k in t.counters <==> k in s.counters) && (k in s.counters ==> t.counters[k] == s.counters[k])
    && forall lo, hi: int :: Passes(t, k, lo, hi) == Passes(s, k, lo, hi)
  }

  lemma UntouchedOk(s: State, t: State, k: Key)
    requires Ok(s, k) && Untouched(s, t, k) && Timely(t) && t.now == s.now
    ensures Ok(t, k)
  {
    hide Passes, Timely;
    forall lo: int ensures SpanOk(t, k, lo) { assert SpanOk(s, k, lo); }
  }

  lemma SamePassers(s: State, a: Attempt, p: Progress, k: Key)
    requires k in p.passed <==> k in s.Of(a).passed
    requires k in p.passed ==> p.passed[k] == s.Of(a).passed[k]
    ensures forall lo, hi: int :: Passes(s.Put(a, p), k, lo, hi) == Passes(s, k, lo, hi)
  {
    forall lo, hi: int ensures Passes(s.Put(a, p), k, lo, hi) == Passes(s, k, lo, hi) {
      assert Passers(s.Put(a, p), k, lo, hi) == Passers(s, k, lo, hi);
    }
  }

  lemma PassersDoNotCount(s: State, cs: Counters, k: Key)
    ensures forall lo, hi: int :: Passes(s.(counters := cs), k, lo, hi) == Passes(s, k, lo, hi)
  {
    forall lo, hi: int ensures Passes(s.(counters := cs), k, lo, hi) == Passes(s, k, lo, hi) {
      assert Passers(s.(counters := cs), k, lo, hi) == Passers(s, k, lo, hi);
    }
  }

  /** Time passes. */
  lemma TickKeepsOk(s: State, ms: nat, k: Key)
    requires Ok(s, k)
    ensures Ok(s.(now := s.now + ms), k)
  {
    hide Min;
    var t := s.(now := s.now + ms);
    forall lo, hi: int ensures Passes(t, k, lo, hi) == Passes(s, k, lo, hi) {
      assert Passers(t, k, lo, hi) == Passers(s, k, lo, hi);
    }
    hide Passes;
    forall lo: int ensures SpanOk(t, k, lo) { assert SpanOk(s, k, lo); }
    if k in s.counters { LaterWindow(s, t, k); }
  }

  lemma LaterWindow(s: State, t: State, k: Key)
    requires Timely(s) && WindowOk(s, k) && k in s.counters && t.counters == s.counters && s.now <= t.now
    requires forall lo, hi: int :: Passes(t, k, lo, hi) == Passes(s, k, lo, hi)
    ensures WindowOk(t, k)
  {
    hide Passes, Min, Timely;
    var c := s.counters[k];
    NoneLater(s, k, s.now + 1, t.now + 1);
    PassesSplit(s, k, c.first, s.now + 1, t.now + 1);
    PassesSplit(s, k, c.first + 1, s.now + 1, t.now + 1);
    if c.expires.Some? {
      if c.expires.value <= s.now {
        PassesSplit(s, k, c.expires.value, s.now + 1, t.now + 1);
      } else if c.expires.value <= t.now {
        NoneLater(s, k, c.expires.value, t.now + 1);
      }
    }
  }

  /** At most one more has passed, and now. */
  ghost predicate Grew(s: State, t: State, k: Key, one: bool) {
    forall lo, hi: int :: Passes(t, k, lo, hi) <= Passes(s, k, lo, hi) + if one && lo <= s.now < hi then 1 else 0
  }

  lemma PassGrows(s: State, a: Attempt, p: Progress, k: Key)
    requires p.passed == s.Of(a).passed[k := s.now]
    ensures Grew(s, s.Put(a, p), k, true)
  {
    var t := s.Put(a, p);
    forall lo, hi: int
      ensures Passes(t, k, lo, hi) <= Passes(s, k, lo, hi) + if lo <= s.now < hi then 1 else 0
    {
      OneMorePasser(s, a, p, k, lo, hi);
    }
  }

  lemma OneMorePasser(s: State, a: Attempt, p: Progress, k: Key, lo: int, hi: int)
    requires p.passed == s.Of(a).passed[k := s.now]
    ensures Passes(s.Put(a, p), k, lo, hi) <= Passes(s, k, lo, hi) + if lo <= s.now < hi then 1 else 0
  {
    var x, y := Passers(s.Put(a, p), k, lo, hi), Passers(s, k, lo, hi);
    if lo <= s.now < hi {
      assert x <= y + {a};
      Smaller(x, y + {a});
    } else {
      assert x <= y;
      Smaller(x, y);
    }
  }

  lemma Smaller(x: set<Attempt>, y: set<Attempt>)
    requires x <= y
    ensures |x| <= |y|
  {
    assert y == x + (y - x) && x !! (y - x);
  }

  /** A check counts: in the life of the counter, or as the first of a new one. */
  lemma IncrKeepsWindow(s: State, t: State, k: Key)
    requires WindowOk(s, k) && t.now == s.now && t.counters == Incr(s.counters, k, s.now)
    requires Grew(s, t, k, !Over(t.counters, k))
    ensures WindowOk(t, k)
  {
    hide Passes;
    if k in s.counters && Alive(s.counters, k, s.now) {
      AliveKeepsWindow(s, t, k);
    } else {
      NewWindow(s, t, k);
    }
  }

  lemma AliveKeepsWindow(s: State, t: State, k: Key)
    requires WindowOk(s, k) && t.now == s.now && k in s.counters && Alive(s.counters, k, s.now)
    requires t.counters == Incr(s.counters, k, s.now) && Grew(s, t, k, !Over(t.counters, k))
    ensures WindowOk(t, k)
  {
    hide Passes;
    var c := s.counters[k];
    assert Passes(t, k, c.first, s.now + 1) <= Passes(s, k, c.first, s.now + 1) + 1;
    assert Passes(t, k, c.first - Window(k) + 1, c.first) <= Passes(s, k, c.first - Window(k) + 1, c.first);
  }

  lemma NewWindow(s: State, t: State, k: Key)
    requires WindowOk(s, k) && t.now == s.now && !Alive(s.counters, k, s.now)
    requires t.counters == Incr(s.counters, k, s.now) && Grew(s, t, k, !Over(t.counters, k))
    ensures WindowOk(t, k)
  {
    hide Passes;
    var now := s.now;
    if k in s.counters {
      var c := s.counters[k];
      PassesWithin(s, k, c.expires.value, now, now + 1, now + 1);
      PassesWithin(s, k, c.first + 1, now - Window(k) + 1, now, now + 1);
    }
    NoneInNothing(s, k, now + 1);
    assert Passes(t, k, now, now + 1) <= Passes(s, k, now, now + 1) + 1;
    assert Passes(t, k, now + 1, now + 1) <= Passes(s, k, now + 1, now + 1);
    assert Passes(t, k, now - Window(k) + 1, now) <= Passes(s, k, now - Window(k) + 1, now);
  }

  /** A span that holds the present holds less than a limit of passes from before the life
      of the counter, and a limit of them inside it. */
  lemma SpanFits(s: State, k: Key, lo: int)
    requires WindowOk(s, k) && Timely(s) && lo <= s.now < lo + Window(k) && k in s.counters
    ensures SpanOk(s, k, lo)
  {
    hide Passes, Timely;
    var first, now := s.counters[k].first, s.now;
    PassesSplit(s, k, lo, now + 1, lo + Window(k));
    NoneLater(s, k, now + 1, lo + Window(k));
    if lo <= first {
      PassesSplit(s, k, lo, first, now + 1);
      PassesWithin(s, k, first - Window(k) + 1, lo, first, first);
    } else {
      PassesWithin(s, k, first, lo, now + 1, now + 1);
    }
  }

  lemma IncrKeepsSpans(s: State, t: State, k: Key)
    requires BelowTwice(s, k) && WindowOk(t, k) && Timely(t) && k in t.counters && t.now == s.now && Grew(s, t, k, true)
    ensures BelowTwice(t, k)
  {
    hide Passes, WindowOk, Timely;
    forall lo: int ensures SpanOk(t, k, lo) {
      if lo <= s.now < lo + Window(k) {
        SpanFits(t, k, lo);
      } else {
        assert SpanOk(s, k, lo);
        assert Passes(t, k, lo, lo + Window(k)) <= Passes(s, k, lo, lo + Window(k));
      }
    }
  }

  lemma IncrGrows(s: State, a: Attempt)
    requires s.Of(a).next < |KeysOf(a)|
    ensures var k, t := KeysOf(a)[s.Of(a).next], ApplyIncr(s, a);
      Grew(s, t, k, !Over(t.counters, k)) && Grew(s, t, k, true)
  {
    hide Passes, Incr, Over, KeysOf;
    var k := KeysOf(a)[s.Of(a).next];
    var t := ApplyIncr(s, a);
    var p := t.attempts[a];
    PassersDoNotCount(s.Put(a, p), t.counters, k);
    assert t == s.Put(a, p).(counters := t.counters);
    if Over(t.counters, k) { SamePassers(s, a, p, k); } else { PassGrows(s, a, p, k); }
  }

  lemma IncrKeepsTimely(s: State, a: Attempt)
    requires Timely(s) && s.Of(a).next < |KeysOf(a)|
    ensures Timely(ApplyIncr(s, a))
  {
    hide KeysOf, Incr, Over;
  }

  /** A check touches only the counter of its own key. */
  lemma IncrElsewhere(s: State, a: Attempt, k: Key)
    requires s.Of(a).next < |KeysOf(a)| && KeysOf(a)[s.Of(a).next] != k
    ensures Untouched(s, ApplyIncr(s, a), k)
  {
    hide Passes, KeysOf, Over;
    var t := ApplyIncr(s, a);
    SamePassers(s, a, t.attempts[a], k);
    PassersDoNotCount(s.Put(a, t.attempts[a]), t.counters, k);
  }

  lemma IncrKeepsOk(s: State, a: Attempt, k: Key)
    requires Ok(s, k) && s.Of(a).next < |KeysOf(a)|
    ensures Ok(ApplyIncr(s, a), k)
  {
    hide Passes, WindowOk, BelowTwice, Timely, KeysOf, Incr, Over, Grew, Untouched;
    var t := ApplyIncr(s, a);
    IncrKeepsTimely(s, a);
    if KeysOf(a)[s.Of(a).next] == k {
      IncrGrows(s, a);
      IncrKeepsWindow(s, t, k);
      IncrHas(s.counters, k, s.now);
      IncrKeepsSpans(s, t, k);
    } else {
      IncrElsewhere(s, a, k);
      UntouchedOk(s, t, k);
    }
  }

  lemma IncrHas(cs: Counters, k: Key, now: int)
    ensures k in Incr(cs, k, now)
  {
  }

  /** An `EXPIRE` gives the counter one more window from now. */
  lemma ExpireKeepsOk(s: State, t: State, k: Key, j: Key)
    requires Ok(s, k) && Timely(t) && t.now == s.now && t.counters == Expire(s.counters, j, s.now)
    requires forall lo, hi: int :: Passes(t, k, lo, hi) == Passes(s, k, lo, hi)
    ensures Ok(t, k)
  {
    hide Passes, Timely, Min;
    forall lo: int ensures SpanOk(t, k, lo) { assert SpanOk(s, k, lo); }
  }

  lemma StepKeepsOk(s: State, step: Step, k: Key)
    requires Ok(s, k) && Enabled(s, step)
    ensures Ok(Apply(s, step), k)
  {
    hide Passes, WindowOk, BelowTwice, KeysOf, Expire;
    match step
    case Tick(ms) => TickKeepsOk(s, ms, k);
    case DoIncr(a) => IncrKeepsOk(s, a, k);
    case DoExpire(a) =>
      var p := s.Of(a).(stage := Checking);
      var t := Apply(s, step);
      SamePassers(s, a, p, k);
      PassersDoNotCount(s.Put(a, p), t.counters, k);
      ExpireKeepsOk(s, t, k, KeysOf(a)[s.Of(a).next - 1]);
    case Return(a) => StageKeepsOk(s, a, Sent(s.now), k);
    case Abort(a) => StageKeepsOk(s, a, Failed, k);
  }

  lemma StageKeepsOk(s: State, a: Attempt, stage: Stage, k: Key)
    requires Ok(s, k)
    ensures Ok(s.Put(a, s.Of(a).(stage := stage)), k)
  {
    hide Passes, WindowOk, BelowTwice;
    SamePassers(s, a, s.Of(a).(stage := stage), k);
    UntouchedOk(s, s.Put(a, s.Of(a).(stage := stage)), k);
  }

  lemma {:induction false} RunKeepsOk(s: State, steps: seq<Step>, k: Key)
    requires Ok(s, k) && Possible(s, steps)
    ensures Ok(Run(s, steps), k)
    decreases |steps|
  {
    hide Ok, Apply, Enabled;
    if steps != [] {
      StepKeepsOk(s, steps[0], k);
      RunKeepsOk(Apply(s, steps[0]), steps[1..], k);
    }
  }

  lemma NothingYet(k: Key)
    ensures Ok(INIT, k)
  {
    forall lo, hi: int ensures Passes(INIT, k, lo, hi) == 0 { assert Passers(INIT, k, lo, hi) == {}; }
    hide Passes;
  }

  // ----- sends -----

  /** Who was let through to send, and passed the check of `k` in the time from `lo` to `hi`. */
  function Senders(s: State, k: Key, lo: int, hi: int): set<Attempt> {
    set a | a in s.attempts && s.attempts[a].stage.Sent? && k in KeysOf(a)
      && k in s.attempts[a].passed && lo <= s.attempts[a].passed[k] < hi
  }

  /** Who sent in the time from `lo` to `hi`. */
  function SentIn(s: State, k: Key, lo: int, hi: int): set<Attempt> {
    set a | a in s.attempts && s.attempts[a].stage.Sent? && k in KeysOf(a) && lo <= s.attempts[a].stage.at < hi
  }

  /** A send has passed every check of its attempt, before it. */
  ghost predicate AllPassed(s: State, a: Attempt) {
    var p := s.Of(a);
    && p.next <= |KeysOf(a)|
    && (forall i | 0 <= i < p.next :: KeysOf(a)[i] in p.passed && p.passed[KeysOf(a)[i]] <= s.now)
    && (p.stage.Sent? ==> p.next == |KeysOf(a)|)
    && (p.stage.Sent? ==> forall k | k in KeysOf(a) :: k in p.passed && p.passed[k] <= p.stage.at)
  }

  lemma StepKeepsPassed(s: State, step: Step, a: Attempt)
    requires AllPassed(s, a) && Enabled(s, step)
    ensures AllPassed(Apply(s, step), a)
  {
    hide KeysOf, Incr, Over, Expire;
    var p, q := s.Of(a), Apply(s, step).Of(a);
    if step.DoIncr? && step.a == a {
      var k := KeysOf(a)[p.next];
      forall i | 0 <= i < q.next ensures KeysOf(a)[i] in q.passed && q.passed[KeysOf(a)[i]] <= s.now {
        if i < p.next { assert KeysOf(a)[i] in p.passed; }
      }
    }
  }

  lemma {:induction false} RunKeepsPassed(s: State, steps: seq<Step>, a: Attempt)
    requires AllPassed(s, a) && Possible(s, steps)
    ensures AllPassed(Run(s, steps), a)
    decreases |steps|
  {
    hide AllPassed, Apply, Enabled;
    if steps != [] {
      StepKeepsPassed(s, steps[0], a);
      RunKeepsPassed(Apply(s, steps[0]), steps[1..], a);
    }
  }

  /** However the Redis calls of concurrent attempts interleave, and even if an `EXPIRE` never
      comes: any span of one window length holds less than twice the limit of sends of each
      key, each dated at its check of that key, although windows begin at arbitrary times. */
  lemma LessThanTwice(steps: seq<Step>, k: Key, lo: int)
    requires Possible(INIT, steps)
    ensures |Senders(Run(INIT, steps), k, lo, lo + Window(k))| < 2 * Limit(k)
  {
    hide Run, Possible, KeysOf, WindowOk;
    NothingYet(k);
    RunKeepsOk(INIT, steps, k);
    var s := Run(INIT, steps);
    assert SpanOk(s, k, lo);
    Smaller(Senders(s, k, lo, lo + Window(k)), Passers(s, k, lo, lo + Window(k)));
  }

  /** Every send of `k` follows its check of `k` within `d`. */
  ghost predicate Prompt(s: State, k: Key, d: nat) {
    forall a | a in s.attempts && s.attempts[a].stage.Sent? && k in KeysOf(a) && k in s.attempts[a].passed ::
      s.attempts[a].stage.at <= s.attempts[a].passed[k] + d
  }

  /** Dated at the send itself, the same holds of spans that are shorter by the longest
      time from a check to its send. */
  lemma PromptSends(steps: seq<Step>, k: Key, lo: int, d: nat)
    requires Possible(INIT, steps) && Prompt(Run(INIT, steps), k, d)
    ensures |SentIn(Run(INIT, steps), k, lo, lo + Window(k) - d)| < 2 * Limit(k)
  {
    hide Run, Possible, KeysOf;
    var s := Run(INIT, steps);
    LessThanTwice(steps, k, lo - d);
    var x, y := SentIn(s, k, lo, lo + Window(k) - d), Senders(s, k, lo - d, lo - d + Window(k));
    forall a | a in x ensures a in y {
      RunKeepsPassed(INIT, steps, a);
      assert AllPassed(s, a) && s.Of(a) == s.attempts[a];
    }
    Smaller(x, y);
  }

  // ----- an undisturbed attempt is a stretch of such a run -----

  lemma Then(s: State, step: Step, t: State, rest: seq<Step>)
    requires Enabled(s, step) && t == Apply(s, step) && Possible(t, rest)
    ensures Possible(s, [step] + rest) && Run(s, [step] + rest) == Run(t, rest)
  {
    hide Enabled, Apply;
    assert ([step] + rest)[1..] == rest;
  }

  ghost predicate OthersAsBefore(s: State, t: State, a: Attempt) {
    forall x | x != a :: t.Of(x) == s.Of(x) && (x in t.attempts <==> x in s.attempts)
  }

  /** The calls of `overLimit` for the next key. */
  lemma ChecksNext(s: State, a: Attempt) returns (steps: seq<Step>, t: State)
    requires s.Of(a).stage.Checking? && s.Of(a).next < |KeysOf(a)|
    ensures Possible(s, steps) && Run(s, steps) == t && t.now == s.now
    ensures var k := KeysOf(a)[s.Of(a).next];
      && t.counters == CheckOne(s.counters, k, s.now)
      && t.Of(a).stage == (if Over(t.counters, k) then Blocked else Checking)
      && t.Of(a).next == s.Of(a).next + (if t.Of(a).stage.Checking? then 1 else 0)
    ensures OthersAsBefore(s, t, a)
  {
    hide Run, Possible, KeysOf;
    var u := Apply(s, DoIncr(a));
    RunOne(s, DoIncr(a));
    if u.Of(a).stage.Expiring? {
      t := Apply(u, DoExpire(a));
      RunOne(u, DoExpire(a));
      Then(s, DoIncr(a), u, [DoExpire(a)]);
      steps := [DoIncr(a)] + [DoExpire(a)];
    } else {
      steps, t := [DoIncr(a)], u;
    }
  }

  lemma {:induction false} ChecksFrom(s: State, a: Attempt) returns (steps: seq<Step>, t: State)
    requires s.Of(a).stage.Checking? && s.Of(a).next <= |KeysOf(a)|
    ensures Possible(s, steps) && Run(s, steps) == t
    ensures var c := Check(s.counters, KeysOf(a)[s.Of(a).next..], s.now);
      && t.counters == c.counters && t.now == s.now && OthersAsBefore(s, t, a)
      && (if c.blocked.Some? then t.Of(a).stage == Blocked && t.Of(a).next < |KeysOf(a)| && KeysOf(a)[t.Of(a).next] == c.blocked.value
          else t.Of(a).stage == Sent(s.now))
    decreases |KeysOf(a)| - s.Of(a).next
  {
    hide Run, Possible, KeysOf, CheckOne, Over;
    var n := s.Of(a).next;
    if n == |KeysOf(a)| {
      steps, t := [Return(a)], Apply(s, Return(a));
      RunOne(s, Return(a));
    } else {
      var first, u := ChecksNext(s, a);
      assert KeysOf(a)[n..][1..] == KeysOf(a)[n + 1..];
      if u.Of(a).stage.Blocked? {
        steps, t := first, u;
      } else {
        var rest;
        rest, t := ChecksFrom(u, a);
        RunConcat(s, first, rest);
        steps := first + rest;
      }
    }
  }

  /** What the code does alone is one way in which a run may go on. */
  lemma AloneIsARun(s: State, a: Attempt) returns (steps: seq<Step>)
    requires a !in s.attempts
    ensures Possible(s, steps)
    ensures var t, c := Run(s, steps), Check(s.counters, KeysOf(a), s.now);
      && t.counters == c.counters && t.now == s.now && OthersAsBefore(s, t, a)
      && (if c.blocked.Some? then t.Of(a).stage == Blocked && t.Of(a).next < |KeysOf(a)| && KeysOf(a)[t.Of(a).next] == c.blocked.value
          else t.Of(a).stage == Sent(s.now))
  {
    hide Run, Possible, KeysOf, Check;
    assert KeysOf(a)[0..] == KeysOf(a);
    var t;
    steps, t := ChecksFrom(s, a);
  }

  // ----- dated at the send, without a bound on its delay, there is no limit -----

  function Late(i: nat): Attempt { Attempt(i, NatText(i), "1", None) }

  const ONE_PHONE := Phone("1")

  lemma LateKeys(i: nat)
    ensures KeysOf(Late(i)) == [ONE_PHONE, StorePhone(NatText(i), "1")]
  {
  }

  /** Attempts below `n` have passed the check of the phone and not gone on; no other exists. */
  ghost predicate Held(s: State, n: nat) {
    && (forall i: nat | i < n :: s.Of(Late(i)).next == 1 && s.Of(Late(i)).stage.Checking?)
    && (forall i: nat | i >= n :: Late(i) !in s.attempts)
    && (forall k | k in s.counters :: k == ONE_PHONE)
    && (ONE_PHONE in s.counters ==>
          s.counters[ONE_PHONE].expires.Some? && s.counters[ONE_PHONE].expires.value <= s.now + Window(ONE_PHONE))
  }

  /** A window later, the check of the phone. */
  /** The first check of an attempt whose first key has no counter. */
  lemma FirstCheck(s: State, a: Attempt, k: Key)
    requires a !in s.attempts && KeysOf(a) != [] && KeysOf(a)[0] == k && !Alive(s.counters, k, s.now)
    ensures Enabled(s, DoIncr(a)) && Enabled(Apply(s, DoIncr(a)), DoExpire(a))
    ensures var t := Apply(Apply(s, DoIncr(a)), DoExpire(a));
      && t.now == s.now && t.Of(a).next == 1 && t.Of(a).stage.Checking?
      && (forall x | x != a :: t.Of(x) == s.Of(x) && (x in t.attempts ==> x in s.attempts))
      && t.counters == s.counters[k := Counter(1, s.now, Some(s.now + Window(k)))]
  {
    hide KeysOf;
  }

  /** A window later, the check of the phone. */
  lemma OneMoreHeld(s: State, n: nat, t: State)
    requires Held(s, n) && t.now >= s.now && t.Of(Late(n)).next == 1 && t.Of(Late(n)).stage.Checking?
    requires forall x | x != Late(n) :: t.Of(x) == s.Of(x) && (x in t.attempts ==> x in s.attempts)
    requires t.counters == s.counters[ONE_PHONE := Counter(1, t.now, Some(t.now + Window(ONE_PHONE)))]
    ensures Held(t, n + 1)
  {
    hide Late, Window;
    forall i: nat | i < n ensures t.Of(Late(i)) == s.Of(Late(i)) { LateId(i); LateId(n); }
    forall i: nat | i > n ensures Late(i) !in t.attempts { LateId(i); LateId(n); }
  }

  /** A window later, the check of the phone. */
  lemma HoldOne(s: State, n: nat)
    requires Held(s, n)
    ensures var a := Late(n); var s1 := Apply(s, Tick(3_600_000));
      && Enabled(s, Tick(3_600_000)) && Enabled(s1, DoIncr(a)) && Enabled(Apply(s1, DoIncr(a)), DoExpire(a))
      && Held(Apply(Apply(s1, DoIncr(a)), DoExpire(a)), n + 1)
  {
    hide NatText, KeysOf;
    var a, s1 := Late(n), s.(now := s.now + 3_600_000);
    LateKeys(n);
    assert s1 == Apply(s, Tick(3_600_000));
    FirstCheck(s1, a, ONE_PHONE);
    hide Apply, Enabled, Late;
    OneMoreHeld(s, n, Apply(Apply(s1, DoIncr(a)), DoExpire(a)));
  }

  lemma HoldsOne(s: State, n: nat) returns (steps: seq<Step>, t: State)
    requires Held(s, n)
    ensures Possible(s, steps) && Run(s, steps) == t && Held(t, n + 1)
  {
    hide Run, Possible, NatText, Enabled, Apply, Held;
    var a := Late(n);
    HoldOne(s, n);
    ThreeSteps(s, Tick(3_600_000), DoIncr(a), DoExpire(a));
    steps := [Tick(3_600_000), DoIncr(a), DoExpire(a)];
    t := Run(s, steps);
  }

  lemma {:induction false} HoldsMany(n: nat) returns (steps: seq<Step>, t: State)
    ensures Possible(INIT, steps) && Run(INIT, steps) == t && Held(t, n)
  {
    hide Run, Possible, Held, Enabled, Apply;
    if n == 0 {
      steps, t := [], INIT;
      HeldAtStart();
    } else {
      var first, s := HoldsMany(n - 1);
      var rest;
      rest, t := HoldsOne(s, n - 1);
      RunConcat(INIT, first, rest);
      steps := first + rest;
    }
  }

  lemma HeldAtStart()
    ensures Held(INIT, 0) && Possible(INIT, []) && Run(INIT, []) == INIT
  {
  }

  /** Of `n` held attempts those from `m` on have sent. */
  ghost predicate Releasing(s: State, n: nat, m: nat) {
    && m <= n
    && (forall i: nat | i < m :: s.Of(Late(i)).next == 1 && s.Of(Late(i)).stage.Checking?)
    && (forall i: nat | m <= i < n :: s.Of(Late(i)).stage == Sent(s.now))
    && (forall i: nat | i < m :: StorePhone(NatText(i), "1") !in s.counters)
  }

  lemma StoresDiffer(i: nat, j: nat)
    ensures NatText(i) == NatText(j) ==> i == j
  {
    hide NatText;
    assert Number(Digits(NatText(i))) == i && Number(Digits(NatText(j))) == j;
  }

  lemma ThreeSteps(s: State, x: Step, y: Step, z: Step)
    requires Enabled(s, x) && Enabled(Apply(s, x), y) && Enabled(Apply(Apply(s, x), y), z)
    ensures Possible(s, [x, y, z]) && Run(s, [x, y, z]) == Apply(Apply(Apply(s, x), y), z)
  {
    hide Run, Possible, Enabled, Apply;
    var s1 := Apply(s, x);
    var s2 := Apply(s1, y);
    RunOne(s2, z);
    Then(s1, y, s2, [z]);
    Then(s, x, s1, [y] + [z]);
    assert [x] + ([y] + [z]) == [x, y, z];
  }

  /** The last check of a held attempt, and its send. */
  lemma ReleaseOne(s: State, a: Attempt)
    requires s.Of(a).stage.Checking? && s.Of(a).next == 1
    requires |KeysOf(a)| == 2 && KeysOf(a)[1].StorePhone? && KeysOf(a)[1] !in s.counters
    ensures Enabled(s, DoIncr(a)) && Enabled(Apply(s, DoIncr(a)), DoExpire(a))
    ensures Enabled(Apply(Apply(s, DoIncr(a)), DoExpire(a)), Return(a))
    ensures var t := Apply(Apply(Apply(s, DoIncr(a)), DoExpire(a)), Return(a));
      && t.now == s.now && t.Of(a).stage == Sent(s.now)
      && (forall x | x != a :: t.Of(x) == s.Of(x))
      && (forall k | k in t.counters :: k in s.counters || k == KeysOf(a)[1])
  {
    hide KeysOf;
  }

  lemma ReleasesOne(s: State, n: nat, m: nat) returns (steps: seq<Step>, t: State)
    requires Releasing(s, n, m) && m > 0
    ensures Possible(s, steps) && Run(s, steps) == t && t.now == s.now && Releasing(t, n, m - 1)
  {
    hide Run, Possible, NatText, Enabled, Apply, KeysOf;
    var a := Late(m - 1);
    LateKeys(m - 1);
    ReleaseOne(s, a);
    ThreeSteps(s, DoIncr(a), DoExpire(a), Return(a));
    steps := [DoIncr(a), DoExpire(a), Return(a)];
    t := Run(s, steps);
    forall i: nat | i < m - 1 ensures StorePhone(NatText(i), "1") !in t.counters {
      StoresDiffer(i, m - 1);
    }
  }

  lemma {:induction false} ReleasesMany(s: State, n: nat, m: nat) returns (steps: seq<Step>, t: State)
    requires Releasing(s, n, m)
    ensures Possible(s, steps) && Run(s, steps) == t && t.now == s.now && Releasing(t, n, 0)
    decreases m
  {
    hide Run, Possible, Releasing, Enabled, Apply;
    if m == 0 {
      steps, t := [], s;
      NoSteps(s);
    } else {
      var first, u := ReleasesOne(s, n, m);
      var rest;
      rest, t := ReleasesMany(u, n, m - 1);
      RunConcat(s, first, rest);
      steps := first + rest;
    }
  }

  lemma NoSteps(s: State)
    ensures Possible(s, []) && Run(s, []) == s
  {
  }

  function Lates(n: nat): set<Attempt> { if n == 0 then {} else Lates(n - 1) + {Late(n - 1)} }

  lemma LateId(i: nat)
    ensures Late(i).id == i
  {
    hide NatText;
  }

  lemma {:induction false} LatesAre(n: nat, a: Attempt)
    requires a in Lates(n)
    ensures a.id < n && a == Late(a.id)
  {
    hide Late;
    LateId(n - 1);
    if a != Late(n - 1) { LatesAre(n - 1, a); }
  }

  lemma {:induction false} LatesCount(n: nat)
    ensures |Lates(n)| == n
  {
    hide Late;
    if n > 0 {
      LatesCount(n - 1);
      LateId(n - 1);
      var before, a := Lates(n - 1), Late(n - 1);
      if a in before { LatesAre(n - 1, a); }
      assert a !in before;
    }
  }

  /** For every `n` there is a run in which `n` sends of one phone happen at one moment: each
      has waited since its check, which fell in a window of its own. */
  lemma LateSendsPile(n: nat) returns (steps: seq<Step>)
    ensures Possible(INIT, steps)
    ensures var s := Run(INIT, steps); |SentIn(s, ONE_PHONE, s.now, s.now + 1)| >= n
  {
    hide Run, Possible, Held, Releasing, KeysOf, NatText;
    var first, u := HoldsMany(n);
    HeldCanSend(u, n);
    var rest, t := ReleasesMany(u, n, n);
    RunConcat(INIT, first, rest);
    steps := first + rest;
    AllLateSent(t, n);
  }

  lemma AllLateSent(t: State, n: nat)
    requires Releasing(t, n, 0)
    ensures |SentIn(t, ONE_PHONE, t.now, t.now + 1)| >= n
  {
    hide Releasing, Lates, SentIn, Late;
    LatesCount(n);
    forall a | a in Lates(n) ensures a in SentIn(t, ONE_PHONE, t.now, t.now + 1) {
      LatesAre(n, a);
      LateHasSent(t, n, a.id);
    }
    Smaller(Lates(n), SentIn(t, ONE_PHONE, t.now, t.now + 1));
  }

  lemma HeldCanSend(s: State, n: nat)
    requires Held(s, n)
    ensures Releasing(s, n, n)
  {
  }

  lemma LateHasSent(t: State, n: nat, i: nat)
    requires Releasing(t, n, 0) && i < n
    ensures Late(i) in SentIn(t, ONE_PHONE, t.now, t.now + 1)
  {
    hide NatText;
    LateKeys(i);
    assert t.Of(Late(i)).stage == Sent(t.now);
  }
}
