/** When buyer-otp-limit.ts lets an attempt through: exactly what a counter counts in a run,
    how long it lives, and which attempts it blocks. */
module OtpLimits {
  import opened JsText
  import opened RateLimit

  // ----- what a counter counts -----

  predicate Checks(s: State, step: Step, k: Key) {
    step.DoIncr? && s.Of(step.a).next < |KeysOf(step.a)| && KeysOf(step.a)[s.Of(step.a).next] == k
  }

  /** The checks of `k` in a run, from a time on. */
  function ChecksOf(s: State, steps: seq<Step>, k: Key, from: int): nat
    requires Possible(s, steps)
    decreases |steps|
  {
    if steps == [] then 0 else
    (if Checks(s, steps[0], k) && s.now >= from then 1 else 0) + ChecksOf(Apply(s, steps[0]), steps[1..], k, from)
  }

  /** A counter is made before now, and it expires after it was made. */
  predicate Sane(s: State, k: Key) {
    k in s.counters ==>
      s.counters[k].first <= s.now && (s.counters[k].expires.Some? ==> s.counters[k].first < s.counters[k].expires.value)
  }

  /** What one step does to the counter of `k`. */
  ghost predicate Counts(s: State, step: Step, t: State, k: Key) {
    && t.now >= s.now && (k in s.counters ==> k in t.counters) && (k in t.counters && !Checks(s, step, k) ==> k in s.counters)
    && (Checks(s, step, k) ==> t.now == s.now && Alive(t.counters, k, t.now))
    && (Checks(s, step, k) && !Alive(s.counters, k, s.now) ==> t.counters[k].count == 1 && t.counters[k].first == s.now)
    && (k in s.counters && !(Checks(s, step, k) && !Alive(s.counters, k, s.now)) ==>
          t.counters[k].first == s.counters[k].first
          && t.counters[k].count == s.counters[k].count + (if Checks(s, step, k) then 1 else 0))
    && (t.now == s.now && Alive(s.counters, k, s.now) ==> Alive(t.counters, k, t.now))
  }

  lemma StepCounts(s: State, step: Step, k: Key)
    requires Enabled(s, step)
    ensures Counts(s, step, Apply(s, step), k)
    ensures Sane(s, k) ==> Sane(Apply(s, step), k)
  {
    hide KeysOf, Over;
  }

  /** The counter at the end of a run is the one at its start, or was made in the run; it counts the
      checks since then. */
  lemma {:induction false} CountsFrom(s: State, steps: seq<Step>, k: Key)
    requires Possible(s, steps) && Sane(s, k) && k in Run(s, steps).counters
    ensures var c := Run(s, steps).counters[k];
      var goesOn := k in s.counters && c.first == s.counters[k].first;
      && (goesOn || c.first >= s.now) && (!goesOn && Alive(s.counters, k, s.now) ==> c.first > s.now)
      && c.count == (if goesOn then s.counters[k].count else 0) + ChecksOf(s, steps, k, c.first)
    decreases |steps|
  {
    hide Apply, Enabled, KeysOf, Checks;
    if steps != [] {
      StepCounts(s, steps[0], k);
      CountsFrom(Apply(s, steps[0]), steps[1..], k);
    }
  }

  lemma NothingCounted(k: Key)
    ensures Sane(INIT, k) && k !in INIT.counters
  {
  }

  lemma BlockedIs(s: State, a: Attempt)
    requires Enabled(s, DoIncr(a))
    ensures var k, q := KeysOf(a)[s.Of(a).next], Apply(s, DoIncr(a)).Of(a);
      && (q.stage.Blocked? <==>
            Alive(s.counters, k, s.now) && s.counters[k].count >= if k.Phone? then 5 else if k.Ip? then 20 else 3)
      && q.next == s.Of(a).next + if q.stage.Blocked? then 0 else 1
  {
    hide KeysOf;
  }

  /** In every run a check blocks its attempt if and only if, since the counter of its key was made and while it
      lives, that key was checked five times, for an address twenty times, for a store and phone three times. */
  lemma BlockedExactly(steps: seq<Step>, a: Attempt)
    requires Possible(INIT, steps) && Enabled(Run(INIT, steps), DoIncr(a))
    ensures var s := Run(INIT, steps);
      var k, q := KeysOf(a)[s.Of(a).next], Apply(s, DoIncr(a)).Of(a);
      && (q.stage.Blocked? <==>
            Alive(s.counters, k, s.now)
            && ChecksOf(INIT, steps, k, s.counters[k].first) >= if k.Phone? then 5 else if k.Ip? then 20 else 3)
      && q.next == s.Of(a).next + if q.stage.Blocked? then 0 else 1
  {
    hide Run, Possible, Apply, KeysOf, ChecksOf, Sane;
    var s := Run(INIT, steps);
    BlockedIs(s, a);
    var k := KeysOf(a)[s.Of(a).next];
    NothingCounted(k);
    if k in s.counters { CountsFrom(INIT, steps, k); }
  }

  // ----- how long a counter lives -----

  /** A counter that is made and gets its `EXPIRE` lives for an hour, that of a store and phone for ten minutes;
      checks in that time do not prolong it. */
  lemma CounterLives(s: State, a: Attempt, later: int)
    requires Enabled(s, DoIncr(a)) && !Alive(s.counters, KeysOf(a)[s.Of(a).next], s.now)
    ensures var k, t := KeysOf(a)[s.Of(a).next], Apply(s, DoIncr(a));
      && Enabled(t, DoExpire(a))
      && (Alive(Apply(t, DoExpire(a)).counters, k, later) <==> later < s.now + if k.StorePhone? then 600_000 else 3_600_000)
  {
    hide KeysOf;
  }

  lemma ChecksDoNotProlong(s: State, a: Attempt, k: Key, later: int)
    requires Enabled(s, DoIncr(a)) && Alive(s.counters, k, s.now) && s.now <= later && s.counters[k].expires.Some?
    ensures Alive(Apply(s, DoIncr(a)).counters, k, later) <==> Alive(s.counters, k, later)
  {
    hide KeysOf, Over;
  }

  // ----- the order of the checks -----

  /** Over the phone limit the other counters are left alone; else, over the address limit, the store counter is. */
  lemma FirstLimitBlocks(cs: Counters, a: Attempt, now: int)
    ensures var p, c := Phone(a.phone), Check(cs, KeysOf(a), now);
      Alive(cs, p, now) && cs[p].count >= 5 ==>
        c.blocked == Some(p) && forall k | k != p :: (k in c.counters <==> k in cs) && (k in cs ==> c.counters[k] == cs[k])
    ensures var p, q, c := Phone(a.phone), StorePhone(a.store, a.phone), Check(cs, KeysOf(a), now);
      a.ip.Some? && a.ip.value != "" && !(Alive(cs, p, now) && cs[p].count >= 5)
      && Alive(cs, Ip(a.ip.value), now) && cs[Ip(a.ip.value)].count >= 20 ==>
        c.blocked == Some(Ip(a.ip.value)) && (q in c.counters <==> q in cs) && (q in cs ==> c.counters[q] == cs[q])
  {
    hide CheckOne, Over, Check, KeysOf;
    ChecksInOrder(cs, a, now);
    OneCheck(cs, Phone(a.phone), now);
    if a.ip.Some? { OneCheck(CheckOne(cs, Phone(a.phone), now), Ip(a.ip.value), now); }
  }

  /** One undisturbed check. */
  lemma OneCheck(cs: Counters, k: Key, now: int)
    ensures var c := CheckOne(cs, k, now);
      && (Over(c, k) <==> Alive(cs, k, now) && cs[k].count >= if k.Phone? then 5 else if k.Ip? then 20 else 3)
      && k in c && c[k].count == (if Alive(cs, k, now) then cs[k].count + 1 else 1)
      && (Alive(cs, k, now) || now < now + Window(k) ==> Alive(c, k, now))
      && forall j | j != k :: (j in c <==> j in cs) && (j in cs ==> c[j] == cs[j])
  {
  }

  // ----- three codes, and the fourth is blocked -----

  function Code(id: nat, store: string, phone: string): Attempt { Attempt(id, store, phone, None) }

  /** How often the two keys of a code have been checked while their counters live. */
  predicate Counted(s: State, store: string, phone: string, n: nat) {
    var p, q := Phone(phone), StorePhone(store, phone);
    if n == 0 then !Alive(s.counters, p, s.now) && !Alive(s.counters, q, s.now)
    else Alive(s.counters, p, s.now) && Alive(s.counters, q, s.now) && s.counters[p].count == s.counters[q].count == n
  }

  lemma CodeChecks(cs: Counters, id: nat, store: string, phone: string, now: int)
    ensures var a, p, q := Code(id, store, phone), Phone(phone), StorePhone(store, phone);
      var c1 := CheckOne(cs, p, now);
      var c2 := CheckOne(c1, q, now);
      Check(cs, KeysOf(a), now) == if Over(c1, p) then Checked(c1, Some(p)) else Checked(c2, if Over(c2, q) then Some(q) else None)
  {
    hide CheckOne, Over, Check, KeysOf;
    ChecksInOrder(cs, Code(id, store, phone), now);
  }

  lemma WindowIs(k: Key)
    ensures Window(k) > 0
  {
  }

  /** One more code, undisturbed: it is sent while fewer than three have been asked for, and then the store
      and phone block it. */
  lemma OneMoreCode(s: State, id: nat, store: string, phone: string, n: nat) returns (steps: seq<Step>)
    requires Counted(s, store, phone, n) && n <= 3 && Code(id, store, phone) !in s.attempts
    ensures Possible(s, steps)
    ensures var t, a := Run(s, steps), Code(id, store, phone);
      && t.now == s.now && OthersAsBefore(s, t, a) && Counted(t, store, phone, n + 1)
      && (if n < 3 then t.Of(a).stage == Sent(s.now)
          else t.Of(a).stage == Blocked && t.Of(a).next < |KeysOf(a)| && KeysOf(a)[t.Of(a).next] == StorePhone(store, phone))
  {
    hide Run, Possible, KeysOf, CheckOne, Over, Check, Window;
    var a, p, q := Code(id, store, phone), Phone(phone), StorePhone(store, phone);
    steps := AloneIsARun(s, a);
    CodeChecks(s.counters, id, store, phone, s.now);
    WindowIs(p);
    WindowIs(q);
    OneCheck(s.counters, p, s.now);
    OneCheck(CheckOne(s.counters, p, s.now), q, s.now);
  }

  lemma {:induction false} SomeCodes(s: State, id: nat, store: string, phone: string, n: nat) returns (steps: seq<Step>)
    requires n <= 3 && Counted(s, store, phone, 0) && forall i: nat | id <= i < id + 4 :: Code(i, store, phone) !in s.attempts
    ensures Possible(s, steps)
    ensures var t := Run(s, steps);
      && t.now == s.now && Counted(t, store, phone, n)
      && (forall i: nat | id <= i < id + n :: t.Of(Code(i, store, phone)).stage == Sent(s.now))
      && (forall i: nat | id + n <= i < id + 4 :: Code(i, store, phone) !in t.attempts)
  {
    if n == 0 {
      steps := [];
    } else {
      hide Run, Possible, KeysOf, Counted;
      var first := SomeCodes(s, id, store, phone, n - 1);
      var last := OneMoreCode(Run(s, first), id + n - 1, store, phone, n - 1);
      RunConcat(s, first, last);
      steps := first + last;
    }
  }

  /** Of four codes for one store and phone in a row the first three are sent and the fourth is blocked by the
      limit of the store and phone. */
  lemma ThreeCodes(s: State, id: nat, store: string, phone: string) returns (steps: seq<Step>)
    requires Counted(s, store, phone, 0) && forall i: nat | id <= i < id + 4 :: Code(i, store, phone) !in s.attempts
    ensures Possible(s, steps)
    ensures var t := Run(s, steps);
      && (forall i: nat | id <= i < id + 3 :: t.Of(Code(i, store, phone)).stage == Sent(s.now))
      && var a := Code(id + 3, store, phone);
      t.Of(a).stage == Blocked && t.Of(a).next < |KeysOf(a)| && KeysOf(a)[t.Of(a).next] == StorePhone(store, phone)
  {
    hide Run, Possible, KeysOf, Counted;
    var three := SomeCodes(s, id, store, phone, 3);
    var fourth := OneMoreCode(Run(s, three), id + 3, store, phone, 3);
    RunConcat(s, three, fourth);
    steps := three + fourth;
  }

  // ----- a lost EXPIRE -----

  /** An attempt that still owes the `EXPIRE` of `k`. */
  predicate Owes(s: State, a: Attempt, k: Key) {
    var p := s.Of(a);
    p.stage.Expiring? && 0 < p.next <= |KeysOf(a)| && KeysOf(a)[p.next - 1] == k
  }

  /** A counter without an end that no attempt will give one. */
  ghost predicate Endless(s: State, k: Key) {
    && k in s.counters && s.counters[k].count > 0 && s.counters[k].expires.None?
    && forall a :: !Owes(s, a, k)
  }

  /** An attempt that fails between the two Redis calls of a new counter leaves one. */
  lemma LostExpire(s: State, a: Attempt)
    requires Enabled(s, DoIncr(a)) && !Alive(s.counters, KeysOf(a)[s.Of(a).next], s.now)
    requires forall b :: !Owes(s, b, KeysOf(a)[s.Of(a).next])
    ensures Possible(s, [DoIncr(a)] + [Abort(a)])
    ensures Endless(Run(s, [DoIncr(a)] + [Abort(a)]), KeysOf(a)[s.Of(a).next])
  {
    hide Run, Possible, KeysOf;
    var k, t := KeysOf(a)[s.Of(a).next], Apply(s, DoIncr(a));
    RunOne(s, DoIncr(a));
    RunOne(t, Abort(a));
    RunConcat(s, [DoIncr(a)], [Abort(a)]);
    var u := Apply(t, Abort(a));
    forall b ensures !Owes(u, b, k) { assert !Owes(s, b, k); }
  }

  lemma EndlessStep(s: State, step: Step, k: Key)
    requires Enabled(s, step) && Endless(s, k)
    ensures var t := Apply(s, step);
      && Endless(t, k) && t.now >= s.now
      && t.counters[k].count == s.counters[k].count + if Checks(s, step, k) then 1 else 0
  {
    hide KeysOf;
    var t := Apply(s, step);
    if step.DoExpire? { assert !Owes(s, step.a, k); }
    forall a ensures !Owes(t, a, k) { assert !Owes(s, a, k); }
  }

  /** It lives on in every run, however long, and counts every check of its key. */
  lemma {:induction false} EndlessStays(s: State, steps: seq<Step>, k: Key, from: int)
    requires Possible(s, steps) && Endless(s, k) && from <= s.now
    ensures var t := Run(s, steps);
      Endless(t, k) && t.counters[k].count == s.counters[k].count + ChecksOf(s, steps, k, from)
    decreases |steps|
  {
    hide Apply, Enabled, Checks, KeysOf;
    if steps != [] {
      EndlessStep(s, steps[0], k);
      EndlessStays(Apply(s, steps[0]), steps[1..], k, from);
    }
  }

  /** So once its limit is reached every attempt at its key is blocked, whenever it comes. */
  lemma LostExpireBlocks(s: State, steps: seq<Step>, a: Attempt, k: Key)
    requires Endless(s, k) && Possible(s, steps) && Enabled(Run(s, steps), DoIncr(a))
    requires KeysOf(a)[Run(s, steps).Of(a).next] == k
    ensures Apply(Run(s, steps), DoIncr(a)).Of(a).stage.Blocked? <==>
      s.counters[k].count + ChecksOf(s, steps, k, s.now) >= if k.Phone? then 5 else if k.Ip? then 20 else 3
  {
    hide Run, Possible, Apply, KeysOf, ChecksOf;
    EndlessStays(s, steps, k, s.now);
    BlockedIs(Run(s, steps), a);
  }
}
