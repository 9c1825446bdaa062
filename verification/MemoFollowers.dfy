/** Who pays for a model call in memo-cache.ts, and how a call that finds the lock taken
    waits for the owner of the lock and gets its answer. */
module MemoFollowers {
  import opened JsText
  import opened MemoProtocol
  import opened MemoSingleFlight

  // ----- who pays -----

  predicate IsOf(step: Step, d: Call) { step.Of? && step.c == d }

  /** The moves that call `compute`: a bypass; an error of Redis on the way to the lock; a lock that
      was free; and a wait of eight seconds. */
  predicate Pays(s: State, d: Call, m: Move) {
    match m
    case Bypass => true
    case ReadVersion(ok) => !ok
    case TryLock(ok) => !ok || (s.PhaseOf(d).Locking? && !s.Locked(s.PhaseOf(d).key))
    case LoseLock => true
    case CheckWait => s.PhaseOf(d).Waiting? && s.now >= s.PhaseOf(d).since + 8000
    case _ => false
  }

  lemma OtherStepsPayNothing(s: State, step: Step, d: Call)
    requires Enabled(s, step) && !IsOf(step, d)
    ensures Apply(s, step).Computed(d) == s.Computed(d)
  {
    if step.Of? {
      hide CanMove, ApplyMove;
      ComputedForOthers(s, step.c, step.move, d);
    } else {
      hide Apply, Enabled;
      OtherStepLeavesCalls(s, step);
    }
  }

  lemma ComputedForOthers(s: State, c: Call, m: Move, d: Call)
    requires CanMove(s, c, m) && c != d
    ensures ApplyMove(s, c, m).Computed(d) == s.Computed(d)
  {
    hide Reads, KeyOf;
  }

  /** What a move of `d` does to the count of its model calls and to its phase. */
  ghost predicate PaysRight(s: State, d: Call, m: Move)
    requires CanMove(s, d, m)
  {
    var t := ApplyMove(s, d, m);
    && t.Computed(d) == s.Computed(d) + (if Pays(s, d, m) then 1 else 0)
    && (t.PhaseOf(d).Computing? <==> Pays(s, d, m) || m.ReadSource?)
  }

  lemma StartPays(s: State, d: Call, m: Move)
    requires CanMove(s, d, m) && (m.Bypass? || m.Begin? || m.ReadVersion? || m.FormKey?)
    ensures PaysRight(s, d, m)
  {
    hide Reads, KeyOf;
  }

  lemma LookPays(s: State, d: Call, m: Move)
    requires CanMove(s, d, m) && (m.LookUp? || m.Poll?)
    ensures PaysRight(s, d, m)
  {
  }

  lemma LockPays(s: State, d: Call, m: Move)
    requires CanMove(s, d, m) && (m.TryLock? || m.LoseLock?)
    ensures PaysRight(s, d, m)
  {
  }

  lemma WaitPays(s: State, d: Call, m: Move)
    requires CanMove(s, d, m) && (m.CheckWait? || m.ReadSource?)
    ensures PaysRight(s, d, m)
  {
    hide Reads;
  }

  lemma EndPays(s: State, d: Call, m: Move)
    requires CanMove(s, d, m) && (m.EndCompute? || m.Store? || m.Unlock?)
    ensures PaysRight(s, d, m)
  {
    hide Reads;
  }

  lemma OwnMovePays(s: State, d: Call, m: Move)
    requires CanMove(s, d, m)
    ensures PaysRight(s, d, m)
  {
    hide PaysRight, CanMove;
    match m
    case LookUp(_) | Poll(_) => LookPays(s, d, m);
    case TryLock(_) | LoseLock => LockPays(s, d, m);
    case CheckWait | ReadSource(_) => WaitPays(s, d, m);
    case EndCompute(_) | Store(_, _) | Unlock(_) => EndPays(s, d, m);
    case _ => StartPays(s, d, m);
  }

  /** A step starts a model call for `d` if and only if it is a paying move of `d`. */
  lemma PaysExactly(s: State, step: Step, d: Call)
    requires Enabled(s, step)
    ensures Apply(s, step).Computed(d) == s.Computed(d) + if IsOf(step, d) && Pays(s, d, step.move) then 1 else 0
  {
    hide CanMove, ApplyMove, Pays;
    if IsOf(step, d) {
      OwnMovePays(s, d, step.move);
    } else {
      OtherStepsPayNothing(s, step, d);
    }
  }

  // ----- a follower waits -----

  /** `d` follows the owner of `k` since a time, or has got an answer from the cache. */
  predicate Following(s: State, d: Call, k: Key, since: nat) {
    match s.PhaseOf(d)
    case Waiting(j, u, _) => j == k && u == since
    case Sleeping(j, u, _, _) => j == k && u == since
    case Returned(res) => res.Hit?
    case _ => false
  }

  lemma OtherStepKeepsPhase(s: State, step: Step, d: Call)
    requires Enabled(s, step) && !IsOf(step, d)
    ensures Apply(s, step).PhaseOf(d) == s.PhaseOf(d) && Apply(s, step).now >= s.now
  {
    if step.Of? {
      hide CanMove, ApplyMove;
      CallsLeaveData(s, step.c, step.move);
    } else {
      hide Apply, Enabled;
      OtherStepLeavesCalls(s, step);
    }
  }

  lemma FollowerMoves(s: State, d: Call, m: Move, k: Key, since: nat)
    requires CanMove(s, d, m) && Following(s, d, k, since)
    ensures var t := ApplyMove(s, d, m); t.now == s.now && (Following(t, d, k, since) || s.now >= since + 8000)
  {
    hide Reads, KeyOf;
  }

  lemma FollowerPays(s: State, d: Call, m: Move, k: Key, since: nat)
    requires CanMove(s, d, m) && Following(s, d, k, since) && Pays(s, d, m)
    ensures s.now >= since + 8000
  {
  }

  lemma FollowsOn(s: State, step: Step, d: Call, k: Key, since: nat)
    requires Enabled(s, step) && Following(s, d, k, since)
    ensures var t := Apply(s, step);
      t.now >= s.now && (t.now >= since + 8000 || (Following(t, d, k, since) && t.Computed(d) == s.Computed(d)))
  {
    hide CanMove, ApplyMove, Pays;
    PaysExactly(s, step, d);
    if IsOf(step, d) {
      FollowerMoves(s, d, step.move, k, since);
      if Pays(s, d, step.move) { FollowerPays(s, d, step.move, k, since); }
    } else {
      hide Apply, Enabled;
      OtherStepKeepsPhase(s, step, d);
    }
  }

  lemma TimeGoesOn(s: State, step: Step)
    requires Enabled(s, step)
    ensures Apply(s, step).now >= s.now
  {
    if step.Of? {
      hide CanMove, ApplyMove;
      CallsLeaveData(s, step.c, step.move);
    }
  }

  lemma {:induction false} TimeOnlyGrows(s: State, steps: seq<Step>)
    requires Possible(s, steps)
    ensures Run(s, steps).now >= s.now
    decreases |steps|
  {
    hide Apply, Enabled;
    if steps != [] {
      TimeGoesOn(s, steps[0]);
      TimeOnlyGrows(Apply(s, steps[0]), steps[1..]);
    }
  }

  lemma {:induction false} FollowsFrom(s: State, steps: seq<Step>, d: Call, k: Key, since: nat)
    requires Possible(s, steps) && Following(s, d, k, since)
    ensures var t := Run(s, steps);
      t.now >= since + 8000 || (Following(t, d, k, since) && t.Computed(d) == s.Computed(d))
    decreases |steps|
  {
    hide Apply, Enabled, Following;
    if steps != [] {
      var t := Apply(s, steps[0]);
      FollowsOn(s, steps[0], d, k, since);
      if t.now >= since + 8000 { TimeOnlyGrows(t, steps[1..]); } else { FollowsFrom(t, steps[1..], d, k, since); }
    }
  }

  lemma RefusedFollows(s: State, d: Call)
    requires s.PhaseOf(d).Locking? && s.Locked(s.PhaseOf(d).key)
    ensures var step := Of(d, TryLock(true));
      Enabled(s, step) && Following(Apply(s, step), d, s.PhaseOf(d).key, s.now)
      && Apply(s, step).Computed(d) == s.Computed(d)
  {
  }

  /** In every run a call that finds the lock taken follows the owner for eight seconds: until then it
      waits, or it has been served from the cache, and it has not called the model. */
  lemma FollowerWaits(s: State, d: Call, steps: seq<Step>)
    requires s.PhaseOf(d).Locking? && s.Locked(s.PhaseOf(d).key)
    requires Possible(s, [Of(d, TryLock(true))] + steps)
    ensures var t := Run(s, [Of(d, TryLock(true))] + steps);
      t.now >= s.now + 8000 || (Following(t, d, s.PhaseOf(d).key, s.now) && t.Computed(d) == s.Computed(d))
  {
    hide Apply, Enabled, Following;
    RefusedFollows(s, d);
    assert ([Of(d, TryLock(true))] + steps)[1..] == steps;
    FollowsFrom(Apply(s, Of(d, TryLock(true))), steps, d, s.PhaseOf(d).key, s.now);
  }

  /** It looks at the cache every 150 ms, and at the clock before each look. */
  lemma FollowerPauses(s: State, d: Call, m: Move)
    requires CanMove(s, d, m)
    ensures s.PhaseOf(d).Waiting? ==> m == CheckWait
    ensures s.PhaseOf(d).Waiting? && s.now < s.PhaseOf(d).since + 8000 ==>
      ApplyMove(s, d, m).PhaseOf(d).Sleeping? && ApplyMove(s, d, m).PhaseOf(d).wake == s.now + 150
    ensures s.PhaseOf(d).Sleeping? ==> m.Poll? && s.now >= s.PhaseOf(d).wake
  {
    hide Reads, KeyOf;
  }

  // ----- and is served -----

  /** The entry of `k` holds `v` all along. */
  ghost predicate Lives(s: State, steps: seq<Step>, k: Key, v: Value)
    requires Possible(s, steps)
    decreases |steps|
  {
    s.Get(k) == Some(v) && (steps == [] || Lives(Apply(s, steps[0]), steps[1..], k, v))
  }

  predicate Acts(steps: seq<Step>, d: Call)
    decreases |steps|
  {
    steps != [] && (IsOf(steps[0], d) || Acts(steps[1..], d))
  }

  /** Redis answers the polls of `d`. */
  predicate PollsAnswered(steps: seq<Step>, d: Call)
    decreases |steps|
  {
    steps == [] || ((IsOf(steps[0], d) && steps[0].move.Poll? ==> steps[0].move.ok) && PollsAnswered(steps[1..], d))
  }

  lemma PollHits(s: State, step: Step, d: Call, k: Key, v: Value)
    requires Enabled(s, step) && IsOf(step, d) && s.PhaseOf(d).Sleeping? && s.PhaseOf(d).key == k && s.Get(k) == Some(v)
    requires step.move.Poll? ==> step.move.ok
    ensures Apply(s, step).PhaseOf(d) == Returned(Hit(v))
  {
    hide Reads, KeyOf;
  }

  lemma {:induction false} ReturnedStays(s: State, steps: seq<Step>, d: Call)
    requires Possible(s, steps) && s.PhaseOf(d).Returned?
    ensures Run(s, steps).PhaseOf(d) == s.PhaseOf(d) && Run(s, steps).Computed(d) == s.Computed(d)
    decreases |steps|
  {
    if steps != [] {
      ReturnedRests(s, steps[0], d);
      ReturnedStays(Apply(s, steps[0]), steps[1..], d);
    }
  }

  lemma ReturnedRests(s: State, step: Step, d: Call)
    requires Enabled(s, step) && s.PhaseOf(d).Returned?
    ensures Apply(s, step).PhaseOf(d) == s.PhaseOf(d) && Apply(s, step).Computed(d) == s.Computed(d)
  {
    assert !IsOf(step, d);
    hide Apply, Enabled;
    OtherStepKeepsPhase(s, step, d);
    OtherStepsPayNothing(s, step, d);
  }

  /** In every run: while the entry of its key lives, a sleeping follower whose polls are answered
      sleeps on or, with its next move, returns the value of the entry through `onHit`; it does not
      call the model. */
  lemma {:induction false} FollowerIsServed(s: State, steps: seq<Step>, d: Call, k: Key, v: Value)
    requires Possible(s, steps) && s.PhaseOf(d).Sleeping? && s.PhaseOf(d).key == k
    requires Lives(s, steps, k, v) && PollsAnswered(steps, d)
    ensures Run(s, steps).Computed(d) == s.Computed(d)
    ensures Run(s, steps).PhaseOf(d) == if Acts(steps, d) then Returned(Hit(v)) else s.PhaseOf(d)
    decreases |steps|
  {
    if steps != [] {
      hide Apply, Enabled, Pays;
      var t := Apply(s, steps[0]);
      PaysExactly(s, steps[0], d);
      if IsOf(steps[0], d) {
        PollHits(s, steps[0], d, k, v);
        SleeperPaysNothing(s, steps[0], d);
        ReturnedStays(t, steps[1..], d);
      } else {
        OtherStepKeepsPhase(s, steps[0], d);
        FollowerIsServed(t, steps[1..], d, k, v);
      }
    }
  }

  lemma SleeperPaysNothing(s: State, step: Step, d: Call)
    requires Enabled(s, step) && IsOf(step, d) && s.PhaseOf(d).Sleeping?
    ensures !Pays(s, d, step.move)
  {
  }

  // ----- two callers, one model call -----

  /** From its start to its first look at the clock, of a call that finds the lock taken. */
  function Joining(d: Call): seq<Step> { Asking(d) + ([Of(d, TryLock(true))] + [Of(d, CheckWait)]) }

  function Asleep(s: State, d: Call, k: Key): State { s.Move(d, Sleeping(k, s.now, 0, s.now + 150)) }

  lemma RefusedSleeps(s: State, d: Call, k: Key)
    requires s.PhaseOf(d) == Locking(k) && s.Locked(k)
    ensures var steps := [Of(d, TryLock(true))] + [Of(d, CheckWait)];
      Possible(s, steps) && Run(s, steps) == Asleep(s, d, k)
  {
    hide Run, Possible;
    var t := s.Move(d, Waiting(k, s.now, 0));
    RunOne(s, Of(d, TryLock(true)));
    RunOne(t, Of(d, CheckWait));
    RunConcat(s, [Of(d, TryLock(true))], [Of(d, CheckWait)]);
    MoveTwice(s, d, Waiting(k, s.now, 0));
  }

  lemma Joins(s: State, d: Call, k: Key)
    requires s.PhaseOf(d).Idle? && k == CurrentKey(s, d.request) && s.Get(k).None? && s.Locked(k)
    ensures Possible(s, Joining(d)) && Run(s, Joining(d)) == Asleep(s, d, k)
  {
    hide Run, Possible, Asking, CurrentKey;
    Asks(s, d);
    RefusedSleeps(s.Move(d, Locking(k)), d, k);
    RunConcat(s, Asking(d), [Of(d, TryLock(true))] + [Of(d, CheckWait)]);
    MoveTwice(s, d, Locking(k));
  }

  /** The owner stores its value; a pause later the follower polls. */
  function Sharing(c: Call, d: Call, ttlMs: nat): seq<Step> {
    [Of(c, EndCompute(true))] + ([Of(c, Store(true, ttlMs))] + ([Tick(150)] + [Of(d, Poll(true))]))
  }

  lemma EndIs(s: State, c: Call, ok: bool)
    requires s.PhaseOf(c).Computing? && (ok ==> forall x | x in Reads(c.request) :: x in s.PhaseOf(c).saw)
    ensures Enabled(s, Of(c, EndCompute(ok)))
    ensures var p := s.PhaseOf(c);
      Apply(s, Of(c, EndCompute(ok))) == s.Move(c,
        if p.lease.None? then Returned(if ok then Fresh(Value(c, p.saw)) else Threw)
        else if ok then Storing(p.lease.value, Value(c, p.saw)) else Unlocking(p.lease.value, Threw))
  {
    hide Reads;
  }

  lemma StoreIs(s: State, c: Call, ok: bool, ttlMs: nat)
    requires s.PhaseOf(c).Storing?
    ensures Enabled(s, Of(c, Store(ok, ttlMs)))
    ensures var l, v := s.PhaseOf(c).owned, s.PhaseOf(c).value;
      Apply(s, Of(c, Store(ok, ttlMs)))
        == s.Move(c, Unlocking(l, Fresh(v))).(memo := if ok then s.memo[l.key := Entry(v, s.now + ttlMs)] else s.memo)
  {
    hide Reads;
  }

  lemma UnlockIs(s: State, c: Call, ok: bool)
    requires s.PhaseOf(c).Unlocking?
    ensures Enabled(s, Of(c, Unlock(ok)))
    ensures var p := s.PhaseOf(c);
      Apply(s, Of(c, Unlock(ok))) == s.Move(c, Returned(p.result)).(locks := if ok then s.locks - {p.owned.key} else s.locks)
  {
    hide Reads;
  }

  lemma OwnerStores(s: State, c: Call, l: Lease, saw: map<Source, nat>, ttlMs: nat)
    requires s.PhaseOf(c) == Computing(Some(l), saw) && forall x | x in Reads(c.request) :: x in saw
    ensures var steps, v := [Of(c, EndCompute(true))] + [Of(c, Store(true, ttlMs))], Value(c, saw);
      Possible(s, steps)
      && Run(s, steps) == s.Move(c, Unlocking(l, Fresh(v))).(memo := s.memo[l.key := Entry(v, s.now + ttlMs)])
  {
    hide Run, Possible, Apply, Enabled;
    var t := s.Move(c, Storing(l, Value(c, saw)));
    EndIs(s, c, true);
    StoreIs(t, c, true, ttlMs);
    RunOne(s, Of(c, EndCompute(true)));
    RunOne(t, Of(c, Store(true, ttlMs)));
    RunConcat(s, [Of(c, EndCompute(true))], [Of(c, Store(true, ttlMs))]);
    MoveTwice(s, c, Storing(l, Value(c, saw)));
  }

  lemma SleeperHits(s: State, d: Call, k: Key, v: Value)
    requires s.PhaseOf(d).Sleeping? && s.PhaseOf(d).key == k && s.PhaseOf(d).wake <= s.now + 150
    requires k in s.memo && s.memo[k].value == v && s.now + 150 < s.memo[k].expires
    ensures var steps := [Tick(150)] + [Of(d, Poll(true))];
      Possible(s, steps) && Run(s, steps) == s.(now := s.now + 150).Move(d, Returned(Hit(v)))
  {
    hide Run, Possible, Apply, Enabled;
    TickIs(s, 150);
    RunOne(s, Tick(150));
    AwakeHits(s.(now := s.now + 150), d, v);
    RunConcat(s, [Tick(150)], [Of(d, Poll(true))]);
  }

  lemma TickIs(s: State, ms: nat)
    ensures Enabled(s, Tick(ms)) && Apply(s, Tick(ms)) == s.(now := s.now + ms)
  {
  }

  lemma AwakeHits(t: State, d: Call, v: Value)
    requires t.PhaseOf(d).Sleeping? && t.PhaseOf(d).wake <= t.now && t.Get(t.PhaseOf(d).key) == Some(v)
    ensures Possible(t, [Of(d, Poll(true))]) && Run(t, [Of(d, Poll(true))]) == t.Move(d, Returned(Hit(v)))
  {
    hide Run, Possible;
    RunOne(t, Of(d, Poll(true)));
  }

  lemma OwnerStays(s: State, c: Call, d: Call, k: Key)
    requires c != d
    ensures Asleep(s, d, k).PhaseOf(c) == s.PhaseOf(c) && Asleep(s, d, k).PhaseOf(d) == Sleeping(k, s.now, 0, s.now + 150)
    ensures Asleep(s, d, k).computed == s.computed && Asleep(s, d, k).now == s.now
  {
  }

  /** Two calls with one key, and one model call: while `c` owns the lock and computes, `d` arrives,
      finds no answer and the lock taken; `c` stores its value; the first poll of `d` returns it. */
  lemma FollowerShares(s: State, c: Call, d: Call, l: Lease, saw: map<Source, nat>, ttlMs: nat)
    requires c != d && s.PhaseOf(d).Idle? && l.key == CurrentKey(s, d.request)
    requires s.PhaseOf(c) == Computing(Some(l), saw) && forall x | x in Reads(c.request) :: x in saw
    requires s.Get(l.key).None? && s.Locked(l.key) && ttlMs > 150
    ensures Possible(s, Joining(d) + Sharing(c, d, ttlMs))
    ensures var t := Run(s, Joining(d) + Sharing(c, d, ttlMs));
      t.PhaseOf(d) == Returned(Hit(Value(c, saw))) && t.computed == s.computed && t.now == s.now + 150
  {
    hide Run, Possible, Joining, CurrentKey, Asleep;
    var k, v := l.key, Value(c, saw);
    Joins(s, d, k);
    OwnerStays(s, c, d, k);
    var t := Asleep(s, d, k);
    OwnerStores(t, c, l, saw, ttlMs);
    var stores, polls := [Of(c, EndCompute(true))] + [Of(c, Store(true, ttlMs))], [Tick(150)] + [Of(d, Poll(true))];
    SleeperHits(Run(t, stores), d, k, v);
    RunConcat(t, stores, polls);
    assert Sharing(c, d, ttlMs) == stores + polls;
    RunConcat(s, Joining(d), Sharing(c, d, ttlMs));
  }

  // ----- the end of a computation, and how long its traces last -----

  function Ending(c: Call, owns: bool, stored: bool, deleted: bool, ttlMs: nat): seq<Step> {
    [Of(c, EndCompute(true))] + if owns then [Of(c, Store(stored, ttlMs))] + [Of(c, Unlock(deleted))] else []
  }

  /** Whatever Redis answers to its `SET` and `DEL`, a call that has computed a value returns it. An owner leaves the
      entry if the `SET` was answered, and its lock if the `DEL` was not; a call without a lock leaves nothing. */
  lemma ComputedIsReturned(s: State, c: Call, l: Option<Lease>, saw: map<Source, nat>, stored: bool, deleted: bool, ttlMs: nat)
    requires s.PhaseOf(c) == Computing(l, saw) && forall x | x in Reads(c.request) :: x in saw
    ensures var steps, v := Ending(c, l.Some?, stored, deleted, ttlMs), Value(c, saw);
      Possible(s, steps)
      && Run(s, steps) == s.Move(c, Returned(Fresh(v))).(
           memo := if l.Some? && stored then s.memo[l.value.key := Entry(v, s.now + ttlMs)] else s.memo,
           locks := if l.Some? && deleted then s.locks - {l.value.key} else s.locks)
  {
    hide Run, Possible, Apply, Enabled;
    EndIs(s, c, true);
    RunOne(s, Of(c, EndCompute(true)));
    if l.Some? {
      var v := Value(c, saw);
      var t := s.Move(c, Storing(l.value, v));
      StoresAndDeletes(t, c, l.value, v, stored, deleted, ttlMs);
      RunConcat(s, [Of(c, EndCompute(true))], [Of(c, Store(stored, ttlMs))] + [Of(c, Unlock(deleted))]);
      MoveTwice(s, c, Storing(l.value, v));
    } else {
      assert [Of(c, EndCompute(true))] + [] == [Of(c, EndCompute(true))];
    }
  }

  lemma StoresAndDeletes(t: State, c: Call, l: Lease, v: Value, stored: bool, deleted: bool, ttlMs: nat)
    requires t.PhaseOf(c) == Storing(l, v)
    ensures var steps := [Of(c, Store(stored, ttlMs))] + [Of(c, Unlock(deleted))];
      Possible(t, steps)
      && Run(t, steps) == t.Move(c, Returned(Fresh(v))).(
           memo := if stored then t.memo[l.key := Entry(v, t.now + ttlMs)] else t.memo,
           locks := if deleted then t.locks - {l.key} else t.locks)
  {
    hide Run, Possible, Apply, Enabled;
    var u := t.Move(c, Unlocking(l, Fresh(v))).(memo := if stored then t.memo[l.key := Entry(v, t.now + ttlMs)] else t.memo);
    StoreIs(t, c, stored, ttlMs);
    UnlockIs(u, c, deleted);
    RunOne(t, Of(c, Store(stored, ttlMs)));
    RunOne(u, Of(c, Unlock(deleted)));
    RunConcat(t, [Of(c, Store(stored, ttlMs))], [Of(c, Unlock(deleted))]);
    MoveTwice(t, c, Unlocking(l, Fresh(v)));
  }

  /** A call that throws throws to its caller too, after the same `DEL` if it is an owner. */
  lemma ThrownIsThrown(s: State, c: Call, l: Option<Lease>, saw: map<Source, nat>, deleted: bool)
    requires s.PhaseOf(c) == Computing(l, saw)
    ensures var steps := [Of(c, EndCompute(false))] + if l.Some? then [Of(c, Unlock(deleted))] else [];
      Possible(s, steps)
      && Run(s, steps) == s.Move(c, Returned(Threw)).(
           locks := if l.Some? && deleted then s.locks - {l.value.key} else s.locks)
  {
    hide Run, Possible, Apply, Enabled;
    EndIs(s, c, false);
    RunOne(s, Of(c, EndCompute(false)));
    if l.Some? {
      var t := s.Move(c, Unlocking(l.value, Threw));
      UnlockIs(t, c, deleted);
      RunOne(t, Of(c, Unlock(deleted)));
      RunConcat(s, [Of(c, EndCompute(false))], [Of(c, Unlock(deleted))]);
      MoveTwice(s, c, Unlocking(l.value, Threw));
    } else {
      assert [Of(c, EndCompute(false))] + [] == [Of(c, EndCompute(false))];
    }
  }

  /** If nothing touches it, an entry is found for its time to live, and a lock is held for 15 s, whether or not
      the answer to its `SET` was lost. */
  lemma TracesLast(s: State, c: Call, ttlMs: nat, ms: nat, lost: bool)
    ensures s.PhaseOf(c).Storing? ==>
      var t := Apply(Apply(s, Of(c, Store(true, ttlMs))), Tick(ms));
      t.Get(s.PhaseOf(c).owned.key) == if ms < ttlMs then Some(s.PhaseOf(c).value) else None
    ensures s.PhaseOf(c).Locking? && !s.Locked(s.PhaseOf(c).key) ==>
      var t := Apply(Apply(s, Of(c, if lost then LoseLock else TryLock(true))), Tick(ms));
      t.Locked(s.PhaseOf(c).key) <==> ms < 15_000
  {
  }
}
