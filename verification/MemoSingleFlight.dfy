/** One computation at a time: the lease lock of memo-cache.ts, what a call may
    return, how often it computes and how long it waits. */
module MemoSingleFlight {
  import opened JsText
  import opened MemoProtocol

  // ----- the lock -----

  function LeaseOf(p: Phase): Option<Lease> {
    match p
    case Computing(lease, _) => lease
    case Storing(l, _) => Some(l)
    case Unlocking(l, _) => Some(l)
    case _ => None
  }

  predicate Owns(s: State, c: Call, k: Key) {
    LeaseOf(s.PhaseOf(c)).Some? && LeaseOf(s.PhaseOf(c)).value.key == k
  }

  function UntilOf(s: State, c: Call): nat {
    match LeaseOf(s.PhaseOf(c))
    case Some(l) => l.until
    case None => 0
  }

  /** The lock under `k` is the one that `c` has set. */
  predicate HasLock(s: State, c: Call, k: Key) { k in s.locks && s.locks[k] == Lock(c, UntilOf(s, c)) }

  /** At most one call computes under `k` as the owner of its lock. */
  ghost predicate OneOwner(s: State, k: Key) { forall c, d :: Owns(s, c, k) && Owns(s, d, k) ==> c == d }

  /** The lock that an owner of `k` is going to delete is its own. */
  ghost predicate OwnLock(s: State, k: Key) { forall c :: Owns(s, c, k) ==> HasLock(s, c, k) }

  /** The same, but only for owners inside their lease. */
  ghost predicate LeaseLock(s: State, k: Key) { forall c :: Owns(s, c, k) && s.now < UntilOf(s, c) ==> HasLock(s, c, k) }

  /** An owner of `k` is still at work after its lease. */
  ghost predicate Outlived(s: State, k: Key) { exists c :: Owns(s, c, k) && UntilOf(s, c) <= s.now }

  /** The step is a `SET` that finds the lock of `k` free. */
  predicate Sets(s: State, step: Step, k: Key) {
    step.Of? && (step.move == TryLock(true) || step.move.LoseLock?) && s.PhaseOf(step.c) == Locking(k) && !s.Locked(k)
  }

  /** A new owner sets the lock although an owner past its lease is still at work. */
  ghost predicate Overtakes(s: State, step: Step, k: Key) {
    Sets(s, step, k) && step.move.TryLock? && Outlived(s, k)
  }

  /** The same, or a caller does so whose `SET` takes effect but is not answered. */
  ghost predicate Displaces(s: State, step: Step, k: Key) { Sets(s, step, k) && Outlived(s, k) }

  ghost predicate AlwaysOneOwner(s: State, steps: seq<Step>, k: Key)
    requires Possible(s, steps)
    decreases |steps|
  {
    OneOwner(s, k) && (steps == [] || AlwaysOneOwner(Apply(s, steps[0]), steps[1..], k))
  }

  ghost predicate AlwaysOwnLock(s: State, steps: seq<Step>, k: Key)
    requires Possible(s, steps)
    decreases |steps|
  {
    OwnLock(s, k) && (steps == [] || AlwaysOwnLock(Apply(s, steps[0]), steps[1..], k))
  }

  ghost predicate NeverOvertakes(s: State, steps: seq<Step>, k: Key)
    requires Possible(s, steps)
    decreases |steps|
  {
    steps == [] || (!Overtakes(s, steps[0], k) && NeverOvertakes(Apply(s, steps[0]), steps[1..], k))
  }

  ghost predicate NeverDisplaces(s: State, steps: seq<Step>, k: Key)
    requires Possible(s, steps)
    decreases |steps|
  {
    steps == [] || (!Displaces(s, steps[0], k) && NeverDisplaces(Apply(s, steps[0]), steps[1..], k))
  }

  /** The lock of `k` is untouched and no call becomes its owner. */
  ghost predicate Calm(s: State, t: State, k: Key) {
    && t.now >= s.now
    && (k in t.locks <==> k in s.locks) && (k in s.locks ==> t.locks[k] == s.locks[k])
    && forall c :: Owns(t, c, k) ==> Owns(s, c, k) && UntilOf(t, c) == UntilOf(s, c)
  }

  lemma CalmKeeps(s: State, t: State, k: Key)
    requires Calm(s, t, k)
    ensures OneOwner(s, k) ==> OneOwner(t, k)
    ensures LeaseLock(s, k) ==> LeaseLock(t, k)
    ensures OwnLock(s, k) ==> OwnLock(t, k)
  {
    hide Owns, UntilOf;
  }

  predicate Returns(s: State, step: Step, k: Key) { step.Of? && step.move.Unlock? && Owns(s, step.c, k) }

  lemma StepIsCalm(s: State, step: Step, k: Key)
    requires Enabled(s, step) && !Sets(s, step, k) && !Returns(s, step, k)
    ensures Calm(s, Apply(s, step), k)
  {
    if step.Of? {
      match step.move {
        case TryLock(ok) => TryLockIsCalm(s, step.c, ok, k);
        case LoseLock => LoseLockIsCalm(s, step.c, k);
        case Unlock(ok) => UnlockIsCalm(s, step.c, ok, k);
        case _ => MoveIsCalm(s, step.c, step.move, k);
      }
    }
  }

  lemma TryLockIsCalm(s: State, c: Call, ok: bool, k: Key)
    requires CanMove(s, c, TryLock(ok)) && !Sets(s, Of(c, TryLock(ok)), k)
    ensures Calm(s, ApplyMove(s, c, TryLock(ok)), k)
  {
    var key := s.PhaseOf(c).key;
    if !ok {
      WithoutLeaseIsCalm(s, s.StartCompute(c, None), c, k);
    } else if s.Locked(key) {
      WithoutLeaseIsCalm(s, s.Move(c, Waiting(key, s.now, 0)), c, k);
    } else {
      OtherLockIsCalm(s, c, key, k);
    }
  }

  lemma WithoutLeaseIsCalm(s: State, t: State, c: Call, k: Key)
    requires t.locks == s.locks && OnlyTouches(s, t, c) && LeaseOf(t.PhaseOf(c)).None?
    ensures Calm(s, t, k)
  {
  }

  lemma OtherLockIsCalm(s: State, c: Call, key: Key, k: Key)
    requires s.PhaseOf(c) == Locking(key) && !s.Locked(key) && key != k
    ensures Calm(s, ApplyTryLock(s, c, key, true), k)
  {
  }

  lemma LoseLockIsCalm(s: State, c: Call, k: Key)
    requires CanMove(s, c, LoseLock) && !Sets(s, Of(c, LoseLock), k)
    ensures Calm(s, ApplyMove(s, c, LoseLock), k)
  {
  }

  lemma UnlockIsCalm(s: State, c: Call, ok: bool, k: Key)
    requires CanMove(s, c, Unlock(ok)) && !Owns(s, c, k)
    ensures Calm(s, ApplyMove(s, c, Unlock(ok)), k)
  {
  }

  lemma MoveIsCalm(s: State, c: Call, m: Move, k: Key)
    requires CanMove(s, c, m) && !m.TryLock? && !m.LoseLock? && !m.Unlock?
    ensures Calm(s, ApplyMove(s, c, m), k)
  {
    hide ApplyMove, CanMove;
    LeaseKept(s, c, m);
    CallsLeaveData(s, c, m);
  }

  /** Every other move leaves the locks alone and keeps the lease of the call or drops it. */
  lemma LeaseKept(s: State, c: Call, m: Move)
    requires CanMove(s, c, m) && !m.TryLock? && !m.LoseLock? && !m.Unlock?
    ensures var t := ApplyMove(s, c, m);
      t.locks == s.locks && (LeaseOf(t.PhaseOf(c)).Some? ==> LeaseOf(t.PhaseOf(c)) == LeaseOf(s.PhaseOf(c)))
  {
    match m
    case LookUp(ok) => LookUpOwnsNothing(s, c, ok);
    case Poll(ok) => PollOwnsNothing(s, c, ok);
    case CheckWait => CheckWaitOwnsNothing(s, c);
    case ReadSource(_) => ReadSourceKeepsLease(s, c, m);
    case EndCompute(_) => EndKeepsLease(s, c, m);
    case Store(_, _) => StoreKeepsLease(s, c, m);
    case _ => StartingOwnsNothing(s, c, m);
  }

  lemma ReadSourceKeepsLease(s: State, c: Call, m: Move)
    requires CanMove(s, c, m) && m.ReadSource?
    ensures ApplyMove(s, c, m).locks == s.locks && LeaseOf(ApplyMove(s, c, m).PhaseOf(c)) == LeaseOf(s.PhaseOf(c))
  {
    hide Reads;
  }

  lemma EndKeepsLease(s: State, c: Call, m: Move)
    requires CanMove(s, c, m) && m.EndCompute?
    ensures ApplyMove(s, c, m).locks == s.locks && LeaseOf(ApplyMove(s, c, m).PhaseOf(c)) == LeaseOf(s.PhaseOf(c))
  {
    hide Reads;
  }

  lemma StoreKeepsLease(s: State, c: Call, m: Move)
    requires CanMove(s, c, m) && m.Store?
    ensures ApplyMove(s, c, m).locks == s.locks && LeaseOf(ApplyMove(s, c, m).PhaseOf(c)) == LeaseOf(s.PhaseOf(c))
  {
  }

  lemma StartingOwnsNothing(s: State, c: Call, m: Move)
    requires CanMove(s, c, m) && (m.Bypass? || m.Begin? || m.ReadVersion? || m.FormKey?)
    ensures var t := ApplyMove(s, c, m);
      t.locks == s.locks && LeaseOf(t.PhaseOf(c)).None?
  {
    hide Reads, KeyOf;
  }

  lemma LookUpOwnsNothing(s: State, c: Call, ok: bool)
    requires CanMove(s, c, LookUp(ok))
    ensures var t := ApplyMove(s, c, LookUp(ok)); t.locks == s.locks && LeaseOf(t.PhaseOf(c)).None?
  {
  }

  lemma PollOwnsNothing(s: State, c: Call, ok: bool)
    requires CanMove(s, c, Poll(ok))
    ensures var t := ApplyMove(s, c, Poll(ok)); t.locks == s.locks && LeaseOf(t.PhaseOf(c)).None?
  {
  }

  lemma CheckWaitOwnsNothing(s: State, c: Call)
    requires CanMove(s, c, CheckWait)
    ensures var t := ApplyMove(s, c, CheckWait); t.locks == s.locks && LeaseOf(t.PhaseOf(c)).None?
  {
  }

  /** What a `SET` that finds the lock free leaves behind. */
  ghost predicate IsSet(s: State, t: State, c: Call, k: Key) {
    && t.now == s.now && k in t.locks && t.locks[k] == Lock(c, s.now + SF_LOCK_MS)
    && forall d | d != c :: (Owns(t, d, k) <==> Owns(s, d, k)) && UntilOf(t, d) == UntilOf(s, d)
  }

  lemma TryLockSets(s: State, c: Call, k: Key)
    requires Enabled(s, Of(c, TryLock(true))) && Sets(s, Of(c, TryLock(true)), k)
    ensures var t := Apply(s, Of(c, TryLock(true))); IsSet(s, t, c, k) && Owns(t, c, k) && HasLock(t, c, k)
  {
  }

  lemma LoseLockSets(s: State, c: Call, k: Key)
    requires Enabled(s, Of(c, LoseLock)) && Sets(s, Of(c, LoseLock), k)
    ensures var t := Apply(s, Of(c, LoseLock)); IsSet(s, t, c, k) && !Owns(t, c, k)
  {
  }

  lemma SetLeaves(s: State, step: Step, k: Key)
    requires Enabled(s, step) && Sets(s, step, k)
    ensures var t := Apply(s, step);
      IsSet(s, t, step.c, k) && (Owns(t, step.c, k) <==> step.move.TryLock?) && (step.move.TryLock? ==> HasLock(t, step.c, k))
  {
    hide Apply, Enabled, IsSet, Owns, HasLock;
    if step.move.TryLock? { TryLockSets(s, step.c, k); } else { LoseLockSets(s, step.c, k); }
  }

  /** Whoever finds the lock free meets only owners past their lease. */
  lemma FreeMeansOutlived(s: State, step: Step, k: Key)
    requires Sets(s, step, k) && LeaseLock(s, k) && !Outlived(s, k)
    ensures forall c :: !Owns(s, c, k)
  {
  }

  lemma SetKeeps(s: State, step: Step, k: Key)
    requires Enabled(s, step) && Sets(s, step, k) && forall c :: !Owns(s, c, k)
    ensures var t := Apply(s, step); OneOwner(t, k) && LeaseLock(t, k) && OwnLock(t, k)
  {
    hide Apply, Enabled, Owns, UntilOf;
    SetLeaves(s, step, k);
  }

  lemma ReturnKeeps(s: State, step: Step, k: Key)
    requires Enabled(s, step) && Returns(s, step, k)
    ensures forall c :: Owns(Apply(s, step), c, k) ==> c != step.c && Owns(s, c, k)
  {
  }

  lemma StepKeepsOneOwner(s: State, step: Step, k: Key)
    requires Enabled(s, step) && OneOwner(s, k) && LeaseLock(s, k) && !Overtakes(s, step, k)
    ensures OneOwner(Apply(s, step), k) && LeaseLock(Apply(s, step), k)
  {
    hide Apply, Enabled;
    if Sets(s, step, k) {
      if step.move.TryLock? {
        FreeMeansOutlived(s, step, k);
        SetKeeps(s, step, k);
      } else {
        LostSetKeeps(s, step, k);
      }
    } else if Returns(s, step, k) {
      ReturnKeeps(s, step, k);
    } else {
      StepIsCalm(s, step, k);
      CalmKeeps(s, Apply(s, step), k);
    }
  }

  /** A lock that no one owns is set only where no owner inside its lease holds one. */
  lemma LostSetKeeps(s: State, step: Step, k: Key)
    requires Enabled(s, step) && Sets(s, step, k) && step.move.LoseLock? && OneOwner(s, k) && LeaseLock(s, k)
    ensures OneOwner(Apply(s, step), k) && LeaseLock(Apply(s, step), k)
  {
    hide Apply, Enabled, Owns, UntilOf;
    SetLeaves(s, step, k);
  }

  lemma OvertakingBreaks(s: State, step: Step, k: Key)
    requires Enabled(s, step) && Overtakes(s, step, k)
    ensures !OneOwner(Apply(s, step), k)
  {
    hide Apply, Enabled;
    SetLeaves(s, step, k);
    var d :| Owns(s, d, k) && UntilOf(s, d) <= s.now;
    assert Owns(Apply(s, step), d, k);
  }

  lemma {:induction false} OneOwnerFrom(s: State, steps: seq<Step>, k: Key)
    requires Possible(s, steps) && OneOwner(s, k) && LeaseLock(s, k)
    ensures AlwaysOneOwner(s, steps, k) <==> NeverOvertakes(s, steps, k)
    decreases |steps|
  {
    hide Apply, Enabled, Overtakes, OneOwner, LeaseLock;
    if steps != [] {
      if Overtakes(s, steps[0], k) {
        OvertakingBreaks(s, steps[0], k);
      } else {
        StepKeepsOneOwner(s, steps[0], k);
        OneOwnerFrom(Apply(s, steps[0]), steps[1..], k);
      }
    }
  }

  /** Single flight, exactly: a key never has two owners if and only if no call
      takes its free lock while an owner past its lease is still at work. */
  lemma SingleFlight(steps: seq<Step>, k: Key)
    requires Possible(INIT, steps)
    ensures AlwaysOneOwner(INIT, steps, k) <==> NeverOvertakes(INIT, steps, k)
  {
    OneOwnerFrom(INIT, steps, k);
  }

  lemma StepKeepsOwnLock(s: State, step: Step, k: Key)
    requires Enabled(s, step) && OwnLock(s, k) && !Displaces(s, step, k)
    ensures OwnLock(Apply(s, step), k)
  {
    hide Apply, Enabled;
    if Sets(s, step, k) {
      FreeMeansOutlived(s, step, k);
      SetKeeps(s, step, k);
    } else if Returns(s, step, k) {
      ReturnKeeps(s, step, k);
      assert HasLock(s, step.c, k);
      assert forall c :: !Owns(Apply(s, step), c, k);
    } else {
      StepIsCalm(s, step, k);
      CalmKeeps(s, Apply(s, step), k);
    }
  }

  lemma DisplacingBreaks(s: State, step: Step, k: Key)
    requires Enabled(s, step) && Displaces(s, step, k)
    ensures !OwnLock(Apply(s, step), k)
  {
    hide Apply, Enabled;
    SetLeaves(s, step, k);
    var d :| Owns(s, d, k) && UntilOf(s, d) <= s.now;
    assert Owns(Apply(s, step), d, k) && !HasLock(Apply(s, step), d, k);
  }

  lemma {:induction false} OwnLockFrom(s: State, steps: seq<Step>, k: Key)
    requires Possible(s, steps) && OwnLock(s, k)
    ensures AlwaysOwnLock(s, steps, k) <==> NeverDisplaces(s, steps, k)
    decreases |steps|
  {
    hide Apply, Enabled, Displaces, OwnLock;
    if steps != [] {
      if Displaces(s, steps[0], k) {
        DisplacingBreaks(s, steps[0], k);
      } else {
        StepKeepsOwnLock(s, steps[0], k);
        OwnLockFrom(Apply(s, steps[0]), steps[1..], k);
      }
    }
  }

  /** An owner only ever has its own lock to delete if and only if no `SET`, answered
      or not, replaces the lock of an owner past its lease. */
  lemma DeletesOwnLock(steps: seq<Step>, k: Key)
    requires Possible(INIT, steps)
    ensures AlwaysOwnLock(INIT, steps, k) <==> NeverDisplaces(INIT, steps, k)
  {
    OwnLockFrom(INIT, steps, k);
  }

  ghost predicate AlwaysInLease(s: State, steps: seq<Step>, k: Key)
    requires Possible(s, steps)
    decreases |steps|
  {
    !Outlived(s, k) && (steps == [] || AlwaysInLease(Apply(s, steps[0]), steps[1..], k))
  }

  /** While every owner of a key finishes inside its lease there is neither a second
      owner nor a foreign lock to delete. */
  lemma {:induction false} InLeaseIsSafe(s: State, steps: seq<Step>, k: Key)
    requires Possible(s, steps) && AlwaysInLease(s, steps, k)
    ensures NeverOvertakes(s, steps, k) && NeverDisplaces(s, steps, k)
    decreases |steps|
  {
    hide Apply, Enabled, Outlived;
    if steps != [] { InLeaseIsSafe(Apply(s, steps[0]), steps[1..], k); }
  }

  // ----- a call on its own -----

  function Current(d: Data, r: Request): seq<nat> {
    seq(|Reads(r)|, i requires 0 <= i < |Reads(r)| => d.Version(Reads(r)[i]))
  }

  function CurrentKey(s: State, r: Request): Key { KeyOf(r, Current(s.data, r)) }

  function Repeat(c: Call, m: Move, n: nat): seq<Step> { if n == 0 then [] else [Of(c, m)] + Repeat(c, m, n - 1) }

  lemma {:induction false} RunConcat(s: State, a: seq<Step>, b: seq<Step>)
    requires Possible(s, a) && Possible(Run(s, a), b)
    ensures Possible(s, a + b) && Run(s, a + b) == Run(Run(s, a), b)
    decreases |a|
  {
    if a == [] {
      assert a + b == b;
    } else {
      RunConcat(Apply(s, a[0]), a[1..], b);
      assert (a + b)[1..] == a[1..] + b;
    }
  }

  lemma RunOne(s: State, step: Step)
    requires Enabled(s, step)
    ensures Possible(s, [step]) && Run(s, [step]) == Apply(s, step)
  {
    assert [step][1..] == [];
    assert Possible(Apply(s, step), []);
  }

  lemma {:induction false} ReadsVersions(s: State, c: Call, n: nat)
    requires n <= |Reads(c.request)| && s.PhaseOf(c) == ReadingVersions(Current(s.data, c.request)[..|Reads(c.request)| - n])
    ensures var steps := Repeat(c, ReadVersion(true), n);
      Possible(s, steps) && Run(s, steps) == s.Move(c, ReadingVersions(Current(s.data, c.request)))
    decreases n
  {
    var all := Current(s.data, c.request);
    var k := |Reads(c.request)| - n;
    if n == 0 {
      assert all[..k] == all;
      assert s.calls == s.calls[c := ReadingVersions(all)];
    } else {
      hide Current, Reads, Apply, Enabled;
      var t := s.Move(c, ReadingVersions(all[..k + 1]));
      ReadsNext(s, c, k);
      ReadsVersions(t, c, n - 1);
      MoveTwice(s, c, ReadingVersions(all[..k + 1]));
      var rest := Repeat(c, ReadVersion(true), n - 1);
      assert ([Of(c, ReadVersion(true))] + rest)[1..] == rest;
    }
  }

  lemma ReadsNext(s: State, c: Call, k: nat)
    requires k < |Reads(c.request)| && s.PhaseOf(c) == ReadingVersions(Current(s.data, c.request)[..k])
    ensures var step := Of(c, ReadVersion(true));
      Enabled(s, step) && Apply(s, step) == s.Move(c, ReadingVersions(Current(s.data, c.request)[..k + 1]))
  {
    hide Reads;
    var all := Current(s.data, c.request);
    assert all[..k] + [all[k]] == all[..k + 1];
  }

  /** From the start of `memoCall` to the answer of the first `GET`. */
  function Asking(c: Call): seq<Step> {
    [Of(c, Begin)] + (Repeat(c, ReadVersion(true), |Reads(c.request)|) + [Of(c, FormKey), Of(c, LookUp(true))])
  }

  lemma FormsAndLooks(s: State, c: Call, vs: seq<nat>)
    requires |vs| == |Reads(c.request)| && s.PhaseOf(c) == ReadingVersions(vs)
    ensures var k, steps := KeyOf(c.request, vs), [Of(c, FormKey), Of(c, LookUp(true))];
      && Possible(s, steps)
      && Run(s, steps) == s.Move(c, if s.Get(k).Some? then Returned(Hit(s.Get(k).value)) else Locking(k))
  {
    hide Reads, KeyOf;
    var k := KeyOf(c.request, vs);
    var t := Apply(s, Of(c, FormKey));
    assert t == s.Move(c, LookingUp(k)) && t.Get(k) == s.Get(k);
    RunOne(t, Of(c, LookUp(true)));
    var steps := [Of(c, FormKey), Of(c, LookUp(true))];
    assert steps[1..] == [Of(c, LookUp(true))];
  }

  lemma Asks(s: State, c: Call)
    requires s.PhaseOf(c).Idle?
    ensures var k := CurrentKey(s, c.request);
      && Possible(s, Asking(c))
      && Run(s, Asking(c)) == s.Move(c, if s.Get(k).Some? then Returned(Hit(s.Get(k).value)) else Locking(k))
  {
    hide Run, Possible, Repeat;
    var n, all := |Reads(c.request)|, Current(s.data, c.request);
    var t, u := s.Move(c, ReadingVersions([])), s.Move(c, ReadingVersions(all));
    RunOne(s, Of(c, Begin));
    assert all[..0] == [];
    ReadsVersions(t, c, n);
    assert t.Move(c, ReadingVersions(all)) == u;
    FormsAndLooks(u, c, all);
    RunConcat(t, Repeat(c, ReadVersion(true), n), [Of(c, FormKey), Of(c, LookUp(true))]);
    RunConcat(s, [Of(c, Begin)], Repeat(c, ReadVersion(true), n) + [Of(c, FormKey), Of(c, LookUp(true))]);
    MoveTwice(s, c, ReadingVersions(all));
  }

  /** The phase of a call is overwritten; nothing else is touched. */
  lemma MoveTwice(s: State, c: Call, p: Phase)
    ensures forall q :: s.Move(c, p).Move(c, q) == s.Move(c, q)
  {
    forall q ensures s.Move(c, p).Move(c, q) == s.Move(c, q) {
      assert s.calls[c := p][c := q] == s.calls[c := q];
    }
  }

  /** A call that finds a live entry under its current key returns it through
      `onHit` without computing, locking or writing. */
  lemma StoredAnswerIsServed(s: State, c: Call)
    requires s.PhaseOf(c).Idle? && s.Get(CurrentKey(s, c.request)).Some?
    ensures Possible(s, Asking(c))
    ensures Run(s, Asking(c)) == s.Move(c, Returned(Hit(s.Get(CurrentKey(s, c.request)).value)))
  {
    Asks(s, c);
  }

  function Seen(d: Data, xs: seq<Source>): map<Source, nat> { map x | x in xs :: d.Epoch(x) }

  function Visits(c: Call, xs: seq<Source>): seq<Step> {
    if xs == [] then [] else Visits(c, xs[..|xs| - 1]) + [Of(c, ReadSource(xs[|xs| - 1]))]
  }

  lemma {:induction false} ReadsSources(s: State, c: Call, lease: Option<Lease>, xs: seq<Source>)
    requires (forall x | x in xs :: x in Reads(c.request)) && s.PhaseOf(c) == Computing(lease, map[])
    ensures Possible(s, Visits(c, xs)) && Run(s, Visits(c, xs)) == s.Move(c, Computing(lease, Seen(s.data, xs)))
  {
    if xs == [] {
      assert s.calls == s.calls[c := Computing(lease, map[])];
      assert Seen(s.data, xs) == map[];
    } else {
      hide Run, Possible;
      var front, x := xs[..|xs| - 1], xs[|xs| - 1];
      ReadsSources(s, c, lease, front);
      ReadsLast(s, c, lease, front, x);
      assert xs == front + [x];
    }
  }

  lemma ReadsOne(s: State, c: Call, lease: Option<Lease>, saw: map<Source, nat>, x: Source)
    requires x in Reads(c.request)
    ensures var t, step := s.Move(c, Computing(lease, saw)), Of(c, ReadSource(x));
      Enabled(t, step) && Apply(t, step) == s.Move(c, Computing(lease, saw[x := s.data.Epoch(x)]))
  {
    hide Reads;
    MoveTwice(s, c, Computing(lease, saw));
  }

  lemma ReadsLast(s: State, c: Call, lease: Option<Lease>, front: seq<Source>, x: Source)
    requires x in Reads(c.request)
    requires Possible(s, Visits(c, front)) && Run(s, Visits(c, front)) == s.Move(c, Computing(lease, Seen(s.data, front)))
    ensures var steps := Visits(c, front) + [Of(c, ReadSource(x))];
      Possible(s, steps) && Run(s, steps) == s.Move(c, Computing(lease, Seen(s.data, front + [x])))
  {
    hide Run, Possible, Visits, Reads, Apply, Enabled;
    var t := s.Move(c, Computing(lease, Seen(s.data, front)));
    ReadsOne(s, c, lease, Seen(s.data, front), x);
    RunOne(t, Of(c, ReadSource(x)));
    RunConcat(s, Visits(c, front), [Of(c, ReadSource(x))]);
    assert Seen(s.data, front)[x := s.data.Epoch(x)] == Seen(s.data, front + [x]);
  }

  /** From the lock to the return of an owner that no one disturbs. */
  function Closing(c: Call, ttlMs: nat): seq<Step> {
    [Of(c, EndCompute(true)), Of(c, Store(true, ttlMs)), Of(c, Unlock(true))]
  }

  lemma Closes(s: State, c: Call, l: Lease, saw: map<Source, nat>, ttlMs: nat)
    requires s.PhaseOf(c) == Computing(Some(l), saw) && forall x | x in Reads(c.request) :: x in saw
    ensures Possible(s, Closing(c, ttlMs))
    ensures Run(s, Closing(c, ttlMs)) == Closed(s, c, l.key, Value(c, saw), ttlMs)
  {
    hide Run, Possible;
    var v := Value(c, saw);
    var t := s.Move(c, Storing(l, v));
    RunOne(s, Of(c, EndCompute(true)));
    StoresAndUnlocks(t, c, l, v, ttlMs);
    RunConcat(s, [Of(c, EndCompute(true))], [Of(c, Store(true, ttlMs)), Of(c, Unlock(true))]);
    assert Closing(c, ttlMs) == [Of(c, EndCompute(true))] + [Of(c, Store(true, ttlMs)), Of(c, Unlock(true))];
    MoveTwice(s, c, Storing(l, v));
  }

  /** The call has returned its own value, which is stored; its lock is gone. */
  function Closed(s: State, c: Call, k: Key, v: Value, ttlMs: nat): State {
    s.Move(c, Returned(Fresh(v))).(memo := s.memo[k := Entry(v, s.now + ttlMs)], locks := s.locks - {k})
  }

  lemma StoresAndUnlocks(t: State, c: Call, l: Lease, v: Value, ttlMs: nat)
    requires t.PhaseOf(c) == Storing(l, v)
    ensures var steps := [Of(c, Store(true, ttlMs)), Of(c, Unlock(true))];
      Possible(t, steps) && Run(t, steps) == Closed(t, c, l.key, v, ttlMs)
  {
    hide Run, Possible;
    var u := t.Move(c, Unlocking(l, Fresh(v))).(memo := t.memo[l.key := Entry(v, t.now + ttlMs)]);
    RunOne(t, Of(c, Store(true, ttlMs)));
    RunOne(u, Of(c, Unlock(true)));
    RunConcat(t, [Of(c, Store(true, ttlMs))], [Of(c, Unlock(true))]);
    assert u.calls[c := Returned(Fresh(v))] == t.calls[c := Returned(Fresh(v))];
    assert [Of(c, Store(true, ttlMs))] + [Of(c, Unlock(true))] == [Of(c, Store(true, ttlMs)), Of(c, Unlock(true))];
  }

  function Owning(c: Call, ttlMs: nat): seq<Step> {
    Asking(c) + ([Of(c, TryLock(true))] + (Visits(c, Reads(c.request)) + Closing(c, ttlMs)))
  }

  /** A call that finds neither an entry nor a lock computes once from the
      present data, leaves its value under its key and leaves no lock. */
  lemma MissComputesAndStores(s: State, c: Call, ttlMs: nat)
    requires s.PhaseOf(c).Idle?
    requires s.Get(CurrentKey(s, c.request)).None? && !s.Locked(CurrentKey(s, c.request))
    ensures Possible(s, Owning(c, ttlMs))
    ensures var k, v := CurrentKey(s, c.request), Value(c, Seen(s.data, Reads(c.request)));
      Run(s, Owning(c, ttlMs)) == Closed(s, c, k, v, ttlMs).(computed := s.computed[c := s.Computed(c) + 1])
  {
    hide Run, Possible, Visits, Asking, Closing, Closed, Seen, KeyOf, Reads, Current;
    var k, r := CurrentKey(s, c.request), c.request;
    Asks(s, c);
    var t := s.Move(c, Locking(k));
    OwnsAndCloses(t, c, k, ttlMs);
    RunConcat(s, Asking(c), [Of(c, TryLock(true))] + (Visits(c, Reads(r)) + Closing(c, ttlMs)));
    ClosedAfterMove(s, c, Locking(k), k, Value(c, Seen(s.data, Reads(r))), ttlMs);
  }

  lemma ClosedAfterMove(s: State, c: Call, p: Phase, k: Key, v: Value, ttlMs: nat)
    ensures Closed(s.Move(c, p), c, k, v, ttlMs) == Closed(s, c, k, v, ttlMs)
  {
    MoveTwice(s, c, p);
  }

  lemma OwnsAndCloses(t: State, c: Call, k: Key, ttlMs: nat)
    requires t.PhaseOf(c) == Locking(k) && !t.Locked(k)
    ensures var steps := [Of(c, TryLock(true))] + (Visits(c, Reads(c.request)) + Closing(c, ttlMs));
      var v := Value(c, Seen(t.data, Reads(c.request)));
      && Possible(t, steps)
      && Run(t, steps) == Closed(t, c, k, v, ttlMs).(computed := t.computed[c := t.Computed(c) + 1])
  {
    hide Run, Possible, Visits, Closing, Closed;
    var l := Lease(k, t.now + SF_LOCK_MS);
    var first := Of(c, TryLock(true));
    RunOne(t, first);
    var u := Apply(t, first);
    ReadsAndCloses(u, c, l, ttlMs);
    RunConcat(t, [first], Visits(c, Reads(c.request)) + Closing(c, ttlMs));
    LockedAndClosed(t, c, l, Value(c, Seen(t.data, Reads(c.request))), ttlMs);
  }

  lemma ReadsAndCloses(u: State, c: Call, l: Lease, ttlMs: nat)
    requires u.PhaseOf(c) == Computing(Some(l), map[])
    ensures var xs := Reads(c.request);
      var steps, v := Visits(c, xs) + Closing(c, ttlMs), Value(c, Seen(u.data, xs));
      Possible(u, steps) && Run(u, steps) == Closed(u, c, l.key, v, ttlMs)
  {
    hide Run, Possible, Visits, Closing, Closed;
    var xs := Reads(c.request);
    ReadsSources(u, c, Some(l), xs);
    var saw := Seen(u.data, xs);
    Closes(u.Move(c, Computing(Some(l), saw)), c, l, saw, ttlMs);
    RunConcat(u, Visits(c, xs), Closing(c, ttlMs));
    ClosedAfterMove(u, c, Computing(Some(l), saw), l.key, Value(c, saw), ttlMs);
  }

  /** The lock that an owner sets is gone when it has closed. */
  lemma LockedAndClosed(t: State, c: Call, l: Lease, v: Value, ttlMs: nat)
    requires t.PhaseOf(c) == Locking(l.key) && !t.Locked(l.key) && l.until == t.now + SF_LOCK_MS
    ensures Closed(Apply(t, Of(c, TryLock(true))), c, l.key, v, ttlMs)
         == Closed(t, c, l.key, v, ttlMs).(computed := t.computed[c := t.Computed(c) + 1])
  {
    hide Apply, Enabled;
    TryLockIs(t, c, l.key);
    var u := ApplyTryLock(t, c, l.key, true);
    assert u.calls[c := Returned(Fresh(v))] == t.calls[c := Returned(Fresh(v))];
    assert u.locks - {l.key} == t.locks - {l.key};
    hide ApplyTryLock;
  }

  // ----- what a call returns, how often it computes, how long it waits -----

  ghost predicate SameKey(a: Request, b: Request) { exists k :: Fits(a, k) && Fits(b, k) }

  ghost predicate ResultOk(s: State, c: Call, res: Result) {
    match res
    case Threw => s.Computed(c) == 1
    case Fresh(v) => s.Computed(c) == 1 && v.maker == c
    case Hit(v) => s.Computed(c) == 0 && SameKey(c.request, v.maker.request) && s.Computed(v.maker) == 1
  }

  const MAX_POLLS := 54

  ghost predicate CallOk(s: State, c: Call) {
    var r, n := c.request, s.Computed(c);
    match s.PhaseOf(c)
    case Idle => n == 0
    case ReadingVersions(vs) => n == 0 && |vs| <= |Reads(r)|
    case LookingUp(k) => n == 0 && Fits(r, k)
    case Locking(k) => n == 0 && Fits(r, k)
    case Waiting(k, since, polls) => n == 0 && Fits(r, k) && since + SF_POLL_MS * polls <= s.now && polls <= MAX_POLLS
    case Sleeping(k, since, polls, wake) =>
      n == 0 && Fits(r, k) && since + SF_POLL_MS * (polls + 1) <= wake <= s.now + SF_POLL_MS && polls < MAX_POLLS
    case Computing(lease, _) => n == 1 && (lease.Some? ==> Fits(r, lease.value.key))
    case Storing(l, v) => n == 1 && v.maker == c && Fits(r, l.key)
    case Unlocking(_, res) => !res.Hit? && ResultOk(s, c, res)
    case Returned(res) => ResultOk(s, c, res)
  }

  ghost predicate EntryOk(s: State, k: Key) {
    k in s.memo ==> Fits(s.memo[k].value.maker.request, k) && s.Computed(s.memo[k].value.maker) == 1
  }

  ghost predicate AllOk(s: State) { (forall c :: CallOk(s, c)) && forall k :: EntryOk(s, k) }

  /** Other calls do not notice: no call that has computed computes again. */
  ghost predicate Undisturbed(s: State, t: State) {
    t.now >= s.now && forall c :: s.Computed(c) == 1 ==> t.Computed(c) == 1
  }

  lemma OthersStayOk(s: State, t: State, c: Call)
    requires CallOk(s, c) && Undisturbed(s, t) && t.PhaseOf(c) == s.PhaseOf(c) && t.Computed(c) == s.Computed(c)
    ensures CallOk(t, c)
  {
  }

  lemma HitOk(s: State, c: Call, k: Key)
    requires AllOk(s) && Fits(c.request, k) && s.Computed(c) == 0 && s.Get(k).Some?
    ensures ResultOk(s, c, Hit(s.Get(k).value))
  {
    assert EntryOk(s, k);
  }

  lemma OwnMoveOk(s: State, c: Call, m: Move)
    requires AllOk(s) && CanMove(s, c, m)
    ensures CallOk(ApplyMove(s, c, m), c)
  {
    assert CallOk(s, c);
    var p := s.PhaseOf(c);
    match m
    case FormKey => KeyOfFits(c.request, p.vs);
    case LookUp(_) | Poll(_) => LookOk(s, c, m);
    case Bypass | Begin | ReadVersion(_) => StartOk(s, c, m);
    case TryLock(ok) => TryLockOk(s, c, ok);
    case LoseLock => LoseLockOk(s, c);
    case Store(_, _) | Unlock(_) => EndOk(s, c, m);
    case _ => ComputeOk(s, c, m);
  }

  lemma LookOk(s: State, c: Call, m: Move)
    requires AllOk(s) && CanMove(s, c, m) && (m.LookUp? || m.Poll?)
    ensures CallOk(ApplyMove(s, c, m), c)
  {
    var k := s.PhaseOf(c).key;
    assert CallOk(s, c);
    if s.Get(k).Some? { HitOk(s, c, k); }
    hide AllOk, Fits, Reads, ResultOk;
    LookedOk(s, c, k, m);
  }

  lemma LookedOk(s: State, c: Call, k: Key, m: Move)
    requires CallOk(s, c) && CanMove(s, c, m) && (m.LookUp? || m.Poll?) && k == s.PhaseOf(c).key
    requires s.Get(k).Some? ==> ResultOk(s, c, Hit(s.Get(k).value))
    ensures CallOk(ApplyMove(s, c, m), c)
  {
    hide Fits, Reads;
  }

  lemma StartOk(s: State, c: Call, m: Move)
    requires CallOk(s, c) && CanMove(s, c, m) && (m.Bypass? || m.Begin? || m.ReadVersion?)
    ensures CallOk(ApplyMove(s, c, m), c)
  {
  }

  lemma TryLockOk(s: State, c: Call, ok: bool)
    requires CallOk(s, c) && CanMove(s, c, TryLock(ok))
    ensures CallOk(ApplyMove(s, c, TryLock(ok)), c)
  {
  }

  lemma LoseLockOk(s: State, c: Call)
    requires CallOk(s, c) && CanMove(s, c, LoseLock)
    ensures CallOk(ApplyMove(s, c, LoseLock), c)
  {
    hide Reads, Fits;
  }

  lemma ComputeOk(s: State, c: Call, m: Move)
    requires CallOk(s, c) && CanMove(s, c, m)
    requires m.CheckWait? || m.ReadSource? || m.EndCompute?
    ensures CallOk(ApplyMove(s, c, m), c)
  {
    hide CallOk, CanMove, ApplyMove;
    match m
    case EndCompute(ok) => EndComputeOk(s, c, ok);
    case CheckWait => CheckWaitOk(s, c);
    case ReadSource(x) => ReadSourceOk(s, c, x);
  }

  lemma CheckWaitOk(s: State, c: Call)
    requires CallOk(s, c) && CanMove(s, c, CheckWait)
    ensures CallOk(ApplyMove(s, c, CheckWait), c)
  {
    hide Reads, Fits;
  }

  lemma ReadSourceOk(s: State, c: Call, x: Source)
    requires CallOk(s, c) && CanMove(s, c, ReadSource(x))
    ensures CallOk(ApplyMove(s, c, ReadSource(x)), c)
  {
    hide Reads, Fits;
  }

  lemma EndComputeOk(s: State, c: Call, ok: bool)
    requires CallOk(s, c) && CanMove(s, c, EndCompute(ok))
    ensures CallOk(ApplyMove(s, c, EndCompute(ok)), c)
  {
    hide Reads, Fits;
  }

  lemma EndOk(s: State, c: Call, m: Move)
    requires CallOk(s, c) && CanMove(s, c, m)
    requires m.Store? || m.Unlock?
    ensures CallOk(ApplyMove(s, c, m), c)
  {
  }

  /** Only a call that has not computed yet starts to compute. */
  lemma ComputedOnce(s: State, c: Call, m: Move)
    requires CallOk(s, c) && CanMove(s, c, m)
    ensures OnceMore(s, ApplyMove(s, c, m), c)
  {
    hide CallOk, CanMove, ApplyMove, OnceMore;
    match m
    case LookUp(_) | Poll(_) => LookingComputesNothing(s, c, m);
    case EndCompute(_) | Store(_, _) | Unlock(_) => EndingComputesNothing(s, c, m);
    case TryLock(_) | LoseLock => LockingComputesOnce(s, c, m);
    case CheckWait | ReadSource(_) => WaitingComputesOnce(s, c, m);
    case _ => StartingComputesOnce(s, c, m);
  }

  ghost predicate OnceMore(s: State, t: State, c: Call) {
    t.computed == s.computed || (s.Computed(c) == 0 && t.computed == s.computed[c := 1])
  }

  lemma StartingComputesOnce(s: State, c: Call, m: Move)
    requires CallOk(s, c) && CanMove(s, c, m) && (m.Bypass? || m.Begin? || m.ReadVersion? || m.FormKey?)
    ensures OnceMore(s, ApplyMove(s, c, m), c)
  {
    hide Reads, KeyOf;
  }

  lemma LockingComputesOnce(s: State, c: Call, m: Move)
    requires CallOk(s, c) && CanMove(s, c, m) && (m.TryLock? || m.LoseLock?)
    ensures OnceMore(s, ApplyMove(s, c, m), c)
  {
    hide Reads, Fits;
  }

  lemma WaitingComputesOnce(s: State, c: Call, m: Move)
    requires CallOk(s, c) && CanMove(s, c, m) && (m.CheckWait? || m.ReadSource?)
    ensures OnceMore(s, ApplyMove(s, c, m), c)
  {
    hide Reads, Fits;
  }

  lemma LookingComputesNothing(s: State, c: Call, m: Move)
    requires CanMove(s, c, m) && (m.LookUp? || m.Poll?)
    ensures OnceMore(s, ApplyMove(s, c, m), c)
  {
  }

  lemma EndingComputesNothing(s: State, c: Call, m: Move)
    requires CanMove(s, c, m) && (m.EndCompute? || m.Store? || m.Unlock?)
    ensures OnceMore(s, ApplyMove(s, c, m), c)
  {
    hide Reads;
  }

  lemma MoveDisturbsNoOne(s: State, c: Call, m: Move)
    requires CallOk(s, c) && CanMove(s, c, m)
    ensures Undisturbed(s, ApplyMove(s, c, m))
    ensures forall d | d != c :: ApplyMove(s, c, m).Computed(d) == s.Computed(d)
  {
    hide CanMove, ApplyMove, CallOk;
    ComputedOnce(s, c, m);
    CallsLeaveData(s, c, m);
  }

  lemma EntriesStayOk(s: State, c: Call, m: Move)
    requires AllOk(s) && CanMove(s, c, m)
    ensures forall k :: EntryOk(ApplyMove(s, c, m), k)
  {
    assert CallOk(s, c);
    MoveDisturbsNoOne(s, c, m);
    var t := ApplyMove(s, c, m);
    forall k ensures EntryOk(t, k) {
      assert EntryOk(s, k);
      EntryStaysOk(s, c, m, k);
    }
  }

  /** Only a store writes an entry, and what it writes fits its key. */
  lemma EntryStaysOk(s: State, c: Call, m: Move, k: Key)
    requires CallOk(s, c) && CanMove(s, c, m) && EntryOk(s, k) && Undisturbed(s, ApplyMove(s, c, m))
    ensures EntryOk(ApplyMove(s, c, m), k)
  {
    hide Fits, Reads;
    if m.Store? { StoredEntryOk(s, c, m.ok, m.ttlMs, k); } else { MoveLeavesMemo(s, c, m); }
  }

  lemma MoveLeavesMemo(s: State, c: Call, m: Move)
    requires CanMove(s, c, m) && !m.Store?
    ensures ApplyMove(s, c, m).memo == s.memo
  {
    hide CanMove, ApplyMove;
    match m
    case LookUp(_) | Poll(_) => LookingLeavesMemo(s, c, m);
    case TryLock(_) | LoseLock => LockingLeavesMemo(s, c, m);
    case EndCompute(_) | Unlock(_) => EndingLeavesMemo(s, c, m);
    case CheckWait | ReadSource(_) => WaitingLeavesMemo(s, c, m);
    case _ => StartingLeavesMemo(s, c, m);
  }

  lemma LookingLeavesMemo(s: State, c: Call, m: Move)
    requires CanMove(s, c, m) && (m.LookUp? || m.Poll?)
    ensures ApplyMove(s, c, m).memo == s.memo
  {
  }

  lemma LockingLeavesMemo(s: State, c: Call, m: Move)
    requires CanMove(s, c, m) && (m.TryLock? || m.LoseLock?)
    ensures ApplyMove(s, c, m).memo == s.memo
  {
  }

  lemma EndingLeavesMemo(s: State, c: Call, m: Move)
    requires CanMove(s, c, m) && (m.EndCompute? || m.Unlock?)
    ensures ApplyMove(s, c, m).memo == s.memo
  {
    hide Reads;
  }

  lemma WaitingLeavesMemo(s: State, c: Call, m: Move)
    requires CanMove(s, c, m) && (m.CheckWait? || m.ReadSource?)
    ensures ApplyMove(s, c, m).memo == s.memo
  {
    hide Reads;
  }

  lemma StartingLeavesMemo(s: State, c: Call, m: Move)
    requires CanMove(s, c, m) && (m.Bypass? || m.Begin? || m.ReadVersion? || m.FormKey?)
    ensures ApplyMove(s, c, m).memo == s.memo
  {
    hide Reads, KeyOf;
  }

  lemma StoredEntryOk(s: State, c: Call, ok: bool, ttlMs: nat, k: Key)
    requires CallOk(s, c) && CanMove(s, c, Store(ok, ttlMs)) && EntryOk(s, k)
    ensures EntryOk(ApplyMove(s, c, Store(ok, ttlMs)), k)
  {
    hide Fits, Reads;
  }

  lemma MoveKeepsOk(s: State, c: Call, m: Move)
    requires AllOk(s) && CanMove(s, c, m)
    ensures AllOk(ApplyMove(s, c, m))
  {
    var t := ApplyMove(s, c, m);
    EntriesStayOk(s, c, m);
    OwnMoveOk(s, c, m);
    assert CallOk(s, c);
    MoveDisturbsNoOne(s, c, m);
    CallsLeaveData(s, c, m);
    forall d ensures CallOk(t, d) {
      if d != c {
        assert CallOk(s, d);
        OthersStayOk(s, t, d);
      }
    }
  }

  lemma StepKeepsOk(s: State, step: Step)
    requires AllOk(s) && Enabled(s, step)
    ensures AllOk(Apply(s, step))
  {
    if step.Of? {
      hide AllOk, CanMove, ApplyMove;
      MoveKeepsOk(s, step.c, step.move);
    } else {
      hide Apply, Enabled, CallOk, EntryOk;
      var t := Apply(s, step);
      OtherStepLeavesCalls(s, step);
      forall d ensures CallOk(t, d) {
        assert CallOk(s, d);
        OthersStayOk(s, t, d);
      }
      forall k ensures EntryOk(t, k) {
        assert EntryOk(s, k);
        FewerEntriesOk(s, t, k);
      }
    }
  }

  lemma OtherStepLeavesCalls(s: State, step: Step)
    requires Enabled(s, step) && !step.Of?
    ensures var t := Apply(s, step);
      && t.calls == s.calls && t.computed == s.computed && t.now >= s.now
      && forall k | k in t.memo :: k in s.memo && t.memo[k] == s.memo[k]
  {
    hide CanMove, ApplyMove;
  }

  lemma FewerEntriesOk(s: State, t: State, k: Key)
    requires EntryOk(s, k) && t.computed == s.computed && (k in t.memo ==> k in s.memo && t.memo[k] == s.memo[k])
    ensures EntryOk(t, k)
  {
    hide Fits;
  }

  lemma {:induction false} RunKeepsOk(s: State, steps: seq<Step>)
    requires AllOk(s) && Possible(s, steps)
    ensures AllOk(Run(s, steps))
    decreases |steps|
  {
    if steps != [] {
      StepKeepsOk(s, steps[0]);
      RunKeepsOk(Apply(s, steps[0]), steps[1..]);
    }
  }

  /** Whatever Redis does: a call computes at most once; what it returns it
      computed itself, or another call with the same key computed it and this
      call did not; a follower looks at most 54 times. */
  lemma MemoCallOutcome(steps: seq<Step>, c: Call)
    requires Possible(INIT, steps)
    ensures var s := Run(INIT, steps);
      && s.Computed(c) <= 1
      && (s.PhaseOf(c).Returned? ==> ResultOk(s, c, s.PhaseOf(c).result))
      && (s.PhaseOf(c).Waiting? ==> s.PhaseOf(c).polls <= MAX_POLLS)
  {
    RunKeepsOk(INIT, steps);
    assert CallOk(Run(INIT, steps), c);
  }

  /** A move that needs no answer from Redis. */
  predicate NeedsNoRedis(m: Move) {
    match m
    case ReadVersion(ok) => !ok
    case LookUp(ok) => !ok
    case TryLock(ok) => !ok
    case Poll(ok) => !ok
    case Store(ok, _) => !ok
    case Unlock(ok) => !ok
    case _ => true
  }

  /** Fail-open: between its start and its return a call can always go on, after
      a pause of at most one poll, even when no Redis operation answers. */
  lemma AlwaysGoesOn(steps: seq<Step>, c: Call) returns (m: Move, pause: nat)
    requires Possible(INIT, steps)
    requires !Run(INIT, steps).PhaseOf(c).Idle? && !Run(INIT, steps).PhaseOf(c).Returned?
    ensures NeedsNoRedis(m) && pause <= SF_POLL_MS
    ensures var s := Run(INIT, steps); CanMove(s.(now := s.now + pause), c, m)
  {
    RunKeepsOk(INIT, steps);
    var s := Run(INIT, steps);
    assert CallOk(s, c);
    pause := 0;
    match s.PhaseOf(c)
    case ReadingVersions(vs) => m := if |vs| == |Reads(c.request)| then FormKey else ReadVersion(false);
    case LookingUp(_) => m := LookUp(false);
    case Locking(_) => m := TryLock(false);
    case Waiting(_, _, _) => m := CheckWait;
    case Sleeping(_, _, _, wake) =>
      m := Poll(false);
      pause := if wake > s.now then wake - s.now else 0;
    case Computing(_, _) => m := EndCompute(false);
    case Storing(_, _) => m := Store(false, 0);
    case Unlocking(_, _) => m := Unlock(false);
  }

  // ----- what the lease does not cover -----

  function Enter(c: Call): seq<Step> { Asking(c) + [Of(c, TryLock(true))] }

  function Entered(s: State, c: Call, k: Key): State {
    s.StartCompute(c, Some(Lease(k, s.now + SF_LOCK_MS))).(locks := s.locks[k := Lock(c, s.now + SF_LOCK_MS)])
  }

  lemma TryLockIs(t: State, c: Call, k: Key)
    requires t.PhaseOf(c) == Locking(k)
    ensures var step := Of(c, TryLock(true)); Enabled(t, step) && Apply(t, step) == ApplyTryLock(t, c, k, true)
  {
    hide ApplyTryLock;
  }

  lemma LocksFree(s: State, c: Call, k: Key)
    requires !s.Locked(k)
    ensures var t, step := s.Move(c, Locking(k)), Of(c, TryLock(true));
      Enabled(t, step) && Apply(t, step) == Entered(s, c, k)
  {
    hide Apply, Enabled;
    TryLockIs(s.Move(c, Locking(k)), c, k);
    StartAfterMove(s, c, Locking(k), Some(Lease(k, s.now + SF_LOCK_MS)));
  }

  lemma StartAfterMove(s: State, c: Call, p: Phase, lease: Option<Lease>)
    ensures s.Move(c, p).StartCompute(c, lease) == s.StartCompute(c, lease)
  {
    MoveTwice(s, c, p);
    assert s.Move(c, p).Move(c, Computing(lease, map[])) == s.Move(c, Computing(lease, map[]));
  }

  lemma Enters(s: State, c: Call, k: Key)
    requires s.PhaseOf(c).Idle? && k == CurrentKey(s, c.request)
    requires s.Get(k).None? && !s.Locked(k)
    ensures Possible(s, Enter(c)) && Run(s, Enter(c)) == Entered(s, c, k)
  {
    hide Run, Possible, Asking, Apply, Enabled, Entered, CurrentKey;
    Asks(s, c);
    LocksFree(s, c, k);
    RunOne(s.Move(c, Locking(k)), Of(c, TryLock(true)));
    RunConcat(s, Asking(c), [Of(c, TryLock(true))]);
  }

  /** An owner whose computation fails gives its lock key back. */
  function Leave(c: Call): seq<Step> { [Of(c, EndCompute(false))] + [Of(c, Unlock(true))] }

  lemma Leaves(s: State, c: Call, l: Lease)
    requires LeaseOf(s.PhaseOf(c)) == Some(l) && s.PhaseOf(c).Computing?
    ensures Possible(s, Leave(c)) && Run(s, Leave(c)) == s.Move(c, Returned(Threw)).(locks := s.locks - {l.key})
  {
    hide Run, Possible;
    var t := s.Move(c, Unlocking(l, Threw));
    RunOne(s, Of(c, EndCompute(false)));
    RunOne(t, Of(c, Unlock(true)));
    RunConcat(s, [Of(c, EndCompute(false))], [Of(c, Unlock(true))]);
    MoveTwice(s, c, Unlocking(l, Threw));
  }

  /** `DEL` does not check the owner: a computation that outlives its lease
      removes the lock of the next owner, and then two calls compute at once. */
  lemma SlowOwnerBreaksSingleFlight(r: Request, a: Call, b: Call, c: Call) returns (steps: seq<Step>)
    requires a == Call(1, r) && b == Call(2, r) && c == Call(3, r)
    ensures Possible(INIT, steps)
    ensures var s, k := Run(INIT, steps), CurrentKey(INIT, r);
      b != c && Owns(s, b, k) && Owns(s, c, k)
  {
    hide Run, Possible, Enter, Leave, KeyOf, Current;
    var k := CurrentKey(INIT, r);
    Enters(INIT, a, k);
    var s1 := Entered(INIT, a, k);
    var s2 := s1.(now := SF_LOCK_MS);
    RunOne(s1, Tick(SF_LOCK_MS));
    assert CurrentKey(s2, r) == k;
    Enters(s2, b, k);
    var s3 := Entered(s2, b, k);
    Leaves(s3, a, Lease(k, SF_LOCK_MS));
    var s4 := s3.Move(a, Returned(Threw)).(locks := s3.locks - {k});
    assert CurrentKey(s4, r) == k;
    Enters(s4, c, k);
    RunConcat(s3, Leave(a), Enter(c));
    RunConcat(s2, Enter(b), Leave(a) + Enter(c));
    RunConcat(s1, [Tick(SF_LOCK_MS)], Enter(b) + (Leave(a) + Enter(c)));
    steps := Enter(a) + ([Tick(SF_LOCK_MS)] + (Enter(b) + (Leave(a) + Enter(c))));
    RunConcat(INIT, Enter(a), [Tick(SF_LOCK_MS)] + (Enter(b) + (Leave(a) + Enter(c))));
  }
}
