/** No stale answers: a call that starts after a commit was announced never
    returns a value computed from data older than that commit. */
module MemoFreshness {
  import opened JsText
  import opened MemoProtocol
  import opened MemoSingleFlight

  // ----- what holds of the data -----

  ghost predicate DataOk(d: Data) {
    && (forall x, v: nat :: v <= d.Version(x) ==> d.Announced(x, v) <= d.Epoch(x))
    && (forall x, u: nat, v: nat :: u <= v <= d.Version(x) ==> d.Announced(x, u) <= d.Announced(x, v))
  }

  /** Counters only rise, and what was announced at an old counter stays. */
  ghost predicate Grows(d: Data, e: Data) {
    && (forall x :: d.Epoch(x) <= e.Epoch(x))
    && (forall x :: d.Version(x) <= e.Version(x))
    && (forall x, v: nat :: v <= d.Version(x) ==> e.Announced(x, v) == d.Announced(x, v))
  }

  lemma CommitGrows(d: Data, x: Source)
    requires DataOk(d)
    ensures DataOk(d.Commit(x)) && Grows(d, d.Commit(x)) && d.Commit(x).versions == d.versions
  {
    var e := d.Commit(x);
    assert forall y :: e.Version(y) == d.Version(y) && d.Epoch(y) <= e.Epoch(y);
    assert forall y, v: nat :: e.Announced(y, v) == d.Announced(y, v);
  }

  lemma {:induction false} CommitAllGrows(d: Data, xs: seq<Source>)
    requires DataOk(d)
    ensures var e := CommitAll(d, xs);
      DataOk(e) && Grows(d, e) && e.versions == d.versions && e.announced == d.announced
    decreases |xs|
  {
    if xs != [] {
      CommitGrows(d, xs[0]);
      CommitAllGrows(d.Commit(xs[0]), xs[1..]);
    }
  }

  lemma BumpGrows(d: Data, x: Source, e: nat)
    requires DataOk(d) && e <= d.Epoch(x)
    ensures var f := d.Bump(x, e);
      && DataOk(f) && Grows(d, f)
      && f.Announced(x, f.Version(x)) >= e
  {
    hide DataOk, Grows;
    var f := d.Bump(x, e);
    assert Bumped(d, f, x, e);
    BumpedGrows(d, f, x, e);
  }

  /** What one `INCR` changes. */
  ghost predicate Bumped(d: Data, f: Data, x: Source, e: nat) {
    && (forall y :: f.Epoch(y) == d.Epoch(y))
    && (forall y | y != x :: f.Version(y) == d.Version(y))
    && f.Version(x) == d.Version(x) + 1
    && f.Announced(x, f.Version(x)) == Max(e, d.Announced(x, d.Version(x)))
    && (forall y, v: nat | y != x || v != d.Version(x) + 1 :: f.Announced(y, v) == d.Announced(y, v))
  }

  lemma BumpedGrows(d: Data, f: Data, x: Source, e: nat)
    requires DataOk(d) && e <= d.Epoch(x) && Bumped(d, f, x, e)
    ensures DataOk(f) && Grows(d, f)
  {
  }

  // ----- what holds of keys and values -----

  function Owner(r: Request): string { if r.storeId.Some? then r.storeId.value else "-" }

  lemma StoreParts(r: Request)
    ensures (|Reads(r)| > 0 && Reads(r)[0].kind.StoreKind?) <==> r.storeId.Some? && r.storeId.value != ""
    ensures (|Reads(r)| > 1 && Reads(r)[1].kind.KbKind?) <==> r.storeId.Some? && r.storeId.value != "" && r.kb
  {
  }

  /** Two requests can have one key exactly if they agree in all it holds: call site,
      owner, input, and the kinds of the sources. */
  lemma SameKeyMeans(a: Request, b: Request)
    ensures SameKey(a, b) <==>
      && a.callSite == b.callSite && Owner(a) == Owner(b) && a.input == b.input && |Reads(a)| == |Reads(b)|
      && forall i | 0 <= i < |Reads(a)| :: Reads(a)[i].kind == Reads(b)[i].kind
    ensures SameKey(a, b) ==> forall vs: seq<nat> | |vs| == |Reads(a)| :: |vs| == |Reads(b)| && KeyOf(a, vs) == KeyOf(b, vs)
  {
    hide Reads;
    if SameKey(a, b) {
      var k :| Fits(a, k) && Fits(b, k);
      forall i | 0 <= i < |Reads(a)| ensures Reads(a)[i].kind == Reads(b)[i].kind {
        assert k.parts[i].0 == Reads(a)[i].kind && k.parts[i].0 == Reads(b)[i].kind;
      }
    } else if |Reads(a)| == |Reads(b)| {
      var vs: seq<nat> := seq(|Reads(a)|, _ => 0);
      KeyOfFits(a, vs);
      KeyOfFits(b, vs);
      assert KeyOf(a, vs) != KeyOf(b, vs);
    }
  }

  /** A call reads its counters before its data: whatever was announced at the
      counters in the key is in the value. */
  ghost predicate Sound(d: Data, k: Key, v: Value) {
    Fits(v.maker.request, k) && SawKey(d, v.maker.request, k, v.saw) && forall x | x in Reads(v.maker.request) :: x in v.saw
  }

  /** A source that is listed twice is read twice, the second time later. */
  ghost predicate Rising(xs: seq<Source>, vs: seq<nat>) {
    |vs| <= |xs| && forall i, j | 0 <= i < j < |vs| && xs[i] == xs[j] :: vs[i] <= vs[j]
  }

  ghost predicate KeyOk(d: Data, r: Request, k: Key) {
    && Fits(r, k) && Rising(Reads(r), Numbers(k))
    && forall i | 0 <= i < |k.parts| :: k.parts[i].1 <= d.Version(Reads(r)[i])
  }

  ghost predicate SawKey(d: Data, r: Request, k: Key, saw: map<Source, nat>) {
    KeyOk(d, r, k) && forall i | 0 <= i < |k.parts| && Reads(r)[i] in saw ::
      saw[Reads(r)[i]] >= d.Announced(Reads(r)[i], k.parts[i].1)
  }

  ghost predicate PhaseOk(d: Data, c: Call, p: Phase) {
    var r := c.request;
    match p
    case Idle => true
    case ReadingVersions(vs) => Rising(Reads(r), vs) && forall i | 0 <= i < |vs| :: vs[i] <= d.Version(Reads(r)[i])
    case LookingUp(k) => KeyOk(d, r, k)
    case Locking(k) => KeyOk(d, r, k)
    case Waiting(k, _, _) => KeyOk(d, r, k)
    case Sleeping(k, _, _, _) => KeyOk(d, r, k)
    case Computing(lease, saw) => lease.Some? ==> SawKey(d, r, lease.value.key, saw)
    case Storing(l, v) => v.maker == c && Sound(d, l.key, v)
    case Unlocking(l, _) => true
    case Returned(_) => true
  }

  ghost predicate WriteOk(d: Data, w: Write) {
    && (forall x | x in w.made :: w.made[x] <= d.Epoch(x))
    && (forall x | x in w.pending :: x in w.made)
    && (forall x | x in w.made && x !in w.pending :: d.Announced(x, d.Version(x)) >= w.made[x])
  }

  ghost predicate Inv(s: State) {
    && DataOk(s.data)
    && (forall w | w in s.writes :: WriteOk(s.data, s.writes[w]))
    && (forall k | k in s.memo :: Sound(s.data, k, s.memo[k].value) && s.memo[k].value.maker in s.calls)
    && (forall c | c in s.calls :: PhaseOk(s.data, c, s.calls[c]))
  }

  // ----- the data grows under everything -----

  lemma KeyGrows(d: Data, e: Data, r: Request, k: Key)
    requires Grows(d, e) && KeyOk(d, r, k)
    ensures KeyOk(e, r, k)
  {
  }

  lemma SawGrows(d: Data, e: Data, r: Request, k: Key, saw: map<Source, nat>)
    requires Grows(d, e) && SawKey(d, r, k, saw)
    ensures SawKey(e, r, k, saw)
  {
    KeyGrows(d, e, r, k);
  }

  lemma PhaseGrows(d: Data, e: Data, c: Call, p: Phase)
    requires Grows(d, e) && PhaseOk(d, c, p)
    ensures PhaseOk(e, c, p)
  {
    match p
    case LookingUp(k) => KeyGrows(d, e, c.request, k);
    case Locking(k) => KeyGrows(d, e, c.request, k);
    case Waiting(k, _, _) => KeyGrows(d, e, c.request, k);
    case Sleeping(k, _, _, _) => KeyGrows(d, e, c.request, k);
    case Computing(lease, saw) => if lease.Some? { SawGrows(d, e, c.request, lease.value.key, saw); }
    case Storing(l, v) => SawGrows(d, e, c.request, l.key, v.saw);
    case _ =>
  }

  lemma InvGrows(s: State, t: State)
    requires Inv(s) && DataOk(t.data) && Grows(s.data, t.data)
    requires t.memo == s.memo && t.calls == s.calls
    requires forall w | w in t.writes :: WriteOk(t.data, t.writes[w])
    ensures Inv(t)
  {
    forall c | c in t.calls ensures PhaseOk(t.data, c, t.calls[c]) {
      PhaseGrows(s.data, t.data, c, t.calls[c]);
    }
    forall k | k in t.memo ensures Sound(t.data, k, t.memo[k].value) {
      SawGrows(s.data, t.data, t.memo[k].value.maker.request, k, t.memo[k].value.saw);
    }
  }

  lemma CommitKeepsInv(s: State, w: nat, xs: seq<Source>)
    requires Inv(s) && w !in s.writes
    ensures Inv(ApplyCommit(s, w, xs))
  {
    var t := ApplyCommit(s, w, xs);
    CommitAllGrows(s.data, xs);
    forall u | u in t.writes ensures WriteOk(t.data, t.writes[u]) {
      if u != w { assert WriteOk(s.data, s.writes[u]); }
    }
    InvGrows(s, t);
  }

  lemma BumpKeepsInv(s: State, w: nat, ok: bool)
    requires Inv(s) && w in s.writes && s.writes[w].pending != []
    ensures Inv(ApplyBump(s, w, ok))
    ensures Grows(s.data, ApplyBump(s, w, ok).data)
  {
    var t := ApplyBump(s, w, ok);
    var wr := s.writes[w];
    var x := wr.pending[0];
    if ok {
      assert WriteOk(s.data, wr);
      BumpGrows(s.data, x, wr.made[x]);
      forall u | u in t.writes ensures WriteOk(t.data, t.writes[u]) {
        WriteAfterBump(s.data, x, wr.made[x], s.writes[u], u == w);
      }
    }
    InvGrows(s, t);
  }

  lemma WriteAfterBump(d: Data, x: Source, e: nat, wr: Write, mine: bool)
    requires DataOk(d) && e <= d.Epoch(x) && WriteOk(d, wr)
    requires mine ==> wr.pending != [] && wr.pending[0] == x && x in wr.made && e == wr.made[x]
    ensures WriteOk(d.Bump(x, e), if mine then wr.(pending := wr.pending[1..]) else wr)
  {
    var f := d.Bump(x, e);
    assert forall y | y != x :: f.Version(y) == d.Version(y) && f.Announced(y, f.Version(y)) == d.Announced(y, d.Version(y));
    assert f.Announced(x, f.Version(x)) >= d.Announced(x, d.Version(x));
  }

  // ----- moves of one call -----

  lemma ComputeKeepsInv(s: State, c: Call, lease: Option<Lease>)
    requires Inv(s)
    requires lease.Some? ==> KeyOk(s.data, c.request, lease.value.key)
    ensures Inv(s.StartCompute(c, lease))
  {
  }

  lemma MoveKeepsInv(s: State, c: Call, p: Phase)
    requires Inv(s) && PhaseOk(s.data, c, p)
    ensures Inv(s.Move(c, p))
  {
  }

  lemma ReadSourceKeepsSaw(d: Data, r: Request, k: Key, saw: map<Source, nat>, x: Source)
    requires DataOk(d) && SawKey(d, r, k, saw)
    ensures SawKey(d, r, k, saw[x := d.Epoch(x)])
  {
  }

  lemma ReadVersionKeepsInv(s: State, c: Call, ok: bool)
    requires Inv(s) && CanMove(s, c, ReadVersion(ok))
    ensures Inv(ApplyMove(s, c, ReadVersion(ok)))
  {
    var vs := s.PhaseOf(c).vs;
    assert PhaseOk(s.data, c, s.calls[c]);
    if ok {
      NextVersionOk(s, c, vs);
      hide Inv, Reads;
      MoveKeepsInv(s, c, ReadingVersions(vs + [s.data.Version(Reads(c.request)[|vs|])]));
    } else {
      hide Inv, Reads;
      ComputeKeepsInv(s, c, None);
    }
  }

  lemma NextVersionOk(s: State, c: Call, vs: seq<nat>)
    requires PhaseOk(s.data, c, ReadingVersions(vs)) && |vs| < |Reads(c.request)|
    ensures PhaseOk(s.data, c, ReadingVersions(vs + [s.data.Version(Reads(c.request)[|vs|])]))
  {
    hide Reads;
  }

  lemma FormKeyKeepsInv(s: State, c: Call)
    requires Inv(s) && CanMove(s, c, FormKey)
    ensures Inv(ApplyMove(s, c, FormKey))
  {
    var vs := s.PhaseOf(c).vs;
    assert PhaseOk(s.data, c, s.calls[c]);
    FormedKeyOk(s.data, c.request, vs);
    hide Inv, Reads, KeyOk, KeyOf;
    MoveKeepsInv(s, c, LookingUp(KeyOf(c.request, vs)));
  }

  lemma EarlyMoveKeepsInv(s: State, c: Call, m: Move)
    requires Inv(s) && CanMove(s, c, m)
    requires m.Bypass? || m.Begin? || m.ReadVersion? || m.FormKey?
    ensures Inv(ApplyMove(s, c, m))
  {
    hide Inv, Reads, KeyOf;
    match m
    case Bypass => ComputeKeepsInv(s, c, None);
    case Begin => MoveKeepsInv(s, c, ReadingVersions([]));
    case ReadVersion(ok) => ReadVersionKeepsInv(s, c, ok);
    case FormKey => FormKeyKeepsInv(s, c);
  }

  /** A call that looks up or waits has a key of its own request. */
  lemma WaitersKey(s: State, c: Call, m: Move)
    requires Inv(s) && CanMove(s, c, m) && (m.LookUp? || m.Poll? || m.CheckWait?)
    ensures KeyOk(s.data, c.request, s.PhaseOf(c).key)
  {
    assert PhaseOk(s.data, c, s.calls[c]);
    hide KeyOk;
  }

  lemma LookKeepsInv(s: State, c: Call, key: Key, ok: bool, next: Phase)
    requires Inv(s) && PhaseOk(s.data, c, next)
    ensures Inv(ApplyLook(s, c, key, ok, next))
  {
    hide Inv, KeyOk;
    MoveKeepsInv(s, c, if ok && s.Get(key).Some? then Returned(Hit(s.Get(key).value)) else next);
  }

  lemma LookUpKeepsInv(s: State, c: Call, ok: bool)
    requires Inv(s) && CanMove(s, c, LookUp(ok))
    ensures Inv(ApplyMove(s, c, LookUp(ok)))
  {
    var key := s.PhaseOf(c).key;
    WaitersKey(s, c, LookUp(ok));
    hide Inv, KeyOk, ApplyLook;
    LookKeepsInv(s, c, key, ok, Locking(key));
  }

  lemma PollKeepsInv(s: State, c: Call, ok: bool)
    requires Inv(s) && CanMove(s, c, Poll(ok))
    ensures Inv(ApplyMove(s, c, Poll(ok)))
  {
    var p := s.PhaseOf(c);
    WaitersKey(s, c, Poll(ok));
    hide Inv, KeyOk, ApplyLook;
    LookKeepsInv(s, c, p.key, ok, Waiting(p.key, p.since, p.polls + 1));
  }

  lemma CheckWaitKeepsInv(s: State, c: Call)
    requires Inv(s) && CanMove(s, c, CheckWait)
    ensures Inv(ApplyMove(s, c, CheckWait))
  {
    var p := s.PhaseOf(c);
    WaitersKey(s, c, CheckWait);
    hide Inv, KeyOk;
    if s.now < p.since + SF_WAIT_MS {
      MoveKeepsInv(s, c, Sleeping(p.key, p.since, p.polls, s.now + SF_POLL_MS));
    } else {
      ComputeKeepsInv(s, c, None);
    }
  }

  lemma ReadSourceKeepsInv(s: State, c: Call, x: Source)
    requires Inv(s) && CanMove(s, c, ReadSource(x))
    ensures Inv(ApplyMove(s, c, ReadSource(x)))
  {
    var p := s.PhaseOf(c);
    if p.lease.Some? { ReadSourceKeepsSaw(s.data, c.request, p.lease.value.key, p.saw, x); }
    MoveKeepsInv(s, c, Computing(p.lease, p.saw[x := s.data.Epoch(x)]));
  }

  lemma UnlockKeepsInv(s: State, c: Call, ok: bool)
    requires Inv(s) && CanMove(s, c, Unlock(ok))
    ensures Inv(ApplyMove(s, c, Unlock(ok)))
  {
    MoveKeepsInv(s, c, Returned(s.PhaseOf(c).result));
  }

  lemma CallKeepsInv(s: State, c: Call, m: Move)
    requires Inv(s) && CanMove(s, c, m)
    ensures Inv(ApplyMove(s, c, m))
  {
    match m
    case LookUp(ok) => LookUpKeepsInv(s, c, ok);
    case Poll(ok) => PollKeepsInv(s, c, ok);
    case CheckWait => CheckWaitKeepsInv(s, c);
    case TryLock(ok) => TryLockKeepsInv(s, c, s.PhaseOf(c).key, ok);
    case LoseLock =>
      ComputeKeepsInv(s, c, None);
      LocksDoNotMatter(s.StartCompute(c, None), ApplyLoseLock(s, c, s.PhaseOf(c).key));
    case ReadSource(x) => ReadSourceKeepsInv(s, c, x);
    case EndCompute(ok) => EndComputeKeepsInv(s, c, ok);
    case Store(ok, ttlMs) => StoreKeepsInv(s, c, ok, ttlMs);
    case Unlock(ok) => UnlockKeepsInv(s, c, ok);
    case _ => EarlyMoveKeepsInv(s, c, m);
  }

  lemma FormedKeyOk(d: Data, r: Request, vs: seq<nat>)
    requires |vs| == |Reads(r)| && Rising(Reads(r), vs) && forall i | 0 <= i < |vs| :: vs[i] <= d.Version(Reads(r)[i])
    ensures KeyOk(d, r, KeyOf(r, vs))
  {
    KeyOfFits(r, vs);
  }

  lemma TryLockKeepsInv(s: State, c: Call, key: Key, ok: bool)
    requires Inv(s) && KeyOk(s.data, c.request, key)
    ensures Inv(ApplyTryLock(s, c, key, ok))
  {
    hide Inv, KeyOk;
    if !ok {
      ComputeKeepsInv(s, c, None);
    } else if s.Locked(key) {
      MoveKeepsInv(s, c, Waiting(key, s.now, 0));
    } else {
      var lease := Some(Lease(key, s.now + SF_LOCK_MS));
      ComputeKeepsInv(s, c, lease);
      LocksDoNotMatter(s.StartCompute(c, lease), ApplyTryLock(s, c, key, ok));
    }
  }

  lemma LocksDoNotMatter(s: State, t: State)
    requires Inv(s) && t == s.(locks := t.locks)
    ensures Inv(t)
  {
  }

  lemma EndComputeKeepsInv(s: State, c: Call, ok: bool)
    requires Inv(s) && CanMove(s, c, EndCompute(ok))
    ensures Inv(ApplyMove(s, c, EndCompute(ok)))
  {
    var p := s.PhaseOf(c);
    match p.lease
    case Some(l) => MoveKeepsInv(s, c, if ok then Storing(l, Value(c, p.saw)) else Unlocking(l, Threw));
    case None => MoveKeepsInv(s, c, Returned(if ok then Fresh(Value(c, p.saw)) else Threw));
  }

  lemma StoreKeepsInv(s: State, c: Call, ok: bool, ttlMs: nat)
    requires Inv(s) && s.PhaseOf(c).Storing?
    ensures Inv(ApplyMove(s, c, Store(ok, ttlMs)))
  {
    var p := s.PhaseOf(c);
    StoredIsSound(s, c);
    hide Inv, Sound, ApplyStore;
    StoredKeepsInv(s, c, p.owned, p.value, ok, ttlMs);
  }

  lemma StoredKeepsInv(s: State, c: Call, owned: Lease, v: Value, ok: bool, ttlMs: nat)
    requires Inv(s) && Sound(s.data, owned.key, v) && v.maker == c
    ensures Inv(ApplyStore(s, c, owned, v, ok, ttlMs))
  {
    hide Inv, Sound;
    var t := s.Move(c, Unlocking(owned, Fresh(v)));
    MoveKeepsInv(s, c, Unlocking(owned, Fresh(v)));
    if ok { EntryKeepsInv(t, owned.key, Entry(v, s.now + ttlMs)); }
  }

  lemma StoredIsSound(s: State, c: Call)
    requires Inv(s) && s.PhaseOf(c).Storing?
    ensures Sound(s.data, s.PhaseOf(c).owned.key, s.PhaseOf(c).value) && s.PhaseOf(c).value.maker == c
  {
    assert PhaseOk(s.data, c, s.calls[c]);
    hide Sound;
  }

  lemma EntryKeepsInv(s: State, k: Key, entry: Entry)
    requires Inv(s) && Sound(s.data, k, entry.value) && entry.value.maker in s.calls
    ensures Inv(s.(memo := s.memo[k := entry]))
  {
    hide Sound, PhaseOk, WriteOk, DataOk;
  }


  lemma EvictKeepsInv(s: State, k: Key)
    requires Inv(s)
    ensures Inv(s.(memo := s.memo - {k}))
  {
  }

  lemma StepKeepsInv(s: State, step: Step)
    requires Inv(s) && Enabled(s, step)
    ensures Inv(Apply(s, step))
  {
    match step
    case Tick(_) => InvGrows(s, Apply(s, step));
    case Commit(w, xs) => CommitKeepsInv(s, w, xs);
    case Bump(w, ok) => BumpKeepsInv(s, w, ok);
    case Evict(k) => EvictKeepsInv(s, k);
    case Of(c, m) => CallKeepsInv(s, c, m);
  }

  lemma StepGrows(s: State, step: Step)
    requires Inv(s) && Enabled(s, step)
    ensures Grows(s.data, Apply(s, step).data)
  {
    match step
    case Commit(w, xs) => CommitAllGrows(s.data, xs);
    case Bump(w, ok) => BumpKeepsInv(s, w, ok);
    case Of(c, m) => CallsLeaveData(s, c, m);
    case _ =>
  }

  // ----- which values a call may be given -----

  /** What `a` reads at place `i` is at least as new as at place `j`, while both have one
      key, `b` starts after a commit is announced, and `a` read its counters before that. */
  predicate Edge(a: Request, b: Request, i: nat, j: nat) {
    && |Reads(a)| == |Reads(b)| && i < |Reads(a)| && j < |Reads(a)|
    && (Reads(b)[i] == Reads(a)[j] || (j < i && (Reads(a)[i] == Reads(a)[j] || Reads(b)[i] == Reads(b)[j])))
  }

  predicate Route(a: Request, b: Request, route: seq<nat>) {
    && route != [] && |Reads(a)| == |Reads(b)| && route[0] < |Reads(a)|
    && forall n | 0 < n < |route| :: Edge(a, b, route[n - 1], route[n])
  }

  predicate Leads(a: Request, b: Request, x: Source, route: seq<nat>, p: nat) {
    Route(a, b, route) && Reads(a)[route[0]] == x && route[|route| - 1] == p
  }

  /** The key of `b` cannot hold the present counter of `x` in the place of `b`
      unless `a`, under the same key, has read a counter of `x` that is as new. */
  ghost predicate Carried(a: Request, b: Request, x: Source) {
    exists route: seq<nat>, p: nat :: Leads(a, b, x, route, p) && p < |Reads(b)| && Reads(b)[p] == x
  }

  lemma {:induction false} RoutePlaces(a: Request, b: Request, route: seq<nat>, n: nat)
    requires Route(a, b, route) && n < |route|
    ensures route[n] < |Reads(a)|
  {
    if n > 0 { assert Edge(a, b, route[n - 1], route[n]); }
  }

  /** What `x`'s commit `e` was announced on, when the call under study had not started. */
  datatype Start = Start(since: Data, x: Source, e: nat)

  /** All counters in the key were read before the start. */
  ghost predicate Early(o: Start, r: Request, k: Key) {
    |k.parts| == |Reads(r)| && forall i | 0 <= i < |k.parts| :: k.parts[i].1 <= o.since.Version(Reads(r)[i])
  }

  /** All counters in the key were read after the start. */
  ghost predicate KeyLate(o: Start, r: Request, k: Key) {
    |k.parts| == |Reads(r)| && forall i | 0 <= i < |k.parts| :: k.parts[i].1 >= o.since.Version(Reads(r)[i])
  }

  lemma EdgeRises(o: Start, a: Request, b: Request, k: Key, i: nat, j: nat)
    requires Early(o, a, k) && KeyLate(o, b, k) && Rising(Reads(a), Numbers(k)) && Rising(Reads(b), Numbers(k))
    requires Edge(a, b, i, j)
    ensures k.parts[i].1 >= k.parts[j].1
  {
    hide Reads;
    assert Numbers(k)[i] == k.parts[i].1 && Numbers(k)[j] == k.parts[j].1;
  }

  lemma {:induction false} RouteRises(o: Start, a: Request, b: Request, k: Key, route: seq<nat>, n: nat)
    requires Early(o, a, k) && KeyLate(o, b, k) && Rising(Reads(a), Numbers(k)) && Rising(Reads(b), Numbers(k))
    requires Route(a, b, route) && n < |route|
    ensures route[0] < |k.parts| && route[n] < |k.parts| && k.parts[route[0]].1 >= k.parts[route[n]].1
  {
    hide Reads, Early, KeyLate, Rising, Edge;
    RoutePlaces(a, b, route, n);
    KeyIsWhole(o, a, k);
    if n > 0 {
      RoutePlaces(a, b, route, n - 1);
      RouteRises(o, a, b, k, route, n - 1);
      EdgeRises(o, a, b, k, route[n - 1], route[n]);
    }
  }

  lemma KeyIsWhole(o: Start, r: Request, k: Key)
    requires Early(o, r, k)
    ensures |k.parts| == |Reads(r)|
  {
  }

  // ----- values computed before and after the start -----

  /** A value is from before the start, key and all, or it has seen the commit. */
  ghost predicate SeenOrEarly(o: Start, r: Request, k: Key, saw: map<Source, nat>) {
    (o.x in saw ==> saw[o.x] >= o.e) || Early(o, r, k)
  }

  ghost predicate PhaseSeen(o: Start, c: Call, p: Phase) {
    match p
    case Computing(lease, saw) => lease.Some? ==> SeenOrEarly(o, c.request, lease.value.key, saw)
    case Storing(l, v) => SeenOrEarly(o, v.maker.request, l.key, v.saw)
    case _ => true
  }

  ghost predicate Started(o: Start, s: State) {
    && Grows(o.since, s.data) && o.e <= o.since.Announced(o.x, o.since.Version(o.x)) <= o.since.Epoch(o.x)
    && (forall k | k in s.memo :: SeenOrEarly(o, s.memo[k].value.maker.request, k, s.memo[k].value.saw))
    && (forall c | c in s.calls :: PhaseSeen(o, c, s.calls[c]))
  }

  lemma KeyIsEarly(o: Start, r: Request, k: Key)
    requires KeyOk(o.since, r, k)
    ensures Early(o, r, k)
  {
  }

  /** At the start itself every key is early. */
  lemma StartsHere(o: Start, s: State)
    requires Inv(s) && o.since == s.data && o.e <= s.data.Announced(o.x, s.data.Version(o.x))
    ensures Started(o, s)
  {
    forall k | k in s.memo ensures SeenOrEarly(o, s.memo[k].value.maker.request, k, s.memo[k].value.saw) {
      KeyIsEarly(o, s.memo[k].value.maker.request, k);
    }
    forall c | c in s.calls ensures PhaseSeen(o, c, s.calls[c]) {
      PhaseStartsHere(o, c, s.calls[c]);
    }
  }

  lemma PhaseStartsHere(o: Start, c: Call, p: Phase)
    requires PhaseOk(o.since, c, p)
    ensures PhaseSeen(o, c, p)
  {
    hide KeyOk, Early;
    match p
    case Computing(lease, saw) => if lease.Some? { KeyIsEarly(o, c.request, lease.value.key); }
    case Storing(l, v) => KeyIsEarly(o, v.maker.request, l.key);
    case _ =>
  }

  lemma MoveKeepsStarted(o: Start, s: State, c: Call, p: Phase)
    requires Started(o, s) && PhaseSeen(o, c, p)
    ensures Started(o, s.Move(c, p))
  {
    hide SeenOrEarly;
  }

  lemma DataKeepsStarted(o: Start, s: State, t: State)
    requires Started(o, s) && Grows(s.data, t.data) && t.calls == s.calls && t.memo == s.memo
    ensures Started(o, t)
  {
    hide SeenOrEarly, PhaseSeen;
  }

  lemma EndKeepsStarted(o: Start, s: State, c: Call, ok: bool)
    requires Inv(s) && Started(o, s) && CanMove(s, c, EndCompute(ok))
    ensures Started(o, ApplyMove(s, c, EndCompute(ok)))
  {
    var p := s.PhaseOf(c);
    assert PhaseSeen(o, c, s.calls[c]);
    hide Inv, Started, SeenOrEarly, Reads;
    match p.lease
    case Some(l) => MoveKeepsStarted(o, s, c, if ok then Storing(l, Value(c, p.saw)) else Unlocking(l, Threw));
    case None => MoveKeepsStarted(o, s, c, Returned(if ok then Fresh(Value(c, p.saw)) else Threw));
  }

  lemma ReadKeepsStarted(o: Start, s: State, c: Call, y: Source)
    requires Started(o, s) && CanMove(s, c, ReadSource(y))
    ensures Started(o, ApplyMove(s, c, ReadSource(y)))
  {
    var p := s.PhaseOf(c);
    assert PhaseSeen(o, c, s.calls[c]);
    assert s.data.Epoch(o.x) >= o.e;
    hide Started, Early, Reads;
    MoveKeepsStarted(o, s, c, Computing(p.lease, p.saw[y := s.data.Epoch(y)]));
  }

  lemma StoreKeepsStarted(o: Start, s: State, c: Call, ok: bool, ttlMs: nat)
    requires Started(o, s) && CanMove(s, c, Store(ok, ttlMs))
    ensures Started(o, ApplyMove(s, c, Store(ok, ttlMs)))
  {
    assert PhaseSeen(o, c, s.calls[c]);
    hide SeenOrEarly;
  }

  /** A move that neither reads data nor ends a computation. */
  lemma QuietKeepsStarted(o: Start, s: State, c: Call, m: Move)
    requires Started(o, s) && CanMove(s, c, m) && !m.ReadSource? && !m.EndCompute? && !m.Store?
    ensures Started(o, ApplyMove(s, c, m))
  {
    hide ApplyMove, CanMove;
    CallsLeaveData(s, c, m);
    MoveLeavesMemo(s, c, m);
    QuietPhase(o, s, c, m);
    hide PhaseSeen, SeenOrEarly;
  }

  lemma QuietPhase(o: Start, s: State, c: Call, m: Move)
    requires CanMove(s, c, m) && !m.ReadSource? && !m.EndCompute? && !m.Store?
    ensures PhaseSeen(o, c, ApplyMove(s, c, m).PhaseOf(c))
  {
    hide Reads, KeyOf, Early;
    match m
    case LookUp(_) | Poll(_) | CheckWait | Unlock(_) => QuietEnd(o, s, c, m);
    case TryLock(ok) => QuietLock(o, s, c, ok);
    case _ =>
  }

  lemma QuietEnd(o: Start, s: State, c: Call, m: Move)
    requires CanMove(s, c, m) && (m.LookUp? || m.Poll? || m.CheckWait? || m.Unlock?)
    ensures PhaseSeen(o, c, ApplyMove(s, c, m).PhaseOf(c))
  {
    hide Early;
  }

  lemma QuietLock(o: Start, s: State, c: Call, ok: bool)
    requires CanMove(s, c, TryLock(ok))
    ensures PhaseSeen(o, c, ApplyMove(s, c, TryLock(ok)).PhaseOf(c))
  {
    hide Early;
  }

  lemma CallKeepsStarted(o: Start, s: State, c: Call, m: Move)
    requires Inv(s) && Started(o, s) && CanMove(s, c, m)
    ensures Started(o, ApplyMove(s, c, m))
  {
    hide ApplyMove, CanMove, Started, Inv;
    match m
    case ReadSource(y) => ReadKeepsStarted(o, s, c, y);
    case EndCompute(ok) => EndKeepsStarted(o, s, c, ok);
    case Store(ok, ttlMs) => StoreKeepsStarted(o, s, c, ok, ttlMs);
    case _ => QuietKeepsStarted(o, s, c, m);
  }

  lemma EvictKeepsStarted(o: Start, s: State, k: Key)
    requires Started(o, s)
    ensures Started(o, s.(memo := s.memo - {k}))
  {
    hide SeenOrEarly, PhaseSeen;
  }

  lemma StepKeepsStarted(o: Start, s: State, step: Step)
    requires Inv(s) && Started(o, s) && Enabled(s, step)
    ensures Started(o, Apply(s, step))
  {
    hide ApplyMove, CanMove, Started, Inv, Grows;
    if step.Of? {
      CallKeepsStarted(o, s, step.c, step.move);
    } else if step.Evict? {
      EvictKeepsStarted(o, s, step.k);
    } else {
      StepGrows(s, step);
      DataKeepsStarted(o, s, Apply(s, step));
    }
  }

  // ----- a call that started late enough -----

  predicate ValueLate(o: Start, r: Request, v: Value) { o.x in Reads(r) ==> o.x in v.saw && v.saw[o.x] >= o.e }

  predicate ResultLate(o: Start, r: Request, res: Result) { !res.Threw? ==> ValueLate(o, r, res.value) }

  /** Everything the call has read is from after the start. */
  ghost predicate PhaseLate(o: Start, c: Call, p: Phase) {
    var r := c.request;
    match p
    case Idle => true
    case ReadingVersions(vs) =>
      |vs| <= |Reads(r)| && forall i | 0 <= i < |vs| :: vs[i] >= o.since.Version(Reads(r)[i])
    case LookingUp(k) => KeyLate(o, r, k)
    case Locking(k) => KeyLate(o, r, k)
    case Waiting(k, _, _) => KeyLate(o, r, k)
    case Sleeping(k, _, _, _) => KeyLate(o, r, k)
    case Computing(lease, saw) => o.x in saw ==> saw[o.x] >= o.e
    case Storing(l, v) => ValueLate(o, r, v)
    case Unlocking(l, res) => ResultLate(o, r, res)
    case Returned(res) => ResultLate(o, r, res)
  }

  ghost predicate Late(o: Start, s: State, c: Call) { PhaseLate(o, c, s.PhaseOf(c)) }

  /** Whatever another call with the same key has computed carries `x` to `r`. */
  ghost predicate AllCarried(s: State, r: Request, x: Source) {
    forall c | c in s.calls :: SameKey(c.request, r) ==> Carried(c.request, r, x)
  }

  /** A value under the key of a late call has seen the commit. */
  lemma HitIsLate(o: Start, s: State, c: Call, k: Key)
    requires Inv(s) && Started(o, s) && KeyOk(s.data, c.request, k) && KeyLate(o, c.request, k)
    requires AllCarried(s, c.request, o.x) && k in s.memo
    ensures ValueLate(o, c.request, s.memo[k].value)
  {
    var v := s.memo[k].value;
    assert Sound(s.data, k, v) && SeenOrEarly(o, v.maker.request, k, v.saw) && v.maker in s.calls;
    assert Fits(v.maker.request, k) && Fits(c.request, k);
    assert SameKey(v.maker.request, c.request);
    hide Inv, KeyLate, KeyOk, Sound, SeenOrEarly, Reads, AllCarried, Fits;
    CarriedIsLate(o, s.data, v.maker.request, c.request, k, v);
  }

  lemma CarriedIsLate(o: Start, d: Data, a: Request, b: Request, k: Key, v: Value)
    requires DataOk(d) && Grows(o.since, d) && o.e <= o.since.Announced(o.x, o.since.Version(o.x))
    requires v.maker.request == a && Sound(d, k, v) && SeenOrEarly(o, a, k, v.saw)
    requires KeyOk(d, b, k) && KeyLate(o, b, k) && Carried(a, b, o.x)
    ensures ValueLate(o, b, v)
  {
    hide Reads, DataOk, Grows, KeyOk, KeyLate, SawKey;
    var route: seq<nat>, p: nat :| Leads(a, b, o.x, route, p) && p < |Reads(b)| && Reads(b)[p] == o.x;
    assert o.x in v.saw by { assert Reads(a)[route[0]] == o.x; }
    if Early(o, a, k) { RouteIsLate(o, d, a, b, k, v.saw, route); }
  }

  lemma RouteIsLate(o: Start, d: Data, a: Request, b: Request, k: Key, saw: map<Source, nat>, route: seq<nat>)
    requires DataOk(d) && Grows(o.since, d) && o.e <= o.since.Announced(o.x, o.since.Version(o.x))
    requires SawKey(d, a, k, saw) && KeyOk(d, b, k) && o.x in saw && Early(o, a, k) && KeyLate(o, b, k)
    requires Route(a, b, route) && Reads(a)[route[0]] == o.x
    requires route[|route| - 1] < |Reads(b)| && Reads(b)[route[|route| - 1]] == o.x
    ensures saw[o.x] >= o.e
  {
    hide Reads, Edge;
    RouteRises(o, a, b, k, route, |route| - 1);
    RouteRises(o, a, b, k, route, 0);
    var i, p := route[0], route[|route| - 1];
    assert k.parts[p].1 >= o.since.Version(o.x);
    assert saw[Reads(a)[i]] >= d.Announced(Reads(a)[i], k.parts[i].1);
    assert d.Announced(o.x, o.since.Version(o.x)) <= d.Announced(o.x, k.parts[i].1);
  }

  lemma HitMoveLate(o: Start, s: State, c: Call, m: Move)
    requires Inv(s) && Started(o, s) && CanMove(s, c, m) && Late(o, s, c) && AllCarried(s, c.request, o.x)
    requires m.LookUp? || m.Poll?
    ensures Late(o, ApplyMove(s, c, m), c)
  {
    var p := s.PhaseOf(c);
    WaitersKey(s, c, m);
    hide Inv, Started, KeyOk, KeyLate, AllCarried, ValueLate, Reads;
    if p.key in s.memo { HitIsLate(o, s, c, p.key); }
    if m.LookUp? { LookUpLate(o, s, c, m.ok); } else { PollLate(o, s, c, m.ok); }
  }

  lemma LookUpLate(o: Start, s: State, c: Call, ok: bool)
    requires CanMove(s, c, LookUp(ok)) && Late(o, s, c)
    requires var k := s.PhaseOf(c).key; k in s.memo ==> ValueLate(o, c.request, s.memo[k].value)
    ensures Late(o, ApplyMove(s, c, LookUp(ok)), c)
  {
    hide ValueLate, KeyLate;
  }

  lemma PollLate(o: Start, s: State, c: Call, ok: bool)
    requires CanMove(s, c, Poll(ok)) && Late(o, s, c)
    requires var k := s.PhaseOf(c).key; k in s.memo ==> ValueLate(o, c.request, s.memo[k].value)
    ensures Late(o, ApplyMove(s, c, Poll(ok)), c)
  {
    hide ValueLate, KeyLate;
  }

  lemma ReadVersionLate(o: Start, s: State, c: Call)
    requires Grows(o.since, s.data) && CanMove(s, c, ReadVersion(true)) && Late(o, s, c)
    ensures Late(o, ApplyMove(s, c, ReadVersion(true)), c)
  {
  }

  lemma StartsLate(o: Start, s: State, c: Call, m: Move)
    requires CanMove(s, c, m) && (m.Bypass? || m.Begin? || m == ReadVersion(false))
    ensures Late(o, ApplyMove(s, c, m), c)
  {
    hide Reads;
  }

  lemma FormKeyLate(o: Start, s: State, c: Call)
    requires CanMove(s, c, FormKey) && Late(o, s, c)
    ensures Late(o, ApplyMove(s, c, FormKey), c)
  {
    KeyOfFits(c.request, s.PhaseOf(c).vs);
  }

  lemma TryLockLate(o: Start, s: State, c: Call, m: Move)
    requires CanMove(s, c, m) && Late(o, s, c) && (m.TryLock? || m.LoseLock?)
    ensures Late(o, ApplyMove(s, c, m), c)
  {
    var key := s.PhaseOf(c).key;
    hide KeyLate, ApplyTryLock, ApplyLoseLock;
    if m.TryLock? { LockTriedLate(o, s, c, key, m.ok); } else { LockLostLate(o, s, c, key); }
  }

  lemma LockTriedLate(o: Start, s: State, c: Call, key: Key, ok: bool)
    requires KeyLate(o, c.request, key)
    ensures Late(o, ApplyTryLock(s, c, key, ok), c)
  {
    hide KeyLate, Reads;
  }

  lemma LockLostLate(o: Start, s: State, c: Call, key: Key)
    ensures Late(o, ApplyLoseLock(s, c, key), c)
  {
    hide KeyLate, Reads;
  }

  lemma CheckWaitLate(o: Start, s: State, c: Call)
    requires CanMove(s, c, CheckWait) && Late(o, s, c)
    ensures Late(o, ApplyMove(s, c, CheckWait), c)
  {
    hide KeyLate;
  }

  lemma ReadSourceLate(o: Start, s: State, c: Call, y: Source)
    requires s.data.Epoch(o.x) >= o.e && CanMove(s, c, ReadSource(y)) && Late(o, s, c)
    ensures Late(o, ApplyMove(s, c, ReadSource(y)), c)
  {
  }

  lemma EndComputeLate(o: Start, s: State, c: Call, ok: bool)
    requires CanMove(s, c, EndCompute(ok)) && Late(o, s, c)
    ensures Late(o, ApplyMove(s, c, EndCompute(ok)), c)
  {
    hide Reads;
  }

  lemma StoreLate(o: Start, s: State, c: Call, m: Move)
    requires CanMove(s, c, m) && Late(o, s, c) && (m.Store? || m.Unlock?)
    ensures Late(o, ApplyMove(s, c, m), c)
  {
    hide Reads;
  }

  lemma OwnMoveLate(o: Start, s: State, c: Call, m: Move)
    requires Inv(s) && Started(o, s) && CanMove(s, c, m) && Late(o, s, c) && AllCarried(s, c.request, o.x)
    ensures Late(o, ApplyMove(s, c, m), c)
  {
    assert s.data.Epoch(o.x) >= o.e && Grows(o.since, s.data);
    hide Inv, Started, Late, AllCarried, ApplyMove, CanMove, Grows;
    match m
    case LookUp(_) | Poll(_) => HitMoveLate(o, s, c, m);
    case ReadVersion(ok) => if ok { ReadVersionLate(o, s, c); } else { StartsLate(o, s, c, m); }
    case Bypass | Begin => StartsLate(o, s, c, m);
    case FormKey => FormKeyLate(o, s, c);
    case TryLock(_) | LoseLock => TryLockLate(o, s, c, m);
    case CheckWait => CheckWaitLate(o, s, c);
    case ReadSource(y) => ReadSourceLate(o, s, c, y);
    case EndCompute(ok) => EndComputeLate(o, s, c, ok);
    case Store(_, _) | Unlock(_) => StoreLate(o, s, c, m);
  }

  lemma StepLeavesCall(s: State, step: Step, c: Call)
    requires Enabled(s, step) && (step.Of? ==> step.c != c)
    ensures Apply(s, step).PhaseOf(c) == s.PhaseOf(c)
  {
    hide ApplyMove, CanMove;
    if step.Of? { CallsLeaveData(s, step.c, step.move); }
  }

  lemma StepKeepsLate(o: Start, s: State, step: Step, c: Call)
    requires Inv(s) && Started(o, s) && Enabled(s, step) && Late(o, s, c) && AllCarried(s, c.request, o.x)
    ensures Late(o, Apply(s, step), c)
  {
    hide Inv, Started, AllCarried, ApplyMove, CanMove;
    if step.Of? && step.c == c {
      OwnMoveLate(o, s, c, step.move);
    } else {
      StepLeavesCall(s, step, c);
    }
  }

  lemma StepKeepsCalls(s: State, step: Step)
    requires Enabled(s, step)
    ensures s.calls.Keys <= Apply(s, step).calls.Keys
  {
    hide ApplyMove, CanMove;
    if step.Of? { CallsLeaveData(s, step.c, step.move); }
  }

  lemma {:induction false} RunKeepsCalls(s: State, steps: seq<Step>)
    requires Possible(s, steps)
    ensures s.calls.Keys <= Run(s, steps).calls.Keys
    decreases |steps|
  {
    if steps != [] {
      StepKeepsCalls(s, steps[0]);
      RunKeepsCalls(Apply(s, steps[0]), steps[1..]);
    }
  }

  lemma {:induction false} RunKeepsInv(s: State, steps: seq<Step>)
    requires Inv(s) && Possible(s, steps)
    ensures Inv(Run(s, steps))
    decreases |steps|
  {
    if steps != [] {
      StepKeepsInv(s, steps[0]);
      RunKeepsInv(Apply(s, steps[0]), steps[1..]);
    }
  }

  lemma {:induction false} RunKeepsLate(o: Start, s: State, steps: seq<Step>, c: Call)
    requires Inv(s) && Started(o, s) && Possible(s, steps) && Late(o, s, c)
    requires AllCarried(Run(s, steps), c.request, o.x)
    ensures Late(o, Run(s, steps), c)
    decreases |steps|
  {
    hide Inv, Started, Late, Carried, SameKey, Apply, Enabled;
    if steps != [] {
      var t := Apply(s, steps[0]);
      RunKeepsCalls(s, steps);
      assert AllCarried(s, c.request, o.x);
      StepKeepsInv(s, steps[0]);
      StepKeepsStarted(o, s, steps[0]);
      StepKeepsLate(o, s, steps[0], c);
      RunKeepsLate(o, t, steps[1..], c);
    }
  }

  /** Write `w` has committed `x` and announced it in every version counter bump it had to do. */
  predicate AnnouncedBy(s: State, w: nat, x: Source) {
    w in s.writes && x in s.writes[w].made && x !in s.writes[w].pending
  }

  /** If `c` starts after write `w` has announced its commit of `x`, its answer has seen that commit. */
  ghost predicate FreshIn(before: seq<Step>, w: nat, x: Source, c: Call, after: seq<Step>)
    requires Possible(INIT, before) && Possible(Run(INIT, before), after)
  {
    var s, p := Run(INIT, before), Run(Run(INIT, before), after).PhaseOf(c);
    AnnouncedBy(s, w, x) && s.PhaseOf(c).Idle? && p.Returned? && !p.result.Threw? ==>
      x in p.result.value.saw && p.result.value.saw[x] >= s.writes[w].made[x]
  }

  /** In every interleaving: a call that has not started when a commit is announced
      returns nothing computed from older data of that source, as long as every
      other call that can have its key carries that source to it. */
  lemma Freshness(before: seq<Step>, w: nat, x: Source, c: Call, after: seq<Step>)
    requires Possible(INIT, before) && Possible(Run(INIT, before), after) && x in Reads(c.request)
    requires AllCarried(Run(Run(INIT, before), after), c.request, x)
    ensures FreshIn(before, w, x, c, after)
  {
    hide Run, Possible, Inv, Reads, Started, Late, AllCarried;
    var s := Run(INIT, before);
    if AnnouncedBy(s, w, x) && s.PhaseOf(c).Idle? {
      InitInv();
      RunKeepsInv(INIT, before);
      var o := Start(s.data, x, s.writes[w].made[x]);
      AnnouncedStarts(o, s, w, c);
      RunKeepsLate(o, s, after, c);
      LateAnswer(o, Run(s, after), c);
    }
  }

  lemma InitInv()
    ensures Inv(INIT)
  {
  }

  lemma AnnouncedStarts(o: Start, s: State, w: nat, c: Call)
    requires Inv(s) && AnnouncedBy(s, w, o.x) && s.PhaseOf(c).Idle? && o.since == s.data && o.e == s.writes[w].made[o.x]
    ensures Started(o, s) && Late(o, s, c)
  {
    assert WriteOk(s.data, s.writes[w]);
    StartsHere(o, s);
  }

  lemma LateAnswer(o: Start, s: State, c: Call)
    requires Late(o, s, c) && o.x in Reads(c.request)
    ensures var p := s.PhaseOf(c);
      p.Returned? && !p.result.Threw? ==> o.x in p.result.value.saw && p.result.value.saw[o.x] >= o.e
  {
    hide Reads;
  }

  // ----- where the condition holds -----

  lemma SamePlace(a: Request, b: Request, x: Source, i: nat)
    requires |Reads(a)| == |Reads(b)| && i < |Reads(a)| && Reads(a)[i] == x && Reads(b)[i] == x
    ensures Carried(a, b, x)
  {
    hide Reads;
    assert Leads(a, b, x, [i], i);
  }

  /** Store and knowledge base: the owner in the key names them. */
  lemma OwnerNames(a: Request, b: Request, x: Source)
    requires SameKey(a, b) && x in Reads(b) && !x.kind.ProductKind?
    ensures Carried(a, b, x)
  {
    SameKeyMeans(a, b);
    StoreParts(a);
    StoreParts(b);
    var i :| 0 <= i < |Reads(b)| && Reads(b)[i] == x;
    SamePlace(a, b, x, i);
  }

  /** Changes of the store and of its knowledge base are never missed, whatever else runs. */
  lemma StoreFreshness(before: seq<Step>, w: nat, x: Source, c: Call, after: seq<Step>)
    requires Possible(INIT, before) && Possible(Run(INIT, before), after)
    requires x in Reads(c.request) && !x.kind.ProductKind?
    ensures FreshIn(before, w, x, c, after)
  {
    hide Run, Possible, Reads, Carried, SameKey;
    forall d: Call | SameKey(d.request, c.request) ensures Carried(d.request, c.request, x) {
      OwnerNames(d.request, c.request, x);
    }
    Freshness(before, w, x, c, after);
  }
}
