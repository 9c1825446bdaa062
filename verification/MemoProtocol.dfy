/** The memo cache of memo-cache.ts as a protocol: writers commit and then bump
    version counters, readers run `memoCall`, and every Redis operation is one
    step that may fail. Steps of all parties interleave in any order. */
module MemoProtocol {
  import opened JsText

  // ----- data sources and their version counters -----

  datatype Kind = StoreKind | KbKind | ProductKind

  datatype Source = Source(kind: Kind, id: string)

  /** The argument of `memoCall`, with the arguments that decide its key. */
  datatype Request = Request(callSite: string, storeId: Option<string>, kb: bool, productIds: seq<string>, input: string)

  /** The sources in the order in which both `versionsFor` and `bumpVersions` visit them. */
  function SourcesOf(storeId: Option<string>, kb: bool, productIds: seq<string>): seq<Source> {
    (if storeId.Some? && storeId.value != "" then
       [Source(StoreKind, storeId.value)] + if kb then [Source(KbKind, storeId.value)] else []
     else [])
    + seq(|productIds|, i requires 0 <= i < |productIds| => Source(ProductKind, productIds[i]))
  }

  function Reads(r: Request): seq<Source> { SourcesOf(r.storeId, r.kb, r.productIds) }

  /** How often each source was committed, its Redis counter, and (for the proof)
      the newest commit that was announced when the counter took a value. */
  datatype Data = Data(epochs: map<Source, nat>, versions: map<Source, nat>, announced: map<(Source, nat), nat>) {
    function Epoch(x: Source): nat { if x in epochs then epochs[x] else 0 }

    function Version(x: Source): nat { if x in versions then versions[x] else 0 }

    function Announced(x: Source, v: nat): nat { if (x, v) in announced then announced[(x, v)] else 0 }

    function Commit(x: Source): Data { this.(epochs := epochs[x := Epoch(x) + 1]) }

    /** `INCR` by a writer whose commit was the `e`-th of `x`. */
    function Bump(x: Source, e: nat): Data {
      var v := Version(x);
      this.(versions := versions[x := v + 1],
            announced := announced[(x, v + 1) := if Announced(x, v) < e then e else Announced(x, v)])
    }
  }

  function CommitAll(d: Data, xs: seq<Source>): Data
    decreases |xs|
  {
    if xs == [] then d else CommitAll(d.Commit(xs[0]), xs[1..])
  }

  // ----- memo keys -----

  /** The text that is hashed into a Redis key, field by field: a version part is
      a kind letter and a number, without the id. */
  datatype Key = Key(callSite: string, owner: string, parts: seq<(Kind, nat)>, input: string)

  function KeyOf(r: Request, vs: seq<nat>): Key
    requires |vs| == |Reads(r)|
  {
    Key(r.callSite, if r.storeId.Some? then r.storeId.value else "-",
        seq(|vs|, i requires 0 <= i < |vs| => (Reads(r)[i].kind, vs[i])), r.input)
  }

  function Numbers(k: Key): seq<nat> { seq(|k.parts|, i requires 0 <= i < |k.parts| => k.parts[i].1) }

  /** `k` is a key that request `r` can have, whatever its counters are. */
  predicate Fits(r: Request, k: Key) { |k.parts| == |Reads(r)| && k == KeyOf(r, Numbers(k)) }

  lemma KeyOfFits(r: Request, vs: seq<nat>)
    requires |vs| == |Reads(r)|
    ensures Fits(r, KeyOf(r, vs)) && Numbers(KeyOf(r, vs)) == vs
  {
  }

  // ----- calls -----

  datatype Call = Call(id: nat, request: Request)

  /** A computed value: the call that computed it, and the commit of each source it saw. */
  datatype Value = Value(maker: Call, saw: map<Source, nat>)

  /** `Hit` values have passed through `onHit`. */
  datatype Result = Fresh(value: Value) | Hit(value: Value) | Threw

  datatype Lease = Lease(key: Key, until: nat)

  datatype Phase =
    | Idle
    | ReadingVersions(vs: seq<nat>)
    | LookingUp(key: Key)
    | Locking(key: Key)
    | Waiting(key: Key, since: nat, polls: nat)
    | Sleeping(key: Key, since: nat, polls: nat, wake: nat)
    | Computing(lease: Option<Lease>, saw: map<Source, nat>)
    | Storing(owned: Lease, value: Value)
    | Unlocking(owned: Lease, result: Result)
    | Returned(result: Result)

  datatype Entry = Entry(value: Value, expires: nat)

  /** Redis stores only a constant under the lock key; the owner is kept for the proof. */
  datatype Lock = Lock(owner: Call, expires: nat)

  /** A writer after its commit: which commit of each source it made, and the bumps to do. */
  datatype Write = Write(made: map<Source, nat>, pending: seq<Source>)

  datatype State = State(
    now: nat, data: Data, writes: map<nat, Write>,
    memo: map<Key, Entry>, locks: map<Key, Lock>,
    calls: map<Call, Phase>, computed: map<Call, nat>)
  {
    function PhaseOf(c: Call): Phase { if c in calls then calls[c] else Idle }

    function Computed(c: Call): nat { if c in computed then computed[c] else 0 }

    /** `GET` of a memo key. */
    function Get(k: Key): Option<Value> {
      if k in memo && now < memo[k].expires then Some(memo[k].value) else None
    }

    predicate Locked(k: Key) { k in locks && now < locks[k].expires }

    function Move(c: Call, p: Phase): State { this.(calls := calls[c := p]) }

    /** The call of `opts.compute()`. */
    function StartCompute(c: Call, lease: Option<Lease>): State {
      Move(c, Computing(lease, map[])).(computed := computed[c := Computed(c) + 1])
    }
  }

  const INIT := State(0, Data(map[], map[], map[]), map[], map[], map[], map[], map[])

  const SF_WAIT_MS := 8000
  const SF_POLL_MS := 150
  const SF_LOCK_MS := 15000

  // ----- steps -----

  datatype Step =
    | Tick(ms: nat)
    | Commit(w: nat, sources: seq<Source>)
    | Bump(w: nat, ok: bool)
    | Evict(k: Key)
    | Of(c: Call, move: Move)

  /** What one call does next; `ok` says whether its Redis operation answers. In
      `LoseLock` the `SET` takes effect but its answer is lost. */
  datatype Move =
    | Bypass
    | Begin
    | ReadVersion(ok: bool)
    | FormKey
    | LookUp(ok: bool)
    | TryLock(ok: bool)
    | LoseLock
    | CheckWait
    | Poll(ok: bool)
    | ReadSource(x: Source)
    | EndCompute(ok: bool)
    | Store(ok: bool, ttlMs: nat)
    | Unlock(ok: bool)

  predicate Enabled(s: State, step: Step) {
    match step
    case Tick(_) => true
    case Commit(w, _) => w !in s.writes
    case Bump(w, _) => w in s.writes && s.writes[w].pending != []
    case Evict(k) => k in s.memo
    case Of(c, m) => CanMove(s, c, m)
  }

  predicate CanMove(s: State, c: Call, m: Move) {
    var p := s.PhaseOf(c);
    match m
    case Bypass | Begin => p.Idle?
    case ReadVersion(_) => p.ReadingVersions? && |p.vs| < |Reads(c.request)|
    case FormKey => p.ReadingVersions? && |p.vs| == |Reads(c.request)|
    case LookUp(_) => p.LookingUp?
    case TryLock(_) => p.Locking?
    case LoseLock => p.Locking?
    case CheckWait => p.Waiting?
    case Poll(_) => p.Sleeping? && p.wake <= s.now
    case ReadSource(x) => p.Computing? && x in Reads(c.request)
    case EndCompute(ok) => p.Computing? && (ok ==> forall x | x in Reads(c.request) :: x in p.saw)
    case Store(_, _) => p.Storing?
    case Unlock(_) => p.Unlocking?
  }

  function Apply(s: State, step: Step): State
    requires Enabled(s, step)
  {
    match step
    case Tick(ms) => s.(now := s.now + ms)
    case Commit(w, xs) => ApplyCommit(s, w, xs)
    case Bump(w, ok) => ApplyBump(s, w, ok)
    case Evict(k) => s.(memo := s.memo - {k})
    case Of(c, m) => ApplyMove(s, c, m)
  }

  /** One transaction writes all its sources at once. */
  function ApplyCommit(s: State, w: nat, xs: seq<Source>): State {
    var d := CommitAll(s.data, xs);
    s.(data := d, writes := s.writes[w := Write(map x | x in xs :: d.Epoch(x), xs)])
  }

  /** The next `INCR` of `bumpVersions`; an error ends the whole loop. */
  function ApplyBump(s: State, w: nat, ok: bool): State
    requires w in s.writes && s.writes[w].pending != []
  {
    var wr := s.writes[w];
    var x := wr.pending[0];
    if ok then
      s.(data := s.data.Bump(x, if x in wr.made then wr.made[x] else 0),
         writes := s.writes[w := wr.(pending := wr.pending[1..])])
    else s.(writes := s.writes[w := Write(map[], [])])
  }

  function ApplyMove(s: State, c: Call, m: Move): State
    requires CanMove(s, c, m)
  {
    var p := s.PhaseOf(c);
    match m
    case Bypass => s.StartCompute(c, None)
    case Begin => s.Move(c, ReadingVersions([]))
    case ReadVersion(ok) => ApplyReadVersion(s, c, p.vs, ok)
    case FormKey => s.Move(c, LookingUp(KeyOf(c.request, p.vs)))
    case LookUp(ok) => ApplyLook(s, c, p.key, ok, Locking(p.key))
    case TryLock(ok) => ApplyTryLock(s, c, p.key, ok)
    case LoseLock => ApplyLoseLock(s, c, p.key)
    case CheckWait => ApplyCheckWait(s, c, p.key, p.since, p.polls)
    case Poll(ok) => ApplyLook(s, c, p.key, ok, Waiting(p.key, p.since, p.polls + 1))
    case ReadSource(x) => s.Move(c, Computing(p.lease, p.saw[x := s.data.Epoch(x)]))
    case EndCompute(ok) => ApplyEndCompute(s, c, p.lease, p.saw, ok)
    case Store(ok, ttlMs) => ApplyStore(s, c, p.owned, p.value, ok, ttlMs)
    case Unlock(ok) => ApplyUnlock(s, c, p.owned, p.result, ok)
  }

  function ApplyReadVersion(s: State, c: Call, vs: seq<nat>, ok: bool): State
    requires |vs| < |Reads(c.request)|
  {
    if ok then s.Move(c, ReadingVersions(vs + [s.data.Version(Reads(c.request)[|vs|])])) else s.StartCompute(c, None)
  }

  /** `readHit`: a live entry is the answer; without one the call goes on in `next`. */
  function ApplyLook(s: State, c: Call, key: Key, ok: bool, next: Phase): State {
    s.Move(c, if ok && s.Get(key).Some? then Returned(Hit(s.Get(key).value)) else next)
  }

  function ApplyCheckWait(s: State, c: Call, key: Key, since: nat, polls: nat): State {
    if s.now < since + SF_WAIT_MS then s.Move(c, Sleeping(key, since, polls, s.now + SF_POLL_MS))
    else s.StartCompute(c, None)
  }

  function ApplyStore(s: State, c: Call, owned: Lease, v: Value, ok: bool, ttlMs: nat): State {
    s.Move(c, Unlocking(owned, Fresh(v))).(memo := if ok then s.memo[owned.key := Entry(v, s.now + ttlMs)] else s.memo)
  }

  function ApplyUnlock(s: State, c: Call, owned: Lease, result: Result, ok: bool): State {
    s.Move(c, Returned(result)).(locks := if ok then s.locks - {owned.key} else s.locks)
  }

  /** `SET key 1 PX 15000 NX`. */
  function ApplyTryLock(s: State, c: Call, key: Key, ok: bool): State {
    if !ok then s.StartCompute(c, None)
    else if s.Locked(key) then s.Move(c, Waiting(key, s.now, 0))
    else
      var until := s.now + SF_LOCK_MS;
      s.StartCompute(c, Some(Lease(key, until))).(locks := s.locks[key := Lock(c, until)])
  }

  /** The caller sees an error and computes; the lock, if it was free, is set. */
  function ApplyLoseLock(s: State, c: Call, key: Key): State {
    s.StartCompute(c, None).(locks := if s.Locked(key) then s.locks else s.locks[key := Lock(c, s.now + SF_LOCK_MS)])
  }

  function ApplyEndCompute(s: State, c: Call, lease: Option<Lease>, saw: map<Source, nat>, ok: bool): State {
    match lease
    case Some(l) => s.Move(c, if ok then Storing(l, Value(c, saw)) else Unlocking(l, Threw))
    case None => s.Move(c, Returned(if ok then Fresh(Value(c, saw)) else Threw))
  }

  /** All steps of a run are possible where they are taken. */
  predicate Possible(s: State, steps: seq<Step>)
    decreases |steps|
  {
    steps == [] || (Enabled(s, steps[0]) && Possible(Apply(s, steps[0]), steps[1..]))
  }

  function Run(s: State, steps: seq<Step>): State
    requires Possible(s, steps)
    decreases |steps|
  {
    if steps == [] then s else Run(Apply(s, steps[0]), steps[1..])
  }

  /** A move of one call changes nothing about another call or the data. */
  ghost predicate OnlyTouches(s: State, t: State, c: Call) {
    t.data == s.data && t.now == s.now && c in t.calls && t.calls == s.calls[c := t.calls[c]]
  }

  lemma CallsLeaveData(s: State, c: Call, m: Move)
    requires CanMove(s, c, m)
    ensures OnlyTouches(s, ApplyMove(s, c, m), c)
  {
    if m.LookUp? || m.Poll? {
      LookingLeavesData(s, c, m);
    } else if m.EndCompute? || m.Store? || m.Unlock? {
      EndingLeavesData(s, c, m);
    } else if m.TryLock? {
      LockingLeavesData(s, c, m.ok);
    } else if m.CheckWait? || m.ReadSource? || m.LoseLock? {
      WaitingLeavesData(s, c, m);
    } else {
      StartingLeavesData(s, c, m);
    }
  }

  lemma StartingLeavesData(s: State, c: Call, m: Move)
    requires CanMove(s, c, m) && (m.Bypass? || m.Begin? || m.ReadVersion? || m.FormKey?)
    ensures OnlyTouches(s, ApplyMove(s, c, m), c)
  {
    hide Reads, KeyOf;
  }

  lemma WaitingLeavesData(s: State, c: Call, m: Move)
    requires CanMove(s, c, m) && (m.CheckWait? || m.ReadSource? || m.LoseLock?)
    ensures OnlyTouches(s, ApplyMove(s, c, m), c)
  {
    hide Reads;
  }

  lemma LockingLeavesData(s: State, c: Call, ok: bool)
    requires CanMove(s, c, TryLock(ok))
    ensures OnlyTouches(s, ApplyMove(s, c, TryLock(ok)), c)
  {
  }

  lemma LookingLeavesData(s: State, c: Call, m: Move)
    requires CanMove(s, c, m) && (m.LookUp? || m.Poll?)
    ensures OnlyTouches(s, ApplyMove(s, c, m), c)
  {
  }

  lemma EndingLeavesData(s: State, c: Call, m: Move)
    requires CanMove(s, c, m) && (m.EndCompute? || m.Store? || m.Unlock?)
    ensures OnlyTouches(s, ApplyMove(s, c, m), c)
  {
    hide ApplyMove, CanMove, OnlyTouches;
    match m
    case EndCompute(ok) => EndComputeLeavesData(s, c, ok);
    case Store(ok, ttlMs) => StoreLeavesData(s, c, ok, ttlMs);
    case Unlock(ok) => UnlockLeavesData(s, c, ok);
  }

  lemma EndComputeLeavesData(s: State, c: Call, ok: bool)
    requires CanMove(s, c, EndCompute(ok))
    ensures OnlyTouches(s, ApplyMove(s, c, EndCompute(ok)), c)
  {
    hide Reads;
  }

  lemma StoreLeavesData(s: State, c: Call, ok: bool, ttlMs: nat)
    requires CanMove(s, c, Store(ok, ttlMs))
    ensures OnlyTouches(s, ApplyMove(s, c, Store(ok, ttlMs)), c)
  {
  }

  lemma UnlockLeavesData(s: State, c: Call, ok: bool)
    requires CanMove(s, c, Unlock(ok))
    ensures OnlyTouches(s, ApplyMove(s, c, Unlock(ok)), c)
  {
  }
}
