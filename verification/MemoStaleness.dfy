/** The limit of the memo key: a version part carries no product id. This module builds
    the stale runs, and with MemoFreshness says exactly when there are none. */
module MemoStaleness {
  import opened JsText
  import opened MemoProtocol
  import opened MemoSingleFlight
  import opened MemoFreshness

  // ----- which places of the key must keep an old counter -----

  /** Some route leads from `x` in `a` to place `p`. */
  ghost predicate Low(a: Request, b: Request, x: Source, p: nat) { exists route: seq<nat> :: Leads(a, b, x, route, p) }

  lemma LowStart(a: Request, b: Request, x: Source, i: nat)
    requires |Reads(a)| == |Reads(b)| && i < |Reads(a)| && Reads(a)[i] == x
    ensures Low(a, b, x, i)
  {
    hide Reads;
    assert Leads(a, b, x, [i], i);
  }

  lemma LowEdge(a: Request, b: Request, x: Source, i: nat, j: nat)
    requires Low(a, b, x, i) && Edge(a, b, i, j)
    ensures Low(a, b, x, j)
  {
    hide Reads, Edge;
    var route: seq<nat> :| Leads(a, b, x, route, i);
    var longer := route + [j];
    forall n | 0 < n < |longer| ensures Edge(a, b, longer[n - 1], longer[n]) {
      if n < |route| { assert Edge(a, b, route[n - 1], route[n]); }
    }
    assert Leads(a, b, x, longer, j);
  }

  /** The counters of the stale key. */
  ghost function Targets(a: Request, b: Request, x: Source): seq<nat> {
    seq(|Reads(a)|, i requires 0 <= i < |Reads(a)| => if Low(a, b, x, i) then 0 else 1)
  }

  // ----- reading given counters, with writers in between -----

  /** From place `k` on a call can read `vs`, if writers raise counters from 0 to 1 in time. */
  predicate Readable(d: Data, xs: seq<Source>, vs: seq<nat>, k: nat) {
    && |vs| == |xs|
    && (forall i | k <= i < |xs| :: vs[i] <= 1 && d.Version(xs[i]) <= 1 && (vs[i] == 0 ==> d.Version(xs[i]) == 0))
    && forall i, j | k <= j < i < |xs| && xs[i] == xs[j] && vs[i] == 0 :: vs[j] == 0
  }

  /** Sources that are read at counter 0 only are not touched; no counter passes 1. */
  ghost predicate Raised(d: Data, e: Data, xs: seq<Source>, vs: seq<nat>, k: nat)
    requires |vs| == |xs|
  {
    && (forall y :: d.Version(y) <= 1 ==> e.Version(y) <= 1)
    && forall y | forall i | k <= i < |xs| && xs[i] == y :: vs[i] == 0 ::
        e.Version(y) == d.Version(y) && e.Epoch(y) == d.Epoch(y)
  }

  /** All writers have numbers below `next`. */
  predicate Writers(s: State, next: nat) { forall w | w in s.writes :: w < next }

  /** A transaction that writes `y` and announces it. */
  function Writing(w: nat, y: Source): seq<Step> { [Commit(w, [y])] + [Bump(w, true)] }

  function Written(s: State, w: nat, y: Source): State {
    s.(data := s.data.Commit(y).Bump(y, s.data.Epoch(y) + 1),
       writes := s.writes[w := Write(map[y := s.data.Epoch(y) + 1], [])])
  }

  lemma Writes(s: State, w: nat, y: Source)
    requires w !in s.writes
    ensures Possible(s, Writing(w, y)) && Run(s, Writing(w, y)) == Written(s, w, y)
  {
    hide Run, Possible, ApplyCommit, ApplyBump, ApplyMove, CanMove;
    var e := s.data.Epoch(y) + 1;
    var t := s.(data := s.data.Commit(y), writes := s.writes[w := Write(map[y := e], [y])]);
    Commits(s, w, y);
    RunOne(s, Commit(w, [y]));
    Bumps(t, w, y, e);
    RunOne(t, Bump(w, true));
    RunConcat(s, [Commit(w, [y])], [Bump(w, true)]);
    WrittenIs(s, t, w, y, e);
  }

  lemma WrittenIs(s: State, t: State, w: nat, y: Source, e: nat)
    requires e == s.data.Epoch(y) + 1
    requires t == s.(data := s.data.Commit(y), writes := s.writes[w := Write(map[y := e], [y])])
    ensures t.(data := t.data.Bump(y, e), writes := t.writes[w := Write(map[y := e], [])]) == Written(s, w, y)
  {
    assert t.writes[w := Write(map[y := e], [])] == s.writes[w := Write(map[y := e], [])];
  }

  lemma Commits(s: State, w: nat, y: Source)
    ensures var e := s.data.Epoch(y) + 1;
      ApplyCommit(s, w, [y]) == s.(data := s.data.Commit(y), writes := s.writes[w := Write(map[y := e], [y])])
  {
    assert [y][1..] == [];
    var d := CommitAll(s.data, [y]);
    assert d == s.data.Commit(y) by { assert CommitAll(s.data.Commit(y), []) == s.data.Commit(y); }
    assert (map x | x in [y] :: d.Epoch(x)) == map[y := s.data.Epoch(y) + 1];
  }

  lemma Bumps(t: State, w: nat, y: Source, e: nat)
    requires w in t.writes && t.writes[w] == Write(map[y := e], [y])
    ensures ApplyBump(t, w, true) == t.(data := t.data.Bump(y, e), writes := t.writes[w := Write(map[y := e], [])])
  {
    assert [y][1..] == [];
  }

  lemma WrittenData(d: Data, y: Source)
    ensures var e := d.Commit(y).Bump(y, d.Epoch(y) + 1);
      && e.Version(y) == d.Version(y) + 1 && e.Epoch(y) == d.Epoch(y) + 1
      && forall z | z != y :: e.Version(z) == d.Version(z) && e.Epoch(z) == d.Epoch(z)
  {
  }

  /** What the reads of a call leave: its own phase, and data that writers have raised. */
  ghost predicate HasRead(s: State, t: State, c: Call, vs: seq<nat>) {
    t == s.(data := t.data, writes := t.writes, calls := s.calls[c := ReadingVersions(vs)])
  }

  lemma {:induction false} ReadsTo(s: State, c: Call, vs: seq<nat>, k: nat, next: nat)
    returns (steps: seq<Step>, t: State, later: nat)
    requires |vs| == |Reads(c.request)| && k <= |vs| && s.PhaseOf(c) == ReadingVersions(vs[..k])
    requires Readable(s.data, Reads(c.request), vs, k) && Writers(s, next)
    ensures Possible(s, steps) && Run(s, steps) == t
    ensures HasRead(s, t, c, vs) && Raised(s.data, t.data, Reads(c.request), vs, k) && Writers(t, later)
    decreases |vs| - k
  {
    hide Run, Possible, Reads, Readable, Raised, HasRead;
    if k == |vs| {
      steps, t, later := [], s, next;
      ReadsNone(s, c, vs);
    } else {
      var first, u, n := ReadsNext(s, c, vs, k, next);
      var rest;
      rest, t, later := ReadsTo(u, c, vs, k + 1, n);
      steps := first + rest;
      RunConcat(s, first, rest);
      HasReadTwice(s, u, t, c, vs, k);
      RaisedTwice(s.data, u.data, t.data, Reads(c.request), vs, k);
    }
  }

  lemma ReadsNone(s: State, c: Call, vs: seq<nat>)
    requires |vs| == |Reads(c.request)| && s.PhaseOf(c) == ReadingVersions(vs[..|vs|])
    ensures Possible(s, []) && Run(s, []) == s && HasRead(s, s, c, vs)
    ensures Raised(s.data, s.data, Reads(c.request), vs, |vs|)
  {
    hide Reads;
    assert vs[..|vs|] == vs;
    assert s.calls == s.calls[c := ReadingVersions(vs)];
  }

  lemma HasReadTwice(s: State, u: State, t: State, c: Call, vs: seq<nat>, k: nat)
    requires k < |vs| && HasRead(s, u, c, vs[..k + 1]) && HasRead(u, t, c, vs)
    ensures HasRead(s, t, c, vs)
  {
    assert s.calls[c := ReadingVersions(vs[..k + 1])][c := ReadingVersions(vs)] == s.calls[c := ReadingVersions(vs)];
  }

  lemma RaisedTwice(d: Data, e: Data, f: Data, xs: seq<Source>, vs: seq<nat>, k: nat)
    requires |vs| == |xs| && k < |xs| && RaisedAt(d, e, xs[k], vs[k]) && Raised(e, f, xs, vs, k + 1)
    ensures Raised(d, f, xs, vs, k)
  {
    forall y | forall i | k <= i < |xs| && xs[i] == y :: vs[i] == 0
      ensures f.Version(y) == d.Version(y) && f.Epoch(y) == d.Epoch(y)
    {
      assert forall i | k + 1 <= i < |xs| && xs[i] == y :: vs[i] == 0;
      assert xs[k] == y ==> vs[k] == 0;
    }
  }

  /** Source `z` is raised to counter `v`, if it is not there yet. */
  ghost predicate RaisedAt(d: Data, e: Data, z: Source, v: nat) {
    && (forall y :: d.Version(y) <= 1 ==> e.Version(y) <= 1)
    && (forall y | y != z || v == 0 :: e.Version(y) == d.Version(y) && e.Epoch(y) == d.Epoch(y))
    && (v <= 1 && d.Version(z) <= v ==> e.Version(z) == v)
  }

  lemma ReadableHere(d: Data, xs: seq<Source>, vs: seq<nat>, k: nat)
    requires Readable(d, xs, vs, k) && k < |xs|
    ensures d.Version(xs[k]) <= vs[k] <= 1
  {
  }

  lemma StillReadable(d: Data, e: Data, xs: seq<Source>, vs: seq<nat>, k: nat)
    requires Readable(d, xs, vs, k) && k < |xs| && RaisedAt(d, e, xs[k], vs[k])
    ensures Readable(e, xs, vs, k + 1)
  {
    forall i | k + 1 <= i < |xs| ensures e.Version(xs[i]) <= 1 && (vs[i] == 0 ==> e.Version(xs[i]) == 0) {
      assert d.Version(xs[i]) <= 1;
    }
  }

  lemma WrittenIsRaised(d: Data, y: Source)
    requires d.Version(y) == 0
    ensures var e := d.Commit(y).Bump(y, d.Epoch(y) + 1); RaisedAt(d, e, y, 1) && e.Version(y) == 1
  {
    WrittenData(d, y);
  }

  lemma Raises(s: State, y: Source, v: nat, next: nat) returns (steps: seq<Step>, t: State, later: nat)
    requires s.data.Version(y) <= v <= 1 && Writers(s, next)
    ensures Possible(s, steps) && Run(s, steps) == t
    ensures t == s.(data := t.data, writes := t.writes) && RaisedAt(s.data, t.data, y, v) && Writers(t, later)
    ensures t.data.Version(y) == v
  {
    hide Run, Possible, RaisedAt;
    if s.data.Version(y) == v {
      steps, t, later := [], s, next;
      RaisesNothing(s, y, v);
    } else {
      steps, t, later := Writing(next, y), Written(s, next, y), next + 1;
      Writes(s, next, y);
      WrittenIsRaised(s.data, y);
    }
  }

  lemma RaisesNothing(s: State, y: Source, v: nat)
    requires s.data.Version(y) == v
    ensures Possible(s, []) && Run(s, []) == s && RaisedAt(s.data, s.data, y, v)
  {
  }

  lemma ReadsNext(s: State, c: Call, vs: seq<nat>, k: nat, next: nat) returns (steps: seq<Step>, t: State, later: nat)
    requires |vs| == |Reads(c.request)| && k < |vs| && s.PhaseOf(c) == ReadingVersions(vs[..k])
    requires Readable(s.data, Reads(c.request), vs, k) && Writers(s, next)
    ensures Possible(s, steps) && Run(s, steps) == t
    ensures HasRead(s, t, c, vs[..k + 1]) && RaisedAt(s.data, t.data, Reads(c.request)[k], vs[k]) && Writers(t, later)
    ensures t.PhaseOf(c) == ReadingVersions(vs[..k + 1]) && Readable(t.data, Reads(c.request), vs, k + 1)
  {
    hide Run, Possible, Reads, Readable, RaisedAt;
    var y := Reads(c.request)[k];
    ReadableHere(s.data, Reads(c.request), vs, k);
    var first, u, n := Raises(s, y, vs[k], next);
    t, later := u.Move(c, ReadingVersions(vs[..k + 1])), n;
    var read := Of(c, ReadVersion(true));
    assert vs[..k] + [vs[k]] == vs[..k + 1];
    RunOne(u, read);
    steps := first + [read];
    RunConcat(s, first, [read]);
    StillReadable(s.data, u.data, Reads(c.request), vs, k);
  }

  // ----- the stale run -----

  lemma TargetsRise(a: Request, b: Request, x: Source)
    requires |Reads(a)| == |Reads(b)|
    ensures Readable(INIT.data, Reads(a), Targets(a, b, x), 0)
  {
    hide Reads, Low;
    var xs, vs := Reads(a), Targets(a, b, x);
    forall i, j | 0 <= j < i < |xs| && xs[i] == xs[j] && vs[i] == 0 ensures vs[j] == 0 {
      assert Edge(a, b, i, j);
      LowEdge(a, b, x, i, j);
    }
  }

  /** While `a` makes its value, `x` stays as it is, and so does every source whose
      counter `b` must read at a low place. */
  lemma LowStays(a: Request, b: Request, x: Source, d: Data, y: Source)
    requires |Reads(a)| == |Reads(b)| && Raised(INIT.data, d, Reads(a), Targets(a, b, x), 0)
    requires y == x || exists i: nat :: i < |Reads(b)| && Low(a, b, x, i) && Reads(b)[i] == y
    ensures d.Version(y) == 0 && d.Epoch(y) == 0
  {
    hide Reads, Low;
    var xs, vs := Reads(a), Targets(a, b, x);
    forall j | 0 <= j < |xs| && xs[j] == y ensures vs[j] == 0 {
      if y == x {
        LowStart(a, b, x, j);
      } else {
        var i: nat :| i < |Reads(b)| && Low(a, b, x, i) && Reads(b)[i] == y;
        assert Edge(a, b, i, j);
        LowEdge(a, b, x, i, j);
      }
    }
  }

  lemma TargetsReadable(a: Request, b: Request, x: Source, d: Data, e: Data)
    requires |Reads(a)| == |Reads(b)| && !Carried(a, b, x)
    requires Raised(INIT.data, d, Reads(a), Targets(a, b, x), 0)
    requires e == d.Commit(x).Bump(x, d.Epoch(x) + 1)
    ensures Readable(e, Reads(b), Targets(a, b, x), 0)
  {
    hide Reads, Low;
    var xs, vs := Reads(b), Targets(a, b, x);
    WrittenData(d, x);
    LowStays(a, b, x, d, x);
    forall i | 0 <= i < |xs|
      ensures vs[i] <= 1 && e.Version(xs[i]) <= 1 && (vs[i] == 0 ==> e.Version(xs[i]) == 0)
    {
      assert INIT.data.Version(xs[i]) == 0;
      if Low(a, b, x, i) {
        LowIsOther(a, b, x, i);
        LowStays(a, b, x, d, xs[i]);
      }
    }
    forall i, j | 0 <= j < i < |xs| && xs[i] == xs[j] && vs[i] == 0 ensures vs[j] == 0 {
      assert Edge(a, b, i, j);
      LowEdge(a, b, x, i, j);
    }
  }

  lemma LowIsOther(a: Request, b: Request, x: Source, i: nat)
    requires !Carried(a, b, x) && Low(a, b, x, i) && i < |Reads(b)|
    ensures Reads(b)[i] != x
  {
    hide Reads, Leads;
    var route: seq<nat> :| Leads(a, b, x, route, i);
  }

  /** `a` computes and stores a value under the key with the chosen counters. */
  lemma Makes(a: Call, vs: seq<nat>) returns (steps: seq<Step>, t: State, later: nat)
    requires |vs| == |Reads(a.request)| && Readable(INIT.data, Reads(a.request), vs, 0)
    ensures Possible(INIT, steps) && Run(INIT, steps) == t
    ensures Raised(INIT.data, t.data, Reads(a.request), vs, 0) && Writers(t, later)
    ensures var v := Value(a, Seen(t.data, Reads(a.request)));
      && t.now == 0 && t.memo == map[KeyOf(a.request, vs) := Entry(v, 1)] && t.calls == map[a := Returned(Fresh(v))]
  {
    hide Run, Possible, Reads, Readable, Raised, Visits, Closing, KeyOf;
    var k, r := KeyOf(a.request, vs), a.request;
    var s := INIT.Move(a, ReadingVersions([]));
    RunOne(INIT, Of(a, Begin));
    assert vs[..0] == [];
    var reading, u, n := ReadsTo(s, a, vs, 0, 0);
    var looks, closes := [Of(a, FormKey), Of(a, LookUp(true))], [Of(a, TryLock(true))] + (Visits(a, Reads(r)) + Closing(a, 1));
    FormsAndLooks(u, a, vs);
    var l := u.Move(a, Locking(k));
    OwnsAndCloses(l, a, k, 1);
    RunConcat(u, looks, closes);
    RunConcat(s, reading, looks + closes);
    RunConcat(INIT, [Of(a, Begin)], reading + (looks + closes));
    steps, t, later := [Of(a, Begin)] + (reading + (looks + closes)), Run(l, closes), n;
    MadeState(u, t, a, vs, k, Value(a, Seen(u.data, Reads(r))));
  }

  lemma MadeState(u: State, t: State, a: Call, vs: seq<nat>, k: Key, v: Value)
    requires HasRead(INIT.Move(a, ReadingVersions([])), u, a, vs)
    requires t == MemoSingleFlight.Closed(u.Move(a, Locking(k)), a, k, v, 1).(computed := t.computed)
    ensures t.now == 0 && t.data == u.data && t.writes == u.writes
    ensures t.memo == map[k := Entry(v, 1)] && t.calls == map[a := Returned(Fresh(v))]
  {
  }

  /** A call that reads the counters of a stored key gets the value stored there. */
  lemma Served(s: State, b: Call, vs: seq<nat>, k: Key, next: nat) returns (steps: seq<Step>, t: State)
    requires s.PhaseOf(b).Idle? && |vs| == |Reads(b.request)| && k == KeyOf(b.request, vs) && s.Get(k).Some?
    requires Readable(s.data, Reads(b.request), vs, 0) && Writers(s, next)
    ensures Possible(s, steps) && Run(s, steps) == t && t.calls == s.calls[b := Returned(Hit(s.Get(k).value))]
  {
    hide Run, Possible, Reads, Readable, Raised, KeyOf;
    var s1 := s.Move(b, ReadingVersions([]));
    RunOne(s, Of(b, Begin));
    assert vs[..0] == [];
    var reading, u, n := ReadsTo(s1, b, vs, 0, next);
    assert u.Get(k) == s.Get(k);
    var looks := [Of(b, FormKey), Of(b, LookUp(true))];
    FormsAndLooks(u, b, vs);
    RunConcat(s1, reading, looks);
    RunConcat(s, [Of(b, Begin)], reading + looks);
    steps, t := [Of(b, Begin)] + (reading + looks), u.Move(b, Returned(Hit(s.Get(k).value)));
    MoveTwice(s, b, ReadingVersions([]));
  }

  /** A run in which `b` starts after a change of `x` is announced and is given the value
      that `a` computed before that change. */
  lemma StaleRun(a: Request, b: Request, x: Source) returns (before: seq<Step>, w: nat, after: seq<Step>, v: Value)
    requires SameKey(a, b) && !Carried(a, b, x)
    ensures Possible(INIT, before) && Possible(Run(INIT, before), after)
    ensures AnnouncedBy(Run(INIT, before), w, x) && Run(INIT, before).writes[w].made[x] == 1
    ensures Run(INIT, before).PhaseOf(Call(2, b)).Idle?
    ensures Run(Run(INIT, before), after).calls == map[Call(1, a) := Returned(Fresh(v)), Call(2, b) := Returned(Hit(v))]
    ensures v.maker == Call(1, a) && v.saw.Keys == (set y | y in Reads(a)) && (x in v.saw ==> v.saw[x] == 0)
  {
    hide Run, Possible, Reads, Readable, Raised, Carried, KeyOf, Seen, SameKey;
    SameKeyMeans(a, b);
    var vs := Targets(a, b, x);
    TargetsRise(a, b, x);
    var make, t, n := Makes(Call(1, a), vs);
    v := Value(Call(1, a), Seen(t.data, Reads(a)));
    var s := Written(t, n, x);
    Writes(t, n, x);
    RunConcat(INIT, make, Writing(n, x));
    before, w := make + Writing(n, x), n;
    TargetsReadable(a, b, x, t.data, s.data);
    LowStays(a, b, x, t.data, x);
    SeenWhat(t.data, Reads(a));
    var u;
    after, u := Served(s, Call(2, b), vs, KeyOf(a, vs), n + 1);
  }

  lemma SeenWhat(d: Data, xs: seq<Source>)
    ensures Seen(d, xs).Keys == (set y | y in xs) && forall y | y in xs :: Seen(d, xs)[y] == d.Epoch(y)
  {
  }

  // ----- exactly when a call is never given a stale value -----

  ghost predicate OnlyFrom(s: State, a: Request, b: Request) {
    forall c | c in s.calls :: c.request == a || c.request == b
  }

  /** In every run with calls for `a` and `b` only, those for `b` miss no change of `x`. */
  ghost predicate AlwaysFresh(a: Request, b: Request, x: Source) {
    forall before, w: nat, c: Call, after |
      Possible(INIT, before) && Possible(Run(INIT, before), after)
      && c.request == b && OnlyFrom(Run(Run(INIT, before), after), a, b) ::
      FreshIn(before, w, x, c, after)
  }

  /** Freshness, exactly: two requests that can share a key are safe for each other
      with respect to a source if and only if it is carried from one to the other. */
  lemma FreshExactly(a: Request, b: Request, x: Source)
    requires SameKey(a, b) && x in Reads(b)
    ensures AlwaysFresh(a, b, x) <==> Carried(a, b, x)
  {
    hide Run, Possible, Reads, Carried, SameKey, FreshIn;
    if Carried(a, b, x) {
      OwnCarried(b, x);
      forall before, w: nat, c: Call, after |
        Possible(INIT, before) && Possible(Run(INIT, before), after)
        && c.request == b && OnlyFrom(Run(Run(INIT, before), after), a, b)
        ensures FreshIn(before, w, x, c, after)
      {
        Freshness(before, w, x, c, after);
      }
    } else {
      var before, w, after, v := StaleRun(a, b, x);
      StaleAnswer(before, w, x, Call(2, b), after, v);
    }
  }

  lemma OwnCarried(b: Request, x: Source)
    requires x in Reads(b)
    ensures Carried(b, b, x)
  {
    hide Reads, Carried;
    var i :| 0 <= i < |Reads(b)| && Reads(b)[i] == x;
    SamePlace(b, b, x, i);
  }

  lemma StaleAnswer(before: seq<Step>, w: nat, x: Source, c: Call, after: seq<Step>, v: Value)
    requires Possible(INIT, before) && Possible(Run(INIT, before), after)
    requires AnnouncedBy(Run(INIT, before), w, x) && Run(INIT, before).writes[w].made[x] == 1
    requires Run(INIT, before).PhaseOf(c).Idle? && Run(Run(INIT, before), after).PhaseOf(c) == Returned(Hit(v))
    requires x in v.saw ==> v.saw[x] == 0
    ensures !FreshIn(before, w, x, c, after)
  {
    hide Run, Possible;
  }

  // ----- the same in terms of product ids -----

  /** As many product ids, and one key holds for both. */
  lemma ProductsShareKeys(r: Request, ids: seq<string>)
    requires |ids| == |r.productIds|
    ensures SameKey(r, r.(productIds := ids))
  {
    var q := r.(productIds := ids);
    StoreParts(r);
    StoreParts(q);
    SameKeyMeans(r, q);
  }

  /** A product that only `b` names: its buyers get a value that was made without it. */
  lemma OtherProductIsStale(a: Request, b: Request, id: string)
    returns (before: seq<Step>, w: nat, after: seq<Step>, v: Value)
    requires SameKey(a, b) && id in b.productIds && id !in a.productIds
    ensures Possible(INIT, before) && Possible(Run(INIT, before), after)
    ensures AnnouncedBy(Run(INIT, before), w, Source(ProductKind, id))
    ensures Run(INIT, before).PhaseOf(Call(2, b)).Idle?
    ensures Run(Run(INIT, before), after).PhaseOf(Call(2, b)) == Returned(Hit(v)) && Source(ProductKind, id) !in v.saw
  {
    hide Run, Possible, SameKey, Reads;
    var x := Source(ProductKind, id);
    ProductIsRead(a, id);
    if Carried(a, b, x) { CarriedIsRead(a, b, x); }
    before, w, after, v := StaleRun(a, b, x);
  }

  lemma ProductIsRead(r: Request, id: string)
    ensures Source(ProductKind, id) in Reads(r) <==> id in r.productIds
  {
    if id in r.productIds {
      var i :| 0 <= i < |r.productIds| && r.productIds[i] == id;
      assert Reads(r)[|Reads(r)| - |r.productIds| + i] == Source(ProductKind, id);
    }
  }

  lemma CarriedIsRead(a: Request, b: Request, x: Source)
    requires Carried(a, b, x)
    ensures x in Reads(a)
  {
    hide Reads;
    var route: seq<nat>, p: nat :| Leads(a, b, x, route, p);
    assert Reads(a)[route[0]] == x;
  }

  function Count(xs: seq<Source>, ys: set<Source>): nat {
    if xs == [] then 0 else Count(xs[..|xs| - 1], ys) + if xs[|xs| - 1] in ys then 1 else 0
  }

  lemma {:induction false} CountWithout(xs: seq<Source>, ys: set<Source>, i: nat)
    requires i < |xs|
    ensures Count(xs, ys) == Count(xs[..i] + xs[i + 1..], ys) + if xs[i] in ys then 1 else 0
    decreases |xs|
  {
    var n := |xs| - 1;
    if i < n {
      CountWithout(xs[..n], ys, i);
      var less, front := xs[..i] + xs[i + 1..], xs[..n][..i] + xs[..n][i + 1..];
      assert xs[i + 1..] == xs[..n][i + 1..] + [xs[n]];
      assert less == front + [xs[n]];
      assert less[..n - 1] == front;
      assert xs[..n][i] == xs[i];
    } else {
      assert xs[..i] + xs[i + 1..] == xs[..n];
    }
  }

  lemma Without<T>(xs: seq<T>, i: nat)
    requires i < |xs|
    ensures multiset(xs[..i] + xs[i + 1..]) == multiset(xs) - multiset{xs[i]}
  {
    assert xs == xs[..i] + [xs[i]] + xs[i + 1..];
  }

  lemma {:induction false} SameCount(xs: seq<Source>, zs: seq<Source>, ys: set<Source>)
    requires multiset(xs) == multiset(zs)
    ensures Count(xs, ys) == Count(zs, ys)
    decreases |xs|
  {
    if xs == [] {
      assert |multiset(zs)| == 0;
    } else {
      hide Count;
      var n := |xs| - 1;
      assert xs[n] in multiset(zs);
      var i :| 0 <= i < |zs| && zs[i] == xs[n];
      Without(xs, n);
      Without(zs, i);
      CountWithout(xs, ys, n);
      CountWithout(zs, ys, i);
      SameCount(xs[..n] + xs[n + 1..], zs[..i] + zs[i + 1..], ys);
    }
  }

  /** Where one list hits a set the other does too; if both hit it equally often, neither hits it elsewhere. */
  lemma {:induction false} CountTight(xs: seq<Source>, zs: seq<Source>, ys: set<Source>, p: nat)
    requires |xs| == |zs| && forall i | 0 <= i < |xs| :: xs[i] in ys ==> zs[i] in ys
    ensures Count(xs, ys) <= Count(zs, ys)
    ensures Count(xs, ys) == Count(zs, ys) && p < |zs| && zs[p] in ys ==> xs[p] in ys
    decreases |xs|
  {
    if xs != [] {
      var n := |xs| - 1;
      CountTight(xs[..n], zs[..n], ys, p);
      if p < n { assert xs[..n][p] == xs[p] && zs[..n][p] == zs[p]; }
    }
  }

  /** All places where `a` reads `y` are low. */
  ghost predicate AllLow(a: Request, b: Request, x: Source, y: Source) {
    forall j | 0 <= j < |Reads(a)| && Reads(a)[j] == y :: Low(a, b, x, j)
  }

  /** Requests that list the same sources in any order are safe for each other. */
  lemma OrderDoesNotMatter(a: Request, b: Request, x: Source)
    requires multiset(Reads(a)) == multiset(Reads(b)) && x in Reads(b)
    ensures Carried(a, b, x)
  {
    hide Reads, Carried, Low, Count;
    var xs, zs := Reads(a), Reads(b);
    assert |xs| == |multiset(xs)| && |zs| == |multiset(zs)|;
    var ys := set y | y in zs && AllLow(a, b, x, y);
    forall j | 0 <= j < |xs| && xs[j] == x ensures Low(a, b, x, j) { LowStart(a, b, x, j); }
    forall i | 0 <= i < |xs| && xs[i] in ys ensures zs[i] in ys { FollowsLow(a, b, x, i); }
    var q :| 0 <= q < |zs| && zs[q] == x;
    SameCount(xs, zs, ys);
    CountTight(xs, zs, ys, q);
    LowCarries(a, b, x, q);
  }

  lemma FollowsLow(a: Request, b: Request, x: Source, i: nat)
    requires |Reads(a)| == |Reads(b)| && i < |Reads(a)| && AllLow(a, b, x, Reads(a)[i])
    ensures AllLow(a, b, x, Reads(b)[i])
  {
    hide Reads, Low;
    forall j | 0 <= j < |Reads(a)| && Reads(a)[j] == Reads(b)[i] ensures Low(a, b, x, j) {
      assert Edge(a, b, i, j);
      LowEdge(a, b, x, i, j);
    }
  }

  lemma LowCarries(a: Request, b: Request, x: Source, q: nat)
    requires Low(a, b, x, q) && q < |Reads(b)| && Reads(b)[q] == x
    ensures Carried(a, b, x)
  {
    hide Reads, Leads;
    var route: seq<nat> :| Leads(a, b, x, route, q);
    assert Leads(a, b, x, route, q);
  }

  predicate NoRepeats(ids: seq<string>) { forall i, j | 0 <= i < j < |ids| :: ids[i] != ids[j] }

  /** A list without repeats whose members are all in a list of its length is that list in some order. */
  lemma {:induction false} SameMembers(ids: seq<string>, within: seq<string>)
    requires NoRepeats(ids) && |ids| == |within| && forall id | id in ids :: id in within
    ensures multiset(ids) == multiset(within)
    decreases |ids|
  {
    if ids != [] {
      var n := |ids| - 1;
      assert ids[n] in within;
      var i :| 0 <= i < |within| && within[i] == ids[n];
      var rest := within[..i] + within[i + 1..];
      Without(within, i);
      assert within == within[..i] + [within[i]] + within[i + 1..];
      assert ids == ids[..n] + [ids[n]];
      forall id | id in ids[..n] ensures id in rest {
        assert id in ids && id != ids[n];
        assert id in within;
      }
      SameMembers(ids[..n], rest);
    }
  }

  function Products(ids: seq<string>): seq<Source> {
    seq(|ids|, i requires 0 <= i < |ids| => Source(ProductKind, ids[i]))
  }

  lemma ProductsWithout(ids: seq<string>, i: nat)
    requires i < |ids|
    ensures multiset(Products(ids)) == multiset(Products(ids[..i] + ids[i + 1..])) + multiset{Source(ProductKind, ids[i])}
  {
    var all := Products(ids);
    Without(all, i);
    assert all[..i] + all[i + 1..] == Products(ids[..i] + ids[i + 1..]);
    assert all[i] in multiset(all);
  }

  lemma {:induction false} SameProducts(ids: seq<string>, others: seq<string>)
    requires multiset(ids) == multiset(others)
    ensures multiset(Products(ids)) == multiset(Products(others))
    decreases |ids|
  {
    if ids == [] {
      assert |multiset(others)| == 0;
    } else {
      hide Products;
      var n := |ids| - 1;
      assert ids[n] in multiset(others);
      var i :| 0 <= i < |others| && others[i] == ids[n];
      Without(ids, n);
      Without(others, i);
      ProductsWithout(ids, n);
      ProductsWithout(others, i);
      assert ids[..n] + ids[n + 1..] == ids[..n];
      SameProducts(ids[..n], others[..i] + others[i + 1..]);
    }
  }

  lemma SameIdsSameReads(a: Request, b: Request)
    requires SameKey(a, b) && multiset(a.productIds) == multiset(b.productIds)
    ensures multiset(Reads(a)) == multiset(Reads(b))
  {
    SameKeyMeans(a, b);
    StoreParts(a);
    StoreParts(b);
    SameProducts(a.productIds, b.productIds);
    var front := Reads(a)[..|Reads(a)| - |a.productIds|];
    assert Reads(a) == front + Products(a.productIds);
    assert |multiset(a.productIds)| == |multiset(b.productIds)|;
    assert Reads(b) == front + Products(b.productIds);
  }

  lemma SameKeySameNumber(a: Request, b: Request)
    requires SameKey(a, b)
    ensures |a.productIds| == |b.productIds|
  {
    SameKeyMeans(a, b);
    StoreParts(a);
    StoreParts(b);
  }

  /** Requests of one call site, owner and input never miss a change for each other if and
      only if they name the same products, in whatever order (when `b` names none twice). */
  lemma ProductIdsAgree(a: Request, b: Request)
    requires SameKey(a, b) && NoRepeats(b.productIds)
    ensures (forall x | x in Reads(b) :: AlwaysFresh(a, b, x)) <==> multiset(a.productIds) == multiset(b.productIds)
  {
    hide SameKey, Reads, AlwaysFresh, Carried;
    forall x | x in Reads(b) ensures AlwaysFresh(a, b, x) <==> Carried(a, b, x) { FreshExactly(a, b, x); }
    if multiset(a.productIds) == multiset(b.productIds) {
      SameIdsSameReads(a, b);
      forall x | x in Reads(b) ensures Carried(a, b, x) { OrderDoesNotMatter(a, b, x); }
    } else if forall x | x in Reads(b) :: AlwaysFresh(a, b, x) {
      forall id | id in b.productIds ensures id in a.productIds {
        ProductIsRead(b, id);
        ProductIsRead(a, id);
        CarriedIsRead(a, b, Source(ProductKind, id));
      }
      SameKeySameNumber(a, b);
      SameMembers(b.productIds, a.productIds);
    }
  }
}