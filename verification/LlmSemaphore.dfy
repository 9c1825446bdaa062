/** The FIFO semaphore of llm-turn-guard.ts. Everything that happens to it is
    written to a log, and the log alone says what a correct semaphore is. */
module LlmSemaphore {
  import opened JsText

  datatype Event = Queued(id: nat) | Granted(id: nat) | Refused(id: nat) | TimedOut(id: nat) | Released(id: nat)

  // ----- what a log means -----

  function Remove(ids: seq<nat>, id: nat): seq<nat> {
    if ids == [] then [] else if ids[0] == id then ids[1..] else [ids[0]] + Remove(ids[1..], id)
  }

  function NextPending(ids: seq<nat>, e: Event): seq<nat> {
    match e
    case Queued(id) => ids + [id]
    case Granted(id) => Remove(ids, id)
    case TimedOut(id) => Remove(ids, id)
    case _ => ids
  }

  /** Who waits, in the order of arrival. */
  function Pending(log: seq<Event>): seq<nat> {
    if log == [] then [] else NextPending(Pending(log[..|log| - 1]), log[|log| - 1])
  }

  function NextHolding(ids: set<nat>, e: Event): set<nat> {
    match e
    case Granted(id) => ids + {id}
    case Released(id) => ids - {id}
    case _ => ids
  }

  /** Who holds a slot. */
  function Holding(log: seq<Event>): set<nat> {
    if log == [] then {} else NextHolding(Holding(log[..|log| - 1]), log[|log| - 1])
  }

  predicate Mentions(log: seq<Event>, id: nat) { exists i | 0 <= i < |log| :: log[i].id == id }

  /** What may happen after a log: a newcomer gets a slot only if no one waits, a
      waiter only when it is first in line, and only a holder releases. */
  predicate Allowed(log: seq<Event>, e: Event) {
    match e
    case Queued(id) => !Mentions(log, id)
    case Refused(id) => !Mentions(log, id)
    case Granted(id) => if Pending(log) == [] then !Mentions(log, id) else Pending(log)[0] == id
    case TimedOut(id) => id in Pending(log)
    case Released(id) => id in Holding(log)
  }

  predicate FairLog(log: seq<Event>) {
    log == [] || (FairLog(log[..|log| - 1]) && Allowed(log[..|log| - 1], log[|log| - 1]))
  }

  // ----- the semaphore -----

  datatype Sem = Sem(max: nat, maxWaiting: nat, active: nat, waiters: seq<nat>, log: seq<Event>) {
    predicate IsSaturated() { active >= max && |waiters| >= maxWaiting }

    function Record(e: Event): Sem { this.(log := log + [e]) }

    function Acquire(id: nat): Sem {
      if active < max then Record(Granted(id)).(active := active + 1)
      else if |waiters| >= maxWaiting then Record(Refused(id))
      else Record(Queued(id)).(waiters := waiters + [id])
    }

    /** The timer of a waiter fires before its turn came. */
    function TimeOut(id: nat): Sem { Record(TimedOut(id)).(waiters := Remove(waiters, id)) }

    /** The slot goes straight to the first waiter, if there is one. */
    function Release(id: nat): Sem {
      var s := Record(Released(id));
      if waiters != [] then s.Record(Granted(waiters[0])).(waiters := waiters[1..])
      else if active > 0 then s.(active := active - 1) else s
    }

    ghost predicate Ok() {
      && FairLog(log)
      && waiters == Pending(log) && active == |Holding(log)|
      && active <= max && |waiters| <= maxWaiting
      && (waiters != [] ==> active == max)
    }
  }

  // ----- facts about fair logs -----

  lemma Snoc(log: seq<Event>, e: Event)
    ensures (log + [e])[..|log|] == log && (log + [e])[|log|] == e
  {
  }

  predicate Distinct(ids: seq<nat>) { forall i, j | 0 <= i < j < |ids| :: ids[i] != ids[j] }

  lemma {:induction false} RemoveMeans(ids: seq<nat>, id: nat, x: nat)
    requires Distinct(ids)
    ensures x in Remove(ids, id) <==> x in ids && x != id
  {
    if ids != [] {
      var rest := ids[1..];
      forall i, j | 0 <= i < j < |rest| ensures rest[i] != rest[j] { assert ids[i + 1] != ids[j + 1]; }
      RemoveMeans(rest, id, x);
      assert x in ids <==> x == ids[0] || x in rest;
      assert ids[0] !in rest;
    }
  }

  lemma {:induction false} RemoveKeeps(ids: seq<nat>, id: nat)
    requires Distinct(ids)
    ensures Distinct(Remove(ids, id))
  {
    if ids != [] {
      var rest := ids[1..];
      forall i, j | 0 <= i < j < |rest| ensures rest[i] != rest[j] { assert ids[i + 1] != ids[j + 1]; }
      RemoveKeeps(rest, id);
      RemoveMeans(rest, id, ids[0]);
      assert ids[0] !in rest;
    }
  }

  lemma {:induction false} RemoveLength(ids: seq<nat>, id: nat)
    requires id in ids
    ensures |Remove(ids, id)| == |ids| - 1
  {
    if ids[0] != id { RemoveLength(ids[1..], id); }
  }

  lemma Mentioned(log: seq<Event>, e: Event, id: nat)
    ensures Mentions(log + [e], id) <==> Mentions(log, id) || e.id == id
  {
    var longer := log + [e];
    if Mentions(log, id) {
      var i :| 0 <= i < |log| && log[i].id == id;
      assert longer[i].id == id;
    } else if e.id == id {
      assert longer[|log|].id == id;
    }
  }

  /** What the next event does to the three readings of a log. */
  lemma Next(log: seq<Event>, e: Event)
    ensures Pending(log + [e]) == NextPending(Pending(log), e)
    ensures Holding(log + [e]) == NextHolding(Holding(log), e)
    ensures FairLog(log + [e]) <==> FairLog(log) && Allowed(log, e)
  {
    Snoc(log, e);
  }

  /** Waiters are different callers. */
  lemma {:induction false} PendingDistinct(log: seq<Event>)
    requires FairLog(log)
    ensures Distinct(Pending(log))
    decreases |log|, 0
  {
    if log != [] {
      var before, e := log[..|log| - 1], log[|log| - 1];
      PendingDistinct(before);
      if e.Granted? || e.TimedOut? {
        RemoveKeeps(Pending(before), e.id);
      } else if e.Queued? {
        Known(before, e.id);
      }
    }
  }

  /** A waiter is known to the log and holds no slot; so is a holder. */
  lemma {:induction false} Known(log: seq<Event>, id: nat)
    requires FairLog(log)
    ensures id in Pending(log) ==> Mentions(log, id) && id !in Holding(log)
    ensures id in Holding(log) ==> Mentions(log, id)
    decreases |log|, 3
  {
    if log != [] {
      var before, e := log[..|log| - 1], log[|log| - 1];
      assert log == before + [e];
      Known(before, id);
      Mentioned(before, e, id);
      KnownNext(before, e, id);
    }
  }

  lemma KnownNext(log: seq<Event>, e: Event, id: nat)
    requires FairLog(log) && Allowed(log, e)
    requires id in Pending(log) ==> Mentions(log, id) && id !in Holding(log)
    requires id in Holding(log) ==> Mentions(log, id)
    ensures id in Pending(log + [e]) ==> (Mentions(log, id) || e.id == id) && id !in Holding(log + [e])
    ensures id in Holding(log + [e]) ==> Mentions(log, id) || e.id == id
    decreases |log|, 2
  {
    hide Mentions;
    Next(log, e);
    if e.Granted? || e.TimedOut? {
      RemoveOnly(log, e.id, id);
    }
  }

  lemma RemoveOnly(log: seq<Event>, gone: nat, id: nat)
    requires FairLog(log)
    ensures id in Remove(Pending(log), gone) <==> id in Pending(log) && id != gone
    decreases |log|, 1
  {
    PendingDistinct(log);
    RemoveMeans(Pending(log), gone, id);
  }

  /** Every prefix of a fair log is fair and allows what follows it. */
  lemma {:induction false} Prefix(log: seq<Event>, n: nat)
    requires FairLog(log) && n <= |log|
    ensures FairLog(log[..n])
    ensures n < |log| ==> Allowed(log[..n], log[n]) && log[..n + 1] == log[..n] + [log[n]]
  {
    if n < |log| {
      var before := log[..|log| - 1];
      Prefix(before, n);
      assert before[..n] == log[..n];
      if n < |log| - 1 { assert before[..n + 1] == log[..n + 1]; }
    } else {
      assert log[..n] == log;
    }
  }

  // ----- what a fair log promises -----

  /** A caller that has been answered: known, and no longer waiting. */
  predicate Over(log: seq<Event>, id: nat) { Mentions(log, id) && id !in Pending(log) }

  predicate Settles(e: Event, id: nat) { e.id == id && (e.Granted? || e.Refused? || e.TimedOut?) }

  lemma StaysOver(log: seq<Event>, e: Event, id: nat)
    requires FairLog(log) && Allowed(log, e)
    ensures Over(log, id) ==> Over(log + [e], id) && !Settles(e, id)
    ensures Settles(e, id) ==> Over(log + [e], id)
  {
    hide Mentions;
    Next(log, e);
    Mentioned(log, e, id);
    Known(log, id);
    RemoveOnly(log, e.id, id);
  }

  /** Once over, always over, and never settled again. */
  lemma {:induction false} OverForGood(log: seq<Event>, id: nat, i: nat, j: nat)
    requires FairLog(log) && i < j <= |log| && Settles(log[i], id)
    ensures Over(log[..j], id)
    ensures j < |log| ==> !Settles(log[j], id)
    decreases j
  {
    Prefix(log, j - 1);
    if i < j - 1 { OverForGood(log, id, i, j - 1); }
    StaysOver(log[..j - 1], log[j - 1], id);
    if j < |log| {
      Prefix(log, j);
      StaysOver(log[..j], log[j], id);
    }
  }

  /** Each caller is granted, refused or timed out once at most. */
  lemma SettledOnce(log: seq<Event>, id: nat, i: nat, j: nat)
    requires FairLog(log) && i < |log| && j < |log|
    requires Settles(log[i], id) && Settles(log[j], id)
    ensures i == j
  {
    if i < j { OverForGood(log, id, i, j); }
    else if j < i { OverForGood(log, id, j, i); }
  }

  /** Who holds a slot has been granted one. */
  lemma {:induction false} HolderSettled(log: seq<Event>, id: nat) returns (i: nat)
    requires FairLog(log) && id in Holding(log)
    ensures i < |log| && log[i] == Granted(id)
  {
    var before, e := log[..|log| - 1], log[|log| - 1];
    if e == Granted(id) { i := |log| - 1; } else { i := HolderSettled(before, id); }
  }

  lemma {:induction false} StaysReleased(log: seq<Event>, id: nat, i: nat, j: nat)
    requires FairLog(log) && i < j <= |log| && log[i] == Released(id)
    ensures id !in Holding(log[..j])
    decreases j
  {
    Prefix(log, j - 1);
    Next(log[..j - 1], log[j - 1]);
    if i < j - 1 {
      StaysReleased(log, id, i, j - 1);
      Prefix(log, i);
      var g := HolderSettled(log[..i], id);
      OverForGood(log, id, g, j - 1);
    }
  }

  /** A slot is given back once at most for each grant. */
  lemma ReleasedOnce(log: seq<Event>, id: nat, i: nat, j: nat)
    requires FairLog(log) && i < |log| && j < |log|
    requires log[i] == Released(id) && log[j] == Released(id)
    ensures i == j
  {
    Prefix(log, i);
    Prefix(log, j);
    if i < j { StaysReleased(log, id, i, j); }
    else if j < i { StaysReleased(log, id, j, i); }
  }

  /** `a` waits and `b` does not wait in front of it. */
  predicate Ahead(ids: seq<nat>, a: nat, b: nat) {
    ids != [] && (ids[0] == a || (ids[0] != b && Ahead(ids[1..], a, b)))
  }

  lemma {:induction false} AheadAppend(ids: seq<nat>, a: nat, b: nat, x: nat)
    ensures Ahead(ids, a, b) ==> Ahead(ids + [x], a, b)
    ensures b !in ids ==> Ahead(ids + [a], a, b)
  {
    if ids != [] {
      AheadAppend(ids[1..], a, b, x);
      assert (ids + [x])[1..] == ids[1..] + [x];
      assert (ids + [a])[1..] == ids[1..] + [a];
    }
  }

  lemma {:induction false} AheadRemove(ids: seq<nat>, a: nat, b: nat, x: nat)
    requires Ahead(ids, a, b) && x != a
    ensures Ahead(Remove(ids, x), a, b)
  {
    if ids[0] != x && ids[0] != a {
      AheadRemove(ids[1..], a, b, x);
      assert Remove(ids, x)[1..] == Remove(ids[1..], x);
    }
  }

  lemma AheadNext(log: seq<Event>, e: Event, a: nat, b: nat)
    requires Ahead(Pending(log), a, b) && !Settles(e, a)
    ensures Ahead(Pending(log + [e]), a, b)
  {
    Next(log, e);
    match e
    case Queued(id) => AheadAppend(Pending(log), a, b, id);
    case Granted(id) => AheadRemove(Pending(log), a, b, id);
    case TimedOut(id) => AheadRemove(Pending(log), a, b, id);
    case _ =>
  }

  /** Until `a` is answered, no one who queued later stands in front of it. */
  lemma {:induction false} KeepsItsPlace(log: seq<Event>, a: nat, b: nat, i: nat, n: nat)
    requires FairLog(log) && i < n <= |log| && log[i] == Queued(a)
    requires !Mentions(log[..i + 1], b)
    requires forall m | i < m < n :: !Settles(log[m], a)
    ensures Ahead(Pending(log[..n]), a, b)
    decreases n
  {
    Prefix(log, n - 1);
    if i == n - 1 {
      Prefix(log, i);
      Next(log[..i], log[i]);
      Mentioned(log[..i], log[i], b);
      Known(log[..i], b);
      AheadAppend(Pending(log[..i]), a, b, a);
    } else {
      KeepsItsPlace(log, a, b, i, n - 1);
      AheadNext(log[..n - 1], log[n - 1], a, b);
    }
  }

  lemma {:induction false} KnownLater(log: seq<Event>, id: nat, i: nat, j: nat)
    requires i <= j <= |log| && Mentions(log[..i], id)
    ensures Mentions(log[..j], id)
  {
    var m :| 0 <= m < i && log[..i][m].id == id;
    assert log[..j][m].id == id;
  }

  /** First come, first served: if `a` queued before `b` and `b` has been granted
      a slot, then `a` was answered between the two. */
  lemma FirstComeFirstServed(log: seq<Event>, a: nat, b: nat, i: nat, j: nat, k: nat)
    requires FairLog(log) && i < j < k < |log|
    requires log[i] == Queued(a) && log[j] == Queued(b) && log[k] == Granted(b)
    ensures exists m | i < m < k :: Settles(log[m], a)
  {
    Prefix(log, j);
    if Mentions(log[..i + 1], b) { KnownLater(log, b, i + 1, j); }
    if forall m | i < m < k :: !Settles(log[m], a) {
      KeepsItsPlace(log, a, b, i, k);
      NotGrantable(log, a, b, i, j, k);
    }
  }

  lemma NotGrantable(log: seq<Event>, a: nat, b: nat, i: nat, j: nat, k: nat)
    requires FairLog(log) && i < j < k < |log| && log[i] == Queued(a) && log[j] == Queued(b)
    requires Ahead(Pending(log[..k]), a, b)
    ensures log[k] != Granted(b)
  {
    Prefix(log, k);
    Prefix(log, j);
    assert log[..j + 1][i].id == a;
    assert log[..j][i].id == a;
  }

  // ----- every run of the semaphore writes a fair log -----

  datatype Op = Acquire(id: nat) | TimeOut(id: nat) | Release(id: nat)

  /** Every call is a new caller, a timer fires only for a waiter (a grant clears
      it), and each release closure is called once by the caller that got it. */
  predicate Legal(s: Sem, op: Op) {
    match op
    case Acquire(id) => !Mentions(s.log, id)
    case TimeOut(id) => id in Pending(s.log)
    case Release(id) => id in Holding(s.log)
  }

  function Do(s: Sem, op: Op): Sem {
    match op
    case Acquire(id) => s.Acquire(id)
    case TimeOut(id) => s.TimeOut(id)
    case Release(id) => s.Release(id)
  }

  predicate LegalRun(s: Sem, ops: seq<Op>)
    decreases |ops|
  {
    ops == [] || (Legal(s, ops[0]) && LegalRun(Do(s, ops[0]), ops[1..]))
  }

  function DoAll(s: Sem, ops: seq<Op>): Sem
    decreases |ops|
  {
    if ops == [] then s else DoAll(Do(s, ops[0]), ops[1..])
  }

  lemma AcquireKeepsOk(s: Sem, id: nat)
    requires s.Ok() && !Mentions(s.log, id)
    ensures s.Acquire(id).Ok()
    ensures s.IsSaturated() <==> s.Acquire(id).log == s.log + [Refused(id)]
  {
    hide Mentions;
    Next(s.log, Granted(id));
    Next(s.log, Refused(id));
    Next(s.log, Queued(id));
    Known(s.log, id);
  }

  lemma TimeOutKeepsOk(s: Sem, id: nat)
    requires s.Ok() && id in Pending(s.log)
    ensures s.TimeOut(id).Ok()
  {
    Next(s.log, TimedOut(id));
    RemoveLength(s.waiters, id);
  }

  lemma ReleaseKeepsOk(s: Sem, id: nat)
    requires s.Ok() && id in Holding(s.log)
    ensures s.Release(id).Ok()
  {
    Next(s.log, Released(id));
    if s.waiters != [] {
      var first := s.waiters[0];
      Known(s.log, first);
      Next(s.log + [Released(id)], Granted(first));
    }
  }

  lemma {:induction false} RunKeepsOk(s: Sem, ops: seq<Op>)
    requires s.Ok() && LegalRun(s, ops)
    ensures DoAll(s, ops).Ok()
    decreases |ops|
  {
    if ops != [] {
      match ops[0] {
        case Acquire(id) => AcquireKeepsOk(s, id);
        case TimeOut(id) => TimeOutKeepsOk(s, id);
        case Release(id) => ReleaseKeepsOk(s, id);
      }
      RunKeepsOk(Do(s, ops[0]), ops[1..]);
    }
  }

  /** In every run: active is the number of outstanding grants and at most `max`,
      the queue is bounded, no one waits while a slot is free, and the log is fair. */
  lemma EveryRun(max: nat, maxWaiting: nat, ops: seq<Op>)
    requires LegalRun(Sem(max, maxWaiting, 0, [], []), ops)
    ensures DoAll(Sem(max, maxWaiting, 0, [], []), ops).Ok()
  {
    RunKeepsOk(Sem(max, maxWaiting, 0, [], []), ops);
  }

  /** Told by the log alone: a newcomer gets a slot while one is free, else a place in the queue while it
      has one, else a refusal; and only then the semaphore is saturated. */
  lemma AcquireAnswers(max: nat, maxWaiting: nat, ops: seq<Op>, id: nat)
    requires LegalRun(Sem(max, maxWaiting, 0, [], []), ops) && !Mentions(DoAll(Sem(max, maxWaiting, 0, [], []), ops).log, id)
    ensures var s := DoAll(Sem(max, maxWaiting, 0, [], []), ops);
      var e := if |Holding(s.log)| < max then Granted(id) else if |Pending(s.log)| < maxWaiting then Queued(id) else Refused(id);
      s.Acquire(id).log == s.log + [e] && (s.IsSaturated() <==> e.Refused?)
  {
    hide Mentions, FairLog, Holding, Pending;
    EveryRun(max, maxWaiting, ops);
    RunKeepsBounds(Sem(max, maxWaiting, 0, [], []), ops);
  }

  lemma {:induction false} RunKeepsBounds(s: Sem, ops: seq<Op>)
    requires LegalRun(s, ops)
    ensures DoAll(s, ops).max == s.max && DoAll(s, ops).maxWaiting == s.maxWaiting
    decreases |ops|
  {
    if ops != [] { RunKeepsBounds(Do(s, ops[0]), ops[1..]); }
  }

  // ----- the class -----

  datatype Outcome = Slot | Saturated | Queue

  class Semaphore {
    var active: nat
    var waiters: seq<nat>
    const max: nat
    const maxWaiting: nat
    ghost var log: seq<Event>

    ghost function View(): Sem
      reads this
    {
      Sem(max, maxWaiting, active, waiters, log)
    }

    constructor (max: nat, maxWaiting: nat)
      ensures View() == Sem(max, maxWaiting, 0, [], []) && View().Ok()
    {
      this.max, this.maxWaiting := max, maxWaiting;
      active, waiters, log := 0, [], [];
    }

    predicate IsSaturated()
      reads this
    {
      active >= max && |waiters| >= maxWaiting
    }

    method Acquire(id: nat) returns (outcome: Outcome)
      requires View().Ok() && !Mentions(log, id)
      modifies this
      ensures View() == old(View()).Acquire(id) && View().Ok()
      ensures outcome == Slot <==> id in Holding(log)
      ensures outcome == Queue <==> id in Pending(log)
      ensures outcome == Saturated <==> old(IsSaturated())
    {
      AcquireKeepsOk(View(), id);
      AcquireTells(View(), id);
      if active < max {
        active := active + 1;
        log := log + [Granted(id)];
        return Slot;
      }
      if |waiters| >= maxWaiting {
        log := log + [Refused(id)];
        return Saturated;
      }
      waiters := waiters + [id];
      log := log + [Queued(id)];
      return Queue;
    }

    /** The timer of a waiter: look it up, cut it out, reject it. */
    method TimeOut(id: nat)
      requires View().Ok() && id in Pending(log)
      modifies this
      ensures View() == old(View()).TimeOut(id) && View().Ok()
    {
      TimeOutKeepsOk(View(), id);
      var i := 0;
      while i < |waiters| && waiters[i] != id
        invariant i <= |waiters|
        invariant id !in waiters[..i]
        invariant waiters == old(waiters) && log == old(log) && active == old(active)
      {
        i := i + 1;
      }
      RemoveAt(waiters, id, i);
      if i < |waiters| { waiters := waiters[..i] + waiters[i + 1..]; }
      log := log + [TimedOut(id)];
    }

    method Release(id: nat) returns (next: Option<nat>)
      requires View().Ok() && id in Holding(log)
      modifies this
      ensures View() == old(View()).Release(id) && View().Ok()
      ensures next == if old(waiters) == [] then None else Some(old(waiters)[0])
    {
      ReleaseKeepsOk(View(), id);
      log := log + [Released(id)];
      if waiters != [] {
        next := Some(waiters[0]);
        log := log + [Granted(waiters[0])];
        waiters := waiters[1..];
      } else {
        next := None;
        active := active - 1;
      }
    }
  }

  lemma AcquireTells(s: Sem, id: nat)
    requires s.Ok() && !Mentions(s.log, id)
    ensures id in Holding(s.Acquire(id).log) <==> s.active < s.max
    ensures id in Pending(s.Acquire(id).log) <==> s.active >= s.max && |s.waiters| < s.maxWaiting
  {
    hide Mentions;
    Next(s.log, Granted(id));
    Next(s.log, Refused(id));
    Next(s.log, Queued(id));
    Known(s.log, id);
  }

  lemma {:induction false} RemoveAt(ids: seq<nat>, id: nat, i: nat)
    requires i <= |ids| && id !in ids[..i] && (i < |ids| ==> ids[i] == id)
    ensures Remove(ids, id) == if i < |ids| then ids[..i] + ids[i + 1..] else ids
  {
    if i > 0 {
      hide Remove;
      RemoveLater(ids, id, i);
      RemoveAt(ids[1..], id, i - 1);
      if i < |ids| { CutLater(ids, i); } else { assert ids == [ids[0]] + ids[1..]; }
    }
  }

  lemma RemoveLater(ids: seq<nat>, id: nat, i: nat)
    requires 0 < i <= |ids| && id !in ids[..i]
    ensures Remove(ids, id) == [ids[0]] + Remove(ids[1..], id) && id !in ids[1..][..i - 1]
  {
    assert ids[0] == ids[..i][0];
    assert ids[1..][..i - 1] == ids[..i][1..];
  }

  lemma CutLater(ids: seq<nat>, i: nat)
    requires 0 < i < |ids|
    ensures [ids[0]] + (ids[1..][..i - 1] + ids[1..][i..]) == ids[..i] + ids[i + 1..]
  {
  }
}
