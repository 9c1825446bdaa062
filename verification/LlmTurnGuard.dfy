/** The guard around model calls of llm-turn-guard.ts: turns with a deadline,
    guarded calls that take a semaphore slot, and waits for running turns to
    end. Steps of turns, calls and timers interleave in any order. */
module LlmTurnGuard {
  import opened JsText
  import opened LlmSemaphore

  const LLM_CALL_TIMEOUT_MS := 20000
  const LLM_GLOBAL_CONCURRENCY := 100
  const LLM_QUEUE_MAX_WAITING := 200

  // ----- turns -----

  /** One call of `runLlmTurn`. A nested turn has an `outer` one whose stored
      deadline it sees; its own `deadlineMs` is not used. */
  datatype Turn = Turn(outer: Option<nat>, startedAt: int, deadlineMs: int, storedDeadline: int, running: bool)

  /** The turn that a nested turn runs in, all the way out. */
  function Outermost(ts: seq<Turn>, i: nat): (r: nat)
    requires i < |ts|
    ensures r < |ts|
  {
    match ts[i].outer
    case Some(p) => if p < i then Outermost(ts, p) else i
    case None => i
  }

  /** How many outermost turns are running. */
  function Running(ts: seq<Turn>): nat {
    if ts == [] then 0 else
    var last := ts[|ts| - 1];
    Running(ts[..|ts| - 1]) + if last.outer.None? && last.running then 1 else 0
  }

  /** When turn `i` has to be over: the outermost turn decides. */
  function Deadline(ts: seq<Turn>, i: nat): int
    requires i < |ts|
  {
    ts[Outermost(ts, i)].startedAt + ts[Outermost(ts, i)].deadlineMs
  }

  predicate TurnOk(ts: seq<Turn>, i: nat)
    requires i < |ts|
  {
    (ts[i].outer.Some? ==> ts[i].outer.value < i) && ts[i].storedDeadline == Deadline(ts, i)
  }

  ghost predicate TurnsOk(ts: seq<Turn>) { forall i | 0 <= i < |ts| :: TurnOk(ts, i) }

  function Started(ts: seq<Turn>, outer: Option<nat>, now: int, deadlineMs: int): seq<Turn>
    requires outer.Some? ==> outer.value < |ts|
  {
    var stored := if outer.Some? then ts[outer.value].storedDeadline else now + deadlineMs;
    ts + [Turn(outer, now, deadlineMs, stored, true)]
  }

  function Ended(ts: seq<Turn>, i: nat): seq<Turn>
    requires i < |ts|
  {
    ts[i := ts[i].(running := false)]
  }

  lemma {:induction false} OutermostStays(ts: seq<Turn>, us: seq<Turn>, i: nat)
    requires i < |ts| <= |us| && forall k | 0 <= k < |ts| :: us[k].outer == ts[k].outer
    ensures Outermost(us, i) == Outermost(ts, i)
  {
    match ts[i].outer
    case Some(p) => if p < i { OutermostStays(ts, us, p); }
    case None =>
  }

  lemma StartedOk(ts: seq<Turn>, outer: Option<nat>, now: int, deadlineMs: int)
    requires TurnsOk(ts) && (outer.Some? ==> outer.value < |ts|)
    ensures TurnsOk(Started(ts, outer, now, deadlineMs))
  {
    var us := Started(ts, outer, now, deadlineMs);
    forall i | 0 <= i < |us| ensures TurnOk(us, i) {
      if i < |ts| {
        OutermostStays(ts, us, i);
        assert TurnOk(ts, i);
      } else if outer.Some? {
        OutermostStays(ts, us, outer.value);
        assert TurnOk(ts, outer.value);
      }
    }
  }

  lemma StartedCount(ts: seq<Turn>, outer: Option<nat>, now: int, deadlineMs: int)
    requires outer.Some? ==> outer.value < |ts|
    ensures Running(Started(ts, outer, now, deadlineMs)) == Running(ts) + if outer.None? then 1 else 0
  {
    var us := Started(ts, outer, now, deadlineMs);
    assert us[..|us| - 1] == ts;
  }

  lemma EndedOk(ts: seq<Turn>, i: nat)
    requires TurnsOk(ts) && i < |ts|
    ensures TurnsOk(Ended(ts, i))
  {
    var us := Ended(ts, i);
    forall k | 0 <= k < |us| ensures TurnOk(us, k) {
      OutermostStays(ts, us, k);
      assert TurnOk(ts, k);
    }
  }

  lemma {:induction false} EndedCount(ts: seq<Turn>, i: nat)
    requires i < |ts| && ts[i].running
    ensures Running(Ended(ts, i)) == Running(ts) - if ts[i].outer.None? then 1 else 0
  {
    var before := ts[..|ts| - 1];
    if i < |ts| - 1 {
      EndedCount(before, i);
      assert Ended(ts, i)[..|ts| - 1] == Ended(before, i);
    } else {
      assert Ended(ts, i)[..|ts| - 1] == before;
    }
  }

  // ----- waiting for turns to end -----

  /** The answer of one `waitForLlmTurnsToDrain`. */
  datatype Answer = Answer(wait: nat, drained: bool)

  datatype Gate = Gate(activeTurns: nat, waits: seq<nat>, answers: seq<Answer>) {
    function Enter(): Gate { this.(activeTurns := activeTurns + 1) }

    function Leave(): Gate
      requires activeTurns > 0
    {
      if activeTurns == 1 then Gate(0, [], answers + AllDrained(waits)) else this.(activeTurns := activeTurns - 1)
    }

    function Wait(d: nat): Gate {
      if activeTurns == 0 then this.(answers := answers + [Answer(d, true)]) else this.(waits := waits + [d])
    }

    function GiveUp(d: nat): Gate {
      this.(waits := Remove(waits, d), answers := answers + [Answer(d, false)])
    }

    predicate Knows(d: nat) { d in waits || exists i | 0 <= i < |answers| :: answers[i].wait == d }

    /** No wait is answered twice or while it still waits, and no one waits for nothing. */
    ghost predicate Ok() {
      && Distinct(waits)
      && (forall i, j | 0 <= i < j < |answers| :: answers[i].wait != answers[j].wait)
      && (forall i | 0 <= i < |answers| :: answers[i].wait !in waits)
      && (waits != [] ==> activeTurns > 0)
    }
  }

  function AllDrained(waits: seq<nat>): seq<Answer> {
    seq(|waits|, i requires 0 <= i < |waits| => Answer(waits[i], true))
  }

  lemma LeaveOk(g: Gate)
    requires g.Ok() && g.activeTurns > 0
    ensures g.Leave().Ok()
  {
  }

  lemma WaitOk(g: Gate, d: nat)
    requires g.Ok() && !g.Knows(d)
    ensures g.Wait(d).Ok()
  {
  }

  lemma GiveUpOk(g: Gate, d: nat)
    requires g.Ok() && d in g.waits
    ensures g.GiveUp(d).Ok()
  {
    RemoveKeeps(g.waits, d);
    forall x ensures x in Remove(g.waits, d) <==> x in g.waits && x != d { RemoveMeans(g.waits, d, x); }
  }

  /** The module state `activeTurns` and `drainWaiters`. */
  class DrainGate {
    var activeTurns: nat
    var waits: seq<nat>
    ghost var answers: seq<Answer>

    ghost function View(): Gate
      reads this
    {
      Gate(activeTurns, waits, answers)
    }

    constructor ()
      ensures View() == Gate(0, [], [])
    {
      activeTurns, waits, answers := 0, [], [];
    }

    method Enter()
      modifies this
      ensures View() == old(View()).Enter()
    {
      activeTurns := activeTurns + 1;
    }

    /** The last turn to end answers everyone who waits, in order. */
    method Leave() returns (told: seq<nat>)
      requires activeTurns > 0
      modifies this
      ensures View() == old(View()).Leave()
      ensures told == if activeTurns == 0 then old(waits) else []
    {
      activeTurns := activeTurns - 1;
      told := [];
      if activeTurns == 0 {
        var all := waits;
        waits := [];
        for i := 0 to |all|
          invariant told == all[..i] && waits == [] && activeTurns == 0
          invariant answers == old(answers) + AllDrained(all)[..i]
        {
          answers := answers + [Answer(all[i], true)];
          told := told + [all[i]];
        }
        assert all[..|all|] == all && AllDrained(all)[..|all|] == AllDrained(all);
      }
    }

    method Wait(d: nat) returns (now: bool)
      requires !View().Knows(d)
      modifies this
      ensures View() == old(View()).Wait(d)
      ensures now <==> old(activeTurns) == 0
    {
      if activeTurns == 0 {
        answers := answers + [Answer(d, true)];
        return true;
      }
      waits := waits + [d];
      return false;
    }

    method GiveUp(d: nat)
      requires d in waits
      modifies this
      ensures View() == old(View()).GiveUp(d)
    {
      var i := 0;
      while waits[i] != d
        invariant i < |waits| && d !in waits[..i]
        invariant waits == old(waits) && View() == old(View())
        decreases |waits| - i
      {
        i := i + 1;
      }
      RemoveAt(waits, d, i);
      waits := waits[..i] + waits[i + 1..];
      answers := answers + [Answer(d, false)];
    }
  }

  // ----- guarded calls -----

  datatype Ending = Answered | DeadlineError | SaturatedError

  /** Where one call of the guarded `fetch` stands. A call outside of any turn
      is `Unguarded` and takes no slot. */
  datatype Phase =
    | NotStarted
    | Unguarded
    | Waiting(turn: nat)
    | Ready(turn: nat)
    | Calling(turn: nat, since: int, abortAt: int)
    | Done(ending: Ending)
  {
    predicate Holds() { Ready? || Calling? }
  }

  datatype State = State(now: int, turns: seq<Turn>, gate: Gate, sem: Sem, calls: map<nat, Phase>) {
    function PhaseOf(c: nat): Phase { if c in calls then calls[c] else NotStarted }

    function Move(c: nat, p: Phase): State { this.(calls := calls[c := p]) }

    /** Gives the slot of `c` back; the first waiter, if any, goes on with it. */
    function Release(c: nat, p: Phase): State {
      var s := Move(c, p).(sem := sem.Release(c));
      if sem.waiters == [] then s else
      var next := sem.waiters[0];
      match PhaseOf(next)
      case Waiting(t) => s.Move(next, Ready(t))
      case _ => s
    }
  }

  const INIT :=
    State(0, [], Gate(0, [], []), Sem(LLM_GLOBAL_CONCURRENCY, LLM_QUEUE_MAX_WAITING, 0, [], []), map[])

  datatype Step =
    | Tick(ms: nat)
    | StartTurn(outer: Option<nat>, deadlineMs: int)
    | EndTurn(i: nat)
    | AskDrain(d: nat)
    | DrainTimer(d: nat)
    | StartCall(c: nat, turn: Option<nat>)
    | CallTimer(c: nat)
    | Resume(c: nat)
    | EndCall(c: nat)

  predicate Enabled(s: State, step: Step) {
    match step
    case Tick(_) => true
    case StartTurn(outer, _) => outer.Some? ==> outer.value < |s.turns|
    case EndTurn(i) => i < |s.turns| && s.turns[i].running
    case AskDrain(d) => !s.gate.Knows(d)
    case DrainTimer(d) => d in s.gate.waits
    case StartCall(c, turn) => s.PhaseOf(c).NotStarted? && (turn.Some? ==> turn.value < |s.turns|)
    case CallTimer(c) =>
      var p := s.PhaseOf(c);
      p.Waiting? && p.turn < |s.turns| && s.turns[p.turn].storedDeadline <= s.now
    case Resume(c) => s.PhaseOf(c).Ready? && s.PhaseOf(c).turn < |s.turns|
    case EndCall(c) => s.PhaseOf(c).Calling? || s.PhaseOf(c).Unguarded?
  }

  function Apply(s: State, step: Step): State
    requires Enabled(s, step)
  {
    match step
    case Tick(ms) => s.(now := s.now + ms)
    case StartTurn(outer, deadlineMs) =>
      s.(turns := Started(s.turns, outer, s.now, deadlineMs),
         gate := if outer.Some? then s.gate else s.gate.Enter())
    case EndTurn(i) =>
      s.(turns := Ended(s.turns, i),
         gate := if s.turns[i].outer.Some? || s.gate.activeTurns == 0 then s.gate else s.gate.Leave())
    case AskDrain(d) => s.(gate := s.gate.Wait(d))
    case DrainTimer(d) => s.(gate := s.gate.GiveUp(d))
    case StartCall(c, turn) => if turn.Some? then StartGuarded(s, c, turn.value) else s.Move(c, Unguarded)
    case CallTimer(c) => s.Move(c, Done(DeadlineError)).(sem := s.sem.TimeOut(c))
    case Resume(c) => ApplyResume(s, c)
    case EndCall(c) => if s.PhaseOf(c).Calling? then s.Release(c, Done(Answered)) else s.Move(c, Done(Answered))
  }

  function StartGuarded(s: State, c: nat, t: nat): State
    requires t < |s.turns|
  {
    if s.turns[t].storedDeadline <= s.now then s.Move(c, Done(DeadlineError))
    else
      var s' := s.(sem := s.sem.Acquire(c));
      s'.Move(c,
        if s.sem.active < s.sem.max then Ready(t)
        else if s.sem.IsSaturated() then Done(SaturatedError)
        else Waiting(t))
  }

  /** The caller has its slot: it looks at the clock again before it calls. */
  function ApplyResume(s: State, c: nat): State
    requires s.PhaseOf(c).Ready? && s.PhaseOf(c).turn < |s.turns|
  {
    var t := s.PhaseOf(c).turn;
    var left := s.turns[t].storedDeadline - s.now;
    if left <= 0 then s.Release(c, Done(DeadlineError))
    else s.Move(c, Calling(t, s.now, s.now + Min(LLM_CALL_TIMEOUT_MS, left)))
  }

  predicate Possible(s: State, steps: seq<Step>)
    decreases |steps|
  {
    steps == [] || (Enabled(s, steps[0]) && Possible(Apply(s, steps[0]), steps[1..]))
  }

  function Run(s: State, steps: seq<Step>): State
    requires Possible(s, steps)
    decreases |steps|
  {
    if steps == [] then s else Run(Apply(s, steps[0]), steps[1..])
  }

  // ----- what every run keeps -----

  /** The semaphore and the call agree on where the call stands. */
  predicate SlotOk(s: State, c: nat) {
    && (c in Holding(s.sem.log) <==> s.PhaseOf(c).Holds())
    && (c in Pending(s.sem.log) <==> s.PhaseOf(c).Waiting?)
    && (Mentions(s.sem.log, c) ==> !s.PhaseOf(c).NotStarted?)
  }

  /** A call in flight is aborted when its outermost turn is out of time, or after twenty seconds. */
  predicate TimeOk(s: State, c: nat) {
    match s.PhaseOf(c)
    case Waiting(t) => t < |s.turns|
    case Ready(t) => t < |s.turns|
    case Calling(t, since, abortAt) =>
      t < |s.turns| && since < abortAt == Min(Deadline(s.turns, t), since + 20_000)
    case _ => true
  }

  ghost predicate SlotsOk(s: State) { s.sem.Ok() && forall c :: SlotOk(s, c) }

  ghost predicate TimesOk(s: State) { TurnsOk(s.turns) && forall c :: TimeOk(s, c) }

  ghost predicate GateOk(s: State) { s.gate.Ok() && s.gate.activeTurns == Running(s.turns) }

  lemma TurnsKept(s: State, step: Step)
    requires Enabled(s, step) && TurnsOk(s.turns) && GateOk(s)
    ensures TurnsOk(Apply(s, step).turns) && GateOk(Apply(s, step))
  {
    match step
    case StartTurn(outer, deadlineMs) =>
      StartedOk(s.turns, outer, s.now, deadlineMs);
      StartedCount(s.turns, outer, s.now, deadlineMs);
    case EndTurn(i) =>
      EndedOk(s.turns, i);
      EndedCount(s.turns, i);
      if s.gate.activeTurns > 0 { LeaveOk(s.gate); }
    case AskDrain(d) => WaitOk(s.gate, d);
    case DrainTimer(d) => GiveUpOk(s.gate, d);
    case _ => CallsLeaveTurns(s, step);
  }

  predicate OfCall(step: Step) { step.StartCall? || step.CallTimer? || step.Resume? || step.EndCall? }

  lemma CallsLeaveTurns(s: State, step: Step)
    requires Enabled(s, step) && (OfCall(step) || step.Tick?)
    ensures Apply(s, step).turns == s.turns && Apply(s, step).gate == s.gate
  {
  }

  lemma TurnsLeaveCalls(s: State, step: Step)
    requires Enabled(s, step) && !OfCall(step)
    ensures Apply(s, step).calls == s.calls && Apply(s, step).sem == s.sem
  {
  }

  // ----- slots -----

  /** The semaphore treats everyone but `id` as before. */
  lemma AcquireOthers(s: Sem, id: nat, x: nat)
    requires s.Ok() && !Mentions(s.log, id) && x != id
    ensures var t := s.Acquire(id);
      && (x in Holding(t.log) <==> x in Holding(s.log))
      && (x in Pending(t.log) <==> x in Pending(s.log))
      && (Mentions(t.log, x) <==> Mentions(s.log, x))
  {
    hide Mentions;
    Next(s.log, LlmSemaphore.Granted(id));
    Next(s.log, Refused(id));
    Next(s.log, Queued(id));
    Mentioned(s.log, LlmSemaphore.Granted(id), x);
    Mentioned(s.log, Refused(id), x);
    Mentioned(s.log, Queued(id), x);
  }

  lemma TimeOutTells(s: Sem, id: nat, x: nat)
    requires s.Ok() && id in Pending(s.log)
    ensures var t := s.TimeOut(id);
      && (x in Holding(t.log) <==> x in Holding(s.log))
      && (x in Pending(t.log) <==> x in Pending(s.log) && x != id)
      && (Mentions(t.log, x) <==> Mentions(s.log, x))
  {
    hide Mentions;
    Known(s.log, id);
    Next(s.log, TimedOut(id));
    Mentioned(s.log, TimedOut(id), x);
    RemoveOnly(s.log, id, x);
  }

  /** The slot moves from `id` to the first waiter. */
  lemma ReleaseTells(s: Sem, id: nat, x: nat)
    requires s.Ok() && id in Holding(s.log)
    ensures var t := s.Release(id);
      && (x in Holding(t.log) <==> (x in Holding(s.log) && x != id) || (s.waiters != [] && x == s.waiters[0]))
      && (x in Pending(t.log) <==> x in Pending(s.log) && !(s.waiters != [] && x == s.waiters[0]))
      && (Mentions(t.log, x) <==> Mentions(s.log, x))
  {
    hide Mentions;
    Known(s.log, id);
    Next(s.log, Released(id));
    Mentioned(s.log, Released(id), x);
    if s.waiters != [] {
      var first := s.waiters[0];
      Known(s.log, first);
      Next(s.log + [Released(id)], LlmSemaphore.Granted(first));
      Mentioned(s.log + [Released(id)], LlmSemaphore.Granted(first), x);
      RemoveOnly(s.log, first, x);
    }
  }

  lemma StartKeepsSlots(s: State, c: nat, t: nat)
    requires SlotsOk(s) && t < |s.turns| && s.PhaseOf(c).NotStarted?
    ensures SlotsOk(StartGuarded(s, c, t))
  {
    hide Mentions, FairLog, Pending, Holding;
    var s' := StartGuarded(s, c, t);
    assert SlotOk(s, c);
    if s.now < s.turns[t].storedDeadline {
      AcquireKeepsOk(s.sem, c);
      AcquireTells(s.sem, c);
    }
    forall x ensures SlotOk(s', x) {
      assert SlotOk(s, x);
      if s.now < s.turns[t].storedDeadline && x != c { AcquireOthers(s.sem, c, x); }
    }
  }

  lemma ReleaseKeepsSlots(s: State, c: nat, p: Phase)
    requires SlotsOk(s) && s.PhaseOf(c).Holds() && p.Done?
    ensures SlotsOk(s.Release(c, p))
  {
    hide Mentions, FairLog, Pending, Holding;
    var s' := s.Release(c, p);
    assert SlotOk(s, c);
    ReleaseKeepsOk(s.sem, c);
    if s.sem.waiters != [] { assert SlotOk(s, s.sem.waiters[0]); }
    forall x ensures SlotOk(s', x) {
      assert SlotOk(s, x);
      ReleaseTells(s.sem, c, x);
    }
  }

  lemma TimerKeepsSlots(s: State, c: nat)
    requires SlotsOk(s) && s.PhaseOf(c).Waiting?
    ensures SlotsOk(s.Move(c, Done(DeadlineError)).(sem := s.sem.TimeOut(c)))
  {
    hide Mentions, FairLog, Pending, Holding;
    var s' := s.Move(c, Done(DeadlineError)).(sem := s.sem.TimeOut(c));
    assert SlotOk(s, c);
    TimeOutKeepsOk(s.sem, c);
    forall x ensures SlotOk(s', x) {
      assert SlotOk(s, x);
      TimeOutTells(s.sem, c, x);
    }
  }

  /** A move that neither takes nor gives a slot. */
  lemma MoveKeepsSlots(s: State, c: nat, p: Phase)
    requires SlotsOk(s) && !p.NotStarted? && !p.Waiting? && !s.PhaseOf(c).Waiting?
    requires p.Holds() == s.PhaseOf(c).Holds()
    ensures SlotsOk(s.Move(c, p))
  {
    forall x ensures SlotOk(s.Move(c, p), x) { assert SlotOk(s, x); }
  }

  lemma SlotsKept(s: State, step: Step)
    requires Enabled(s, step) && SlotsOk(s)
    ensures SlotsOk(Apply(s, step))
  {
    match step
    case StartCall(c, turn) =>
      if turn.Some? { StartKeepsSlots(s, c, turn.value); } else { MoveKeepsSlots(s, c, Unguarded); }
    case CallTimer(c) => TimerKeepsSlots(s, c);
    case Resume(c) => ResumeKeepsSlots(s, c);
    case EndCall(c) =>
      if s.PhaseOf(c).Calling? { ReleaseKeepsSlots(s, c, Done(Answered)); }
      else { MoveKeepsSlots(s, c, Done(Answered)); }
    case _ =>
      TurnsLeaveCalls(s, step);
      forall x ensures SlotOk(Apply(s, step), x) { assert SlotOk(s, x); }
  }

  lemma ResumeKeepsSlots(s: State, c: nat)
    requires SlotsOk(s) && s.PhaseOf(c).Ready? && s.PhaseOf(c).turn < |s.turns|
    ensures SlotsOk(ApplyResume(s, c))
  {
    var p := ApplyResume(s, c).PhaseOf(c);
    if p.Calling? { MoveKeepsSlots(s, c, p); } else { ReleaseKeepsSlots(s, c, Done(DeadlineError)); }
  }

  // ----- times -----

  lemma TimesKept(s: State, step: Step, c: nat)
    requires Enabled(s, step) && TurnsOk(s.turns) && TimeOk(s, c)
    ensures TimeOk(Apply(s, step), c)
  {
    match step
    case StartTurn(outer, deadlineMs) => TurnTimes(s, step, c);
    case EndTurn(i) => TurnTimes(s, step, c);
    case StartCall(_, _) =>
    case CallTimer(_) =>
    case Resume(x) => ResumeTimes(s, x, c);
    case EndCall(x) => if s.PhaseOf(x).Calling? { ReleaseTimes(s, x, Done(Answered), c); }
    case _ =>
  }

  lemma TurnTimes(s: State, step: Step, c: nat)
    requires Enabled(s, step) && TimeOk(s, c) && (step.StartTurn? || step.EndTurn?)
    ensures TimeOk(Apply(s, step), c)
  {
    var s' := Apply(s, step);
    if s.PhaseOf(c).Calling? {
      var t := s.PhaseOf(c).turn;
      OutermostStays(s.turns, s'.turns, t);
    }
  }

  lemma ReleaseTimes(s: State, x: nat, p: Phase, c: nat)
    requires TimeOk(s, c) && p.Done?
    ensures TimeOk(s.Release(x, p), c)
  {
  }

  lemma ResumeTimes(s: State, x: nat, c: nat)
    requires TurnsOk(s.turns) && TimeOk(s, c) && s.PhaseOf(x).Ready? && s.PhaseOf(x).turn < |s.turns|
    ensures TimeOk(ApplyResume(s, x), c)
  {
    assert TurnOk(s.turns, s.PhaseOf(x).turn);
    ReleaseTimes(s, x, Done(DeadlineError), c);
  }

  // ----- the theorems -----

  ghost predicate Ok(s: State) { SlotsOk(s) && TimesOk(s) && GateOk(s) }

  lemma StepKeepsOk(s: State, step: Step)
    requires Enabled(s, step) && Ok(s)
    ensures Ok(Apply(s, step))
  {
    hide SlotsOk, SlotOk, TimeOk, TurnsOk, GateOk, Enabled, Apply;
    SlotsKept(s, step);
    TurnsKept(s, step);
    forall c ensures TimeOk(Apply(s, step), c) {
      assert TimeOk(s, c);
      TimesKept(s, step, c);
    }
  }

  lemma InitOk()
    ensures Ok(INIT)
  {
  }

  lemma {:induction false} RunKeepsOk(s: State, steps: seq<Step>)
    requires Possible(s, steps) && Ok(s)
    ensures Ok(Run(s, steps))
    decreases |steps|
  {
    hide Ok;
    if steps != [] {
      StepKeepsOk(s, steps[0]);
      RunKeepsOk(Apply(s, steps[0]), steps[1..]);
    }
  }

  /** In every run the slots in use are exactly those of calls that stand between
      their grant and their end; when no such call exists, no slot is held. */
  lemma NoCallNoSlot(steps: seq<Step>)
    requires Possible(INIT, steps)
    ensures var s := Run(INIT, steps);
      && s.sem.active == |set c | c in s.calls && s.calls[c].Holds()| <= LLM_GLOBAL_CONCURRENCY
      && |s.sem.waiters| <= LLM_QUEUE_MAX_WAITING
  {
    InitOk();
    RunKeepsOk(INIT, steps);
    var s := Run(INIT, steps);
    forall c ensures c in Holding(s.sem.log) <==> c in s.calls && s.calls[c].Holds() { assert SlotOk(s, c); }
    assert Holding(s.sem.log) == set c | c in s.calls && s.calls[c].Holds();
    FixedSize(steps);
  }

  lemma StepKeepsSize(s: State, step: Step)
    requires Enabled(s, step)
    ensures Apply(s, step).sem.max == s.sem.max && Apply(s, step).sem.maxWaiting == s.sem.maxWaiting
  {
  }

  lemma {:induction false} RunKeepsSize(s: State, steps: seq<Step>)
    requires Possible(s, steps)
    ensures Run(s, steps).sem.max == s.sem.max && Run(s, steps).sem.maxWaiting == s.sem.maxWaiting
    decreases |steps|
  {
    if steps != [] {
      StepKeepsSize(s, steps[0]);
      RunKeepsSize(Apply(s, steps[0]), steps[1..]);
    }
  }

  lemma FixedSize(steps: seq<Step>)
    requires Possible(INIT, steps)
    ensures Run(INIT, steps).sem.max == LLM_GLOBAL_CONCURRENCY
    ensures Run(INIT, steps).sem.maxWaiting == LLM_QUEUE_MAX_WAITING
  {
    RunKeepsSize(INIT, steps);
  }

  lemma {:induction false} DistinctSize(ids: seq<nat>, xs: set<nat>)
    requires Distinct(ids) && forall x :: x in xs <==> x in ids
    ensures |xs| == |ids|
  {
    if ids == [] {
      assert xs == {};
    } else {
      var n := |ids| - 1;
      forall i, j | 0 <= i < j < n ensures ids[..n][i] != ids[..n][j] {}
      forall x ensures x in xs - {ids[n]} <==> x in ids[..n] {
        if x in ids {
          var i :| 0 <= i < |ids| && ids[i] == x;
          if i < n { assert ids[..n][i] == x; }
        }
      }
      DistinctSize(ids[..n], xs - {ids[n]});
    }
  }

  /** In every run a call of a turn fails at once when its outermost turn is out of time; else it gets a slot
      while fewer than a hundred are in use, or waits while fewer than two hundred wait, or is refused. */
  lemma CallStarts(steps: seq<Step>, c: nat, t: nat)
    requires Possible(INIT, steps) && Enabled(Run(INIT, steps), StartCall(c, Some(t)))
    ensures var s := Run(INIT, steps);
      var inUse, waiting := |set x | x in s.calls && s.calls[x].Holds()|, |set x | x in s.calls && s.calls[x].Waiting?|;
      Apply(s, StartCall(c, Some(t))).PhaseOf(c) ==
        if s.now >= Deadline(s.turns, t) then Done(DeadlineError)
        else if inUse < 100 then Ready(t)
        else if waiting < 200 then Waiting(t)
        else Done(SaturatedError)
  {
    hide Run, Possible;
    InitOk();
    RunKeepsOk(INIT, steps);
    var s := Run(INIT, steps);
    NoCallNoSlot(steps);
    FixedSize(steps);
    WaitingCount(s);
    assert TurnOk(s.turns, t);
  }

  /** A call that has its slot is sent if its outermost turn still has time, and is aborted in time; else it fails and
      gives the slot back. */
  lemma CallGoesOn(steps: seq<Step>, c: nat)
    requires Possible(INIT, steps) && Enabled(Run(INIT, steps), Resume(c))
    ensures var s := Run(INIT, steps);
      var deadline, q := Deadline(s.turns, s.PhaseOf(c).turn), Apply(s, Resume(c)).PhaseOf(c);
      q == if s.now < deadline then Calling(s.PhaseOf(c).turn, s.now, Min(deadline, s.now + 20_000)) else Done(DeadlineError)
  {
    hide Run, Possible, SlotsOk, GateOk;
    InitOk();
    RunKeepsOk(INIT, steps);
    var s := Run(INIT, steps);
    assert TurnOk(s.turns, s.PhaseOf(c).turn);
    ResumeIs(s, c);
  }

  /** How a call leaves the queue in any run: as the first one, when another call gives its slot back; or with an error,
      once its outermost turn is out of time, and not before. */
  lemma WaitingEnds(steps: seq<Step>, step: Step, c: nat)
    requires Possible(INIT, steps) && Enabled(Run(INIT, steps), step) && Run(INIT, steps).PhaseOf(c).Waiting?
    ensures var s := Run(INIT, steps);
      var t, p, q := Apply(s, step), s.PhaseOf(c), Apply(s, step).PhaseOf(c);
      && p.turn < |s.turns| && (Enabled(s, CallTimer(c)) <==> s.now >= Deadline(s.turns, p.turn))
      && (q != p ==>
            || (step == CallTimer(c) && q == Done(DeadlineError))
            || (q == Ready(p.turn) && s.sem.waiters != [] && s.sem.waiters[0] == c
                && exists d :: (step == EndCall(d) || step == Resume(d)) && s.PhaseOf(d).Holds() && !t.PhaseOf(d).Holds()))
  {
    hide Run, Possible, SlotsOk, GateOk, Deadline;
    InitOk();
    RunKeepsOk(INIT, steps);
    var s := Run(INIT, steps);
    assert TimeOk(s, c);
    assert TurnOk(s.turns, s.PhaseOf(c).turn);
    if Apply(s, step).PhaseOf(c) != s.PhaseOf(c) { WaitingLeaves(s, step, c); }
  }

  lemma WaitingLeaves(s: State, step: Step, c: nat)
    requires Enabled(s, step) && s.PhaseOf(c).Waiting? && Apply(s, step).PhaseOf(c) != s.PhaseOf(c)
    ensures var t, p, q := Apply(s, step), s.PhaseOf(c), Apply(s, step).PhaseOf(c);
      || (step == CallTimer(c) && q == Done(DeadlineError))
      || (q == Ready(p.turn) && s.sem.waiters != [] && s.sem.waiters[0] == c
          && (step.EndCall? || step.Resume?) && s.PhaseOf(step.c).Holds() && !t.PhaseOf(step.c).Holds())
  {
  }

  lemma ResumeIs(s: State, c: nat)
    requires s.PhaseOf(c).Ready? && s.PhaseOf(c).turn < |s.turns|
    ensures var d, q := s.turns[s.PhaseOf(c).turn].storedDeadline, ApplyResume(s, c).PhaseOf(c);
      q == if s.now < d then Calling(s.PhaseOf(c).turn, s.now, Min(d, s.now + 20_000)) else Done(DeadlineError)
  {
    var t := ApplyResume(s, c);
    if s.now >= s.turns[s.PhaseOf(c).turn].storedDeadline { ReleasedPhase(s, c, Done(DeadlineError)); }
  }

  lemma ReleasedPhase(s: State, c: nat, p: Phase)
    requires s.PhaseOf(c).Ready? && p.Done?
    ensures s.Release(c, p).PhaseOf(c) == p
  {
  }

  lemma WaitingCount(s: State)
    requires Ok(s)
    ensures |s.sem.waiters| == |set x | x in s.calls && s.calls[x].Waiting?|
  {
    hide Mentions, Holding, TimesOk, GateOk;
    PendingDistinct(s.sem.log);
    var waiting := set x | x in s.calls && s.calls[x].Waiting?;
    forall c ensures c in waiting <==> c in s.sem.waiters { assert SlotOk(s, c); }
    DistinctSize(s.sem.waiters, waiting);
    assert |s.sem.waiters| == |waiting|;
    assert waiting == set x | x in s.calls && s.calls[x].Waiting?;
  }

  /** A call that has ended, however it ended, has given back every slot it was
      granted, and each of them once. */
  lemma SlotReturnedOnce(steps: seq<Step>, c: nat, i: nat) returns (j: nat)
    requires Possible(INIT, steps) && Run(INIT, steps).PhaseOf(c).Done?
    requires i < |Run(INIT, steps).sem.log| && Run(INIT, steps).sem.log[i] == LlmSemaphore.Granted(c)
    ensures var log := Run(INIT, steps).sem.log;
      && i < j < |log| && log[j] == Released(c)
      && forall k | 0 <= k < |log| :: log[k] == Released(c) <==> k == j
  {
    InitOk();
    RunKeepsOk(INIT, steps);
    var s := Run(INIT, steps);
    assert SlotOk(s, c);
    j := GivenBack(s.sem.log, c, i);
    forall k | 0 <= k < |s.sem.log| && s.sem.log[k] == Released(c) ensures k == j {
      ReleasedOnce(s.sem.log, c, k, j);
    }
  }

  lemma {:induction false} GivenBack(log: seq<Event>, id: nat, i: nat) returns (j: nat)
    requires FairLog(log) && i < |log| && log[i] == LlmSemaphore.Granted(id) && id !in Holding(log)
    ensures i < j < |log| && log[j] == Released(id)
  {
    var before, e := log[..|log| - 1], log[|log| - 1];
    if e == Released(id) && i < |log| - 1 { j := |log| - 1; }
    else { j := GivenBack(before, id, i); }
  }

  /** However turns are nested, a call in flight is aborted at the deadline of the outermost
      turn or twenty seconds after it was sent, whichever comes first. */
  lemma AbortedInTime(steps: seq<Step>, c: nat)
    requires Possible(INIT, steps) && Run(INIT, steps).PhaseOf(c).Calling?
    ensures var s, p := Run(INIT, steps), Run(INIT, steps).PhaseOf(c);
      && p.turn < |s.turns|
      && p.abortAt == Min(Deadline(s.turns, p.turn), p.since + 20_000) > p.since
  {
    InitOk();
    RunKeepsOk(INIT, steps);
    assert TimeOk(Run(INIT, steps), c);
  }

  /** Each wait is answered once at most, and someone still waits only while an
      outermost turn runs. */
  lemma WaitsAnsweredOnce(steps: seq<Step>)
    requires Possible(INIT, steps)
    ensures var s := Run(INIT, steps);
      s.gate.Ok() && s.gate.activeTurns == Running(s.turns)
  {
    InitOk();
    RunKeepsOk(INIT, steps);
  }

  /** "Drained" is answered exactly at the moments when no outermost turn runs; no one who waits is
      forgotten, and when no such turn runs no one is left waiting. */
  lemma DrainedMeansIdle(steps: seq<Step>, step: Step)
    requires Possible(INIT, steps) && Enabled(Run(INIT, steps), step)
    ensures var s := Run(INIT, steps);
      var s' := Apply(s, step);
      && s.gate.answers <= s'.gate.answers
      && (forall k | |s.gate.answers| <= k < |s'.gate.answers| :: s'.gate.answers[k].drained <==> Running(s'.turns) == 0)
      && (forall d | s.gate.Knows(d) :: s'.gate.Knows(d))
      && (Running(s'.turns) == 0 ==> s'.gate.waits == [])
  {
    InitOk();
    RunKeepsOk(INIT, steps);
    StepKeepsOk(Run(INIT, steps), step);
    StepAnswers(Run(INIT, steps), step);
  }

  lemma StepAnswers(s: State, step: Step)
    requires Enabled(s, step) && GateOk(s)
    ensures s.gate.answers <= Apply(s, step).gate.answers
    ensures forall k | |s.gate.answers| <= k < |Apply(s, step).gate.answers| ::
      Apply(s, step).gate.answers[k].drained <==> Apply(s, step).gate.activeTurns == 0
    ensures forall d | s.gate.Knows(d) :: Apply(s, step).gate.Knows(d)
  {
    if OfCall(step) || step.Tick? {
      CallsLeaveTurns(s, step);
    } else {
      var g, h := s.gate, Apply(s, step).gate;
      forall d | g.Knows(d) ensures h.Knows(d) {
        if step.EndTurn? || step.DrainTimer? { StaysKnown(g, h, step, d); }
        else { StaysKnownBy(g, h, d); }
      }
    }
  }

  lemma StaysKnownBy(g: Gate, h: Gate, d: nat)
    requires g.Knows(d) && g.waits <= h.waits && g.answers <= h.answers
    ensures h.Knows(d)
  {
    if d !in g.waits {
      var i :| 0 <= i < |g.answers| && g.answers[i].wait == d;
      assert h.answers[i].wait == d;
    }
  }

  lemma StaysKnown(g: Gate, h: Gate, step: Step, d: nat)
    requires g.Knows(d) && g.Ok()
    requires h == g || (g.activeTurns > 0 && h == g.Leave()) || (step.DrainTimer? && step.d in g.waits && h == g.GiveUp(step.d))
    ensures h.Knows(d)
  {
    if h == g {
    } else if g.activeTurns > 0 && h == g.Leave() {
      LeaveKnows(g, d);
    } else {
      RemoveMeans(g.waits, step.d, d);
      if d == step.d {
        assert h.answers[|g.answers|].wait == d;
      } else if d !in g.waits {
        var i :| 0 <= i < |g.answers| && g.answers[i].wait == d;
        assert h.answers[i].wait == d;
      }
    }
  }

  lemma LeaveKnows(g: Gate, d: nat)
    requires g.Knows(d) && g.activeTurns > 0
    ensures g.Leave().Knows(d)
  {
    var h := g.Leave();
    if g.activeTurns == 1 {
      if d in g.waits {
        var i :| 0 <= i < |g.waits| && g.waits[i] == d;
        assert h.answers[|g.answers| + i].wait == d;
      } else {
        var i :| 0 <= i < |g.answers| && g.answers[i].wait == d;
        assert h.answers[i].wait == d;
      }
    }
  }
}
