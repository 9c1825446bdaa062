/** Which engine a turn gets (ace-config.ts): several server processes with a
    one-minute settings cache each, a shared row, a Redis version counter that
    announces changes, and a sticky engine mode for every conversation. */
module AceEngine {
  import opened JsText
  import opened AceSettings
  import opened AceHistory
  import opened AceRevert

  const CACHE_MS := 60_000
  const STICKY_MS := 7 * 24 * 3600 * 1000

  /** `ver` 0 stands for the JavaScript `null` of a missing counter. */
  datatype Loaded = Loaded(at: int, settings: Settings, ver: nat)

  datatype Sticky = Sticky(mode: EngineMode, stamp: int, expires: int)

  /** `loading` holds, for each process with a load in flight, the row that the load has
      read; `changedAt` is when the row was last written, kept for
      the proof. */
  datatype World = World(
    now: int, row: Option<Row>, ver: nat, stickies: map<string, Sticky>,
    caches: map<nat, Loaded>, loading: map<nat, Option<Row>>, changedAt: int)
  {
    function Current(): Settings { LoadRow(row) }

    function Live(conv: string): Option<Sticky> {
      if conv in stickies && now < stickies[conv].expires then Some(stickies[conv]) else None
    }

    predicate Cached(i: nat) { i in caches && now - caches[i].at < CACHE_MS }

    /** The load of process `i` ends. */
    function Keep(i: nat, c: Loaded): World { this.(caches := caches[i := c], loading := loading - {i}) }
  }

  /** Which reads and writes of a turn are answered: the row and the version at the
      first load, the version of the turn, both again at a second load, the sticky. */
  datatype Answers = Answers(row: bool, loadVer: bool, turnVer: bool, row2: bool, loadVer2: bool,
      getSticky: bool, setSticky: bool)

  /** The same for an administrator's request. */
  datatype AdminAnswers = AdminAnswers(row: bool, loadVer: bool, save: bool, incr: bool)

  /** A load reads the row, then the version, and is dated when it ends. */
  function Snapshot(w: World, row: bool, ver: bool): Loaded {
    Loaded(w.now, LoadRow(if row then w.row else None), if ver then w.ver else 0)
  }

  /** A load without a cache: it joins the load in flight, which has read its row before. */
  function Fresh(w: World, i: nat, row: bool, ver: bool): Loaded {
    if i in w.loading then Loaded(w.now, LoadRow(w.loading[i]), if ver then w.ver else 0) else Snapshot(w, row, ver)
  }

  function Load(w: World, i: nat, row: bool, ver: bool): Loaded {
    if w.Cached(i) then w.caches[i] else Fresh(w, i, row, ver)
  }

  function ForTurn(w: World, i: nat, a: Answers): Loaded {
    var cur := Load(w, i, a.row, a.loadVer);
    if a.turnVer && w.ver != cur.ver then Snapshot(w, a.row2, a.loadVer2) else cur
  }

  function Decide(c: Settings, store: Name): EngineMode {
    if store in c.storeOverrides then c.storeOverrides[store] else c.engineMode
  }

  function Honoured(w: World, conv: string, c: Settings, a: Answers): Option<EngineMode> {
    if a.getSticky && w.Live(conv).Some? && w.Live(conv).value.stamp >= c.revertedAt
    then Some(w.Live(conv).value.mode) else None
  }

  function ModeOf(w: World, i: nat, conv: string, store: Name, a: Answers): EngineMode {
    var c := ForTurn(w, i, a).settings;
    var sticky := Honoured(w, conv, c, a);
    if sticky.Some? then sticky.value else Decide(c, store)
  }

  function Resolve(w: World, i: nat, conv: string, store: Name, a: Answers): World {
    var c := ForTurn(w, i, a);
    var w' := w.Keep(i, c);
    if Honoured(w, conv, c.settings, a).Some? || !a.setSticky then w'
    else w'.(stickies := w.stickies[conv := Sticky(Decide(c.settings, store), w.now, w.now + STICKY_MS)])
  }

  /** Save, forget the own cache, announce; without a row nothing is written. */
  function Persist(w: World, i: nat, c: Loaded, row: Option<Row>, a: AdminAnswers): World {
    if row.None? || !a.save then w.Keep(i, c)
    else w.(row := row, caches := w.caches - {i}, loading := w.loading - {i},
            ver := if a.incr then w.ver + 1 else w.ver, changedAt := w.now)
  }

  datatype Step =
    | Tick(ms: nat)
    | Turn(i: nat, conv: string, store: Name, a: Answers)
    | Read(i: nat, row: bool, ver: bool)
    | BeginLoad(i: nat, row: bool)
    | EndLoad(i: nat, ver: bool)
    | Edit(i: nat, patch: Patch, adminId: Option<string>, aa: AdminAnswers)
    | Revert(i: nat, adminId: Option<string>, aa: AdminAnswers)
    | UndoRevert(i: nat, adminId: Option<string>, aa: AdminAnswers)
    | Forget(i: nat)

  function Apply(w: World, step: Step): World {
    match step
    case Tick(ms) => w.(now := w.now + ms)
    case Turn(i, conv, store, a) => Resolve(w, i, conv, store, a)
    case Read(i, row, ver) => w.Keep(i, Load(w, i, row, ver))
    case BeginLoad(i, row) =>
      if w.Cached(i) || i in w.loading then w
      else w.(loading := w.loading[i := if row then w.row else None])
    case EndLoad(i, ver) => if i in w.loading then w.Keep(i, Fresh(w, i, false, ver)) else w
    case Edit(i, patch, adminId, aa) =>
      var c := Fresh(w, i, aa.row, aa.loadVer);
      Persist(w, i, c, UpdatedRow(c.settings, patch, w.now, adminId), aa)
    case Revert(i, adminId, aa) =>
      var c := Fresh(w, i, aa.row, aa.loadVer);
      Persist(w, i, c, Some(RevertedRow(c.settings, w.now, adminId)), aa)
    case UndoRevert(i, adminId, aa) =>
      var c := Fresh(w, i, aa.row, aa.loadVer);
      var u := UndoneRow(c.settings, w.now, adminId);
      Persist(w, i, c, if u.Undone? then Some(u.row) else None, aa)
    case Forget(i) => w.(caches := w.caches - {i})
  }

  function Run(w: World, steps: seq<Step>): World
    decreases |steps|
  {
    if steps == [] then w else Run(Apply(w, steps[0]), steps[1..])
  }

  predicate Possible(step: Step) { step.Edit? ==> DistinctNames(step.patch.layers) }

  predicate AllPossible(steps: seq<Step>) { forall k | 0 <= k < |steps| :: Possible(steps[k]) }

  /** The database answers every read. */
  predicate RowsAnswer(step: Step) {
    match step
    case Turn(_, _, _, a) => a.row && a.row2
    case Read(_, row, _) => row
    case BeginLoad(_, row) => row
    case Edit(_, _, _, aa) => aa.row
    case Revert(_, _, aa) => aa.row
    case UndoRevert(_, _, aa) => aa.row
    case _ => true
  }

  /** Moreover every change is announced. */
  predicate Announced(step: Step) {
    RowsAnswer(step) &&
    match step
    case Edit(_, _, _, aa) => aa.incr
    case Revert(_, _, aa) => aa.incr
    case UndoRevert(_, _, aa) => aa.incr
    case _ => true
  }

  predicate OfAdmin(step: Step) { step.Edit? || step.Revert? || step.UndoRevert? }

  /** No other process has a load in flight when the stored settings change. */
  ghost predicate Alone(w: World, step: Step) {
    OfAdmin(step) && Apply(w, step).Current() != w.Current() ==> forall j | j in w.loading :: j == step.i
  }

  ghost predicate AllAlone(w: World, steps: seq<Step>)
    decreases |steps|
  {
    steps == [] || (Alone(w, steps[0]) && AllAlone(Apply(w, steps[0]), steps[1..]))
  }

  predicate AllAnswer(steps: seq<Step>) { forall k | 0 <= k < |steps| :: RowsAnswer(steps[k]) }

  predicate AllAnnounced(steps: seq<Step>) { forall k | 0 <= k < |steps| :: Announced(steps[k]) }

  // ----- how fresh the settings of a turn are -----

  /** What a load in flight has read are the current settings, and its process has no live cache. */
  ghost predicate Timely(w: World) { forall i | i in w.loading :: LoadRow(w.loading[i]) == w.Current() && !w.Cached(i) }

  /** A cache that carries the current version holds the current settings. */
  ghost predicate Coherent(w: World) {
    && Timely(w)
    && forall i | i in w.caches ::
        w.caches[i].ver <= w.ver && (w.caches[i].ver == w.ver ==> w.caches[i].settings == w.Current())
  }

  /** A cache that is newer than the last change holds the current settings. */
  ghost predicate Dated(w: World) {
    && Timely(w) && w.changedAt <= w.now
    && forall i | i in w.caches ::
        w.caches[i].at <= w.now && (w.caches[i].at > w.changedAt ==> w.caches[i].settings == w.Current())
  }

  /** The settings an administrator's request works with. */
  function AdminLoad(w: World, i: nat, aa: AdminAnswers): Loaded { Fresh(w, i, aa.row, aa.loadVer) }

  /** What an administrator's request asks to be stored, if anything. */
  function AdminRow(w: World, step: Step): Option<Row>
    requires OfAdmin(step)
  {
    var c := AdminLoad(w, step.i, step.aa).settings;
    match step
    case Edit(_, patch, adminId, _) => UpdatedRow(c, patch, w.now, adminId)
    case Revert(_, adminId, _) => Some(RevertedRow(c, w.now, adminId))
    case UndoRevert(_, adminId, _) => var u := UndoneRow(c, w.now, adminId); if u.Undone? then Some(u.row) else None
  }

  lemma AdminPersists(w: World, step: Step)
    requires OfAdmin(step)
    ensures Apply(w, step) == Persist(w, step.i, AdminLoad(w, step.i, step.aa), AdminRow(w, step), step.aa)
  {
    hide LoadRow, UpdatedRow, RevertedRow, UndoneRow, Persist;
  }

  lemma AdminLoadsCurrent(w: World, i: nat, aa: AdminAnswers)
    requires Timely(w) && aa.row
    ensures AdminLoad(w, i, aa).settings == w.Current() && AdminLoad(w, i, aa).ver <= w.ver && AdminLoad(w, i, aa).at == w.now
  {
    hide LoadRow;
  }

  lemma PersistCoherent(w: World, i: nat, c: Loaded, row: Option<Row>, a: AdminAnswers)
    requires Coherent(w) && a.incr && c.settings == w.Current() && c.ver <= w.ver
    requires Persist(w, i, c, row, a).Current() != w.Current() ==> forall j | j in w.loading :: j == i
    ensures Coherent(Persist(w, i, c, row, a))
  {
    hide LoadRow;
  }

  lemma TurnCoherent(w: World, step: Step)
    requires Coherent(w) && RowsAnswer(step) && step.Turn?
    ensures Coherent(Apply(w, step))
  {
    hide LoadRow, Honoured, Decide;
  }

  lemma LoadsCoherent(w: World, step: Step)
    requires Coherent(w) && RowsAnswer(step) && (step.Turn? || step.Read? || step.BeginLoad? || step.EndLoad?)
    ensures Coherent(Apply(w, step))
  {
    hide LoadRow, Resolve;
    if step.Turn? {
      hide Apply, Coherent, RowsAnswer;
      TurnCoherent(w, step);
    }
  }

  lemma StepCoherent(w: World, step: Step)
    requires Coherent(w) && Announced(step) && Alone(w, step)
    ensures Coherent(Apply(w, step))
  {
    hide LoadRow, AdminRow, AdminLoad, Persist;
    if OfAdmin(step) {
      hide Apply, Coherent;
      AdminPersists(w, step);
      assert Timely(w) by { CoherentIsTimely(w); }
      AdminLoadsCurrent(w, step.i, step.aa);
      PersistCoherent(w, step.i, AdminLoad(w, step.i, step.aa), AdminRow(w, step), step.aa);
    } else if step.Tick? || step.Forget? {
    } else {
      LoadsCoherent(w, step);
    }
  }

  lemma CoherentIsTimely(w: World)
    requires Coherent(w)
    ensures Timely(w)
  {
  }

  lemma {:induction false} RunCoherent(w: World, steps: seq<Step>)
    requires Coherent(w) && AllAnnounced(steps) && AllAlone(w, steps)
    ensures Coherent(Run(w, steps))
    decreases |steps|
  {
    if steps != [] {
      hide Coherent, Apply, Announced, Alone;
      assert Announced(steps[0]);
      StepCoherent(w, steps[0]);
      RunCoherent(Apply(w, steps[0]), steps[1..]);
    }
  }

  /** No process has cached anything and none is loading. */
  predicate Starts(w: World) { w.caches == map[] && w.loading == map[] }

  /** A turn that can read the version and the row works with the settings as they are. */
  ghost predicate Sees(w: World) {
    forall i: nat, a: Answers | a.row && a.row2 && a.turnVer :: ForTurn(w, i, a).settings == w.Current()
  }

  ghost predicate AlwaysSees(w: World, steps: seq<Step>)
    decreases |steps|
  {
    Sees(w) && (steps == [] || AlwaysSees(Apply(w, steps[0]), steps[1..]))
  }

  lemma CoherentSees(w: World)
    requires Coherent(w)
    ensures Sees(w)
  {
    hide Coherent, ForTurn, LoadRow;
    forall i: nat, a: Answers | a.row && a.row2 && a.turnVer ensures ForTurn(w, i, a).settings == w.Current() {
      CoherentTurn(w, i, a);
    }
  }

  /** The turns of a process whose load spans a change join that load and get what it has read. */
  lemma CrossedChangeIsMissed(w: World, change: Step)
    requires Coherent(w) && !Alone(w, change)
    ensures !Sees(Apply(w, change))
  {
    hide Sees, Apply;
    var j :| j in w.loading && j != change.i;
    StillLoading(w, change, j);
    StaleLoad(Apply(w, change), j);
  }

  lemma StillLoading(w: World, change: Step, j: nat)
    requires Timely(w) && OfAdmin(change) && j in w.loading && j != change.i
    ensures var s := Apply(w, change); j in s.loading && !s.Cached(j) && LoadRow(s.loading[j]) == w.Current()
  {
    hide LoadRow, AdminRow, AdminLoad, Apply;
    AdminPersists(w, change);
  }

  lemma StaleLoad(s: World, j: nat)
    requires j in s.loading && !s.Cached(j) && LoadRow(s.loading[j]) != s.Current()
    ensures !Sees(s)
  {
    hide LoadRow;
    var a := Answers(true, true, true, true, true, true, true);
    assert ForTurn(s, j, a).settings == LoadRow(s.loading[j]);
  }

  lemma {:induction false} SeesFrom(w: World, steps: seq<Step>)
    requires Coherent(w) && AllAnnounced(steps)
    ensures AlwaysSees(w, steps) <==> AllAlone(w, steps)
    decreases |steps|
  {
    hide Coherent, Apply, Announced, Alone, Sees;
    CoherentSees(w);
    if steps != [] {
      assert Announced(steps[0]);
      if Alone(w, steps[0]) {
        StepCoherent(w, steps[0]);
        SeesFrom(Apply(w, steps[0]), steps[1..]);
      } else {
        CrossedChangeIsMissed(w, steps[0]);
      }
    }
  }

  /** While every change is announced, the turns of all processes that can read version and
      row work with the settings as they are, whatever the caches hold, if and only if the
      settings never change during a load of another process. */
  lemma TurnSeesChange(w: World, steps: seq<Step>)
    requires Starts(w) && AllAnnounced(steps)
    ensures AlwaysSees(w, steps) <==> AllAlone(w, steps)
  {
    CoherentAtStart(w);
    SeesFrom(w, steps);
  }

  lemma CoherentTurn(w: World, i: nat, a: Answers)
    requires Coherent(w) && a.row && a.row2 && a.turnVer
    ensures ForTurn(w, i, a).settings == w.Current()
  {
    hide LoadRow;
  }

  /** A load that spans a change caches the old settings under the new version: for a
      minute the turns of its process do not see the change, though everything answers. */
  lemma SpanningLoadIsStale(w: World, change: Step, j: nat, ms: nat, a: Answers)
    requires j !in w.loading && !w.Cached(j) && OfAdmin(change) && change.i != j && ms < 60_000
    ensures var s := Run(w, [BeginLoad(j, true), change, EndLoad(j, true), Tick(ms)]);
      ForTurn(s, j, a).settings == w.Current()
  {
    hide LoadRow, UpdatedRow, RevertedRow, UndoneRow, AdminRow;
    var w1 := Apply(w, BeginLoad(j, true));
    AdminPersists(w1, change);
    var w2 := Apply(w1, change);
    assert w2.loading[j] == w.row && j in w2.loading;
    FourSteps(w, BeginLoad(j, true), change, EndLoad(j, true), Tick(ms));
  }

  lemma FourSteps(w: World, a: Step, b: Step, c: Step, d: Step)
    ensures Run(w, [a, b, c, d]) == Apply(Apply(Apply(Apply(w, a), b), c), d)
  {
    hide Apply;
    assert [a, b, c, d][1..] == [b, c, d] && [b, c, d][1..] == [c, d] && [c, d][1..] == [d] && [d][1..] == [];
    var w1, w2 := Apply(w, a), Apply(Apply(w, a), b);
    assert Run(w2, [c, d]) == Run(Apply(w2, c), [d]) == Apply(Apply(w2, c), d);
    assert Run(w, [a, b, c, d]) == Run(w1, [b, c, d]) == Run(w2, [c, d]);
  }

  lemma PersistDated(w: World, i: nat, c: Loaded, row: Option<Row>, a: AdminAnswers)
    requires Dated(w) && c.settings == w.Current() && c.at == w.now
    requires Persist(w, i, c, row, a).Current() != w.Current() ==> forall j | j in w.loading :: j == i
    ensures Dated(Persist(w, i, c, row, a))
  {
    hide LoadRow;
  }

  lemma TurnDated(w: World, step: Step)
    requires Dated(w) && RowsAnswer(step) && step.Turn?
    ensures Dated(Apply(w, step))
  {
    hide LoadRow, Honoured, Decide, ForTurn;
    ForTurnDated(w, step.i, step.a);
  }

  lemma ForTurnDated(w: World, i: nat, a: Answers)
    requires Dated(w) && a.row && a.row2
    ensures var c := ForTurn(w, i, a); c.at <= w.now && (c.at > w.changedAt ==> c.settings == w.Current())
  {
    hide LoadRow;
  }

  lemma LoadsDated(w: World, step: Step)
    requires Dated(w) && RowsAnswer(step) && (step.Turn? || step.Read? || step.BeginLoad? || step.EndLoad?)
    ensures Dated(Apply(w, step))
  {
    hide LoadRow, Resolve;
    if step.Turn? {
      hide Apply, Dated, RowsAnswer;
      TurnDated(w, step);
    }
  }

  lemma StepDated(w: World, step: Step)
    requires Dated(w) && RowsAnswer(step) && Alone(w, step)
    ensures Dated(Apply(w, step))
  {
    hide LoadRow, AdminRow, AdminLoad, Persist;
    if OfAdmin(step) {
      hide Apply;
      AdminPersists(w, step);
      AdminLoadsCurrent(w, step.i, step.aa);
      hide Dated;
      PersistDated(w, step.i, AdminLoad(w, step.i, step.aa), AdminRow(w, step), step.aa);
    } else if step.Tick? || step.Forget? {
    } else {
      LoadsDated(w, step);
    }
  }

  lemma {:induction false} RunDated(w: World, steps: seq<Step>)
    requires Dated(w) && AllAnswer(steps) && AllAlone(w, steps)
    ensures Dated(Run(w, steps))
    decreases |steps|
  {
    if steps != [] {
      hide Dated, Apply, RowsAnswer, Alone;
      assert RowsAnswer(steps[0]);
      StepDated(w, steps[0]);
      RunDated(Apply(w, steps[0]), steps[1..]);
    }
  }

  lemma DatedTurn(w: World, i: nat, a: Answers)
    requires Dated(w) && w.now >= w.changedAt + 60_000 && a.row && a.row2
    ensures ForTurn(w, i, a).settings == w.Current()
  {
    hide LoadRow;
  }

  /** One minute after the last change every process has it, even if Redis never answers. */
  lemma MinuteLaterAllSeeIt(w: World, steps: seq<Step>, i: nat, a: Answers)
    requires Starts(w) && w.changedAt <= w.now && AllAnswer(steps) && AllAlone(w, steps)
    requires Run(w, steps).now >= Run(w, steps).changedAt + 60_000
    requires a.row && a.row2
    ensures ForTurn(Run(w, steps), i, a).settings == Run(w, steps).Current()
  {
    hide LoadRow, ForTurn;
    RunDated(w, steps);
    DatedTurn(Run(w, steps), i, a);
  }

  /** What an update stores is the patch applied to what its load has read: the defaults
      after a failed read, and the row of a load that was in flight before. Everything
      else that was stored is forgotten. */
  lemma FailedReadForgetsSettings(w: World, i: nat, patch: Patch, adminId: Option<string>, aa: AdminAnswers)
    requires DistinctNames(patch.layers) && aa.save && Changes(AdminLoad(w, i, aa).settings, patch) != []
    ensures Apply(w, Edit(i, patch, adminId, aa)).Current()
         == After(LoadRow(if i in w.loading then w.loading[i] else if aa.row then w.row else None), patch, w.now, adminId)
  {
    hide LoadRow, UpdatedRow, After, Changes;
    UpdateMeans(AdminLoad(w, i, aa).settings, patch, w.now, adminId);
  }

  /** The settings that an update does not speak of survive it if and only if nothing is
      written, or what its load has read agrees with the stored settings there. */
  lemma OthersSurvive(w: World, i: nat, patch: Patch, adminId: Option<string>, aa: AdminAnswers)
    requires DistinctNames(patch.layers) && aa.save
    ensures var loaded := AdminLoad(w, i, aa).settings;
      Agree(patch, w.Current(), Apply(w, Edit(i, patch, adminId, aa)).Current()) <==>
        Changes(loaded, patch) == [] || Agree(patch, w.Current(), loaded)
  {
    hide LoadRow, UpdatedRow, After, Changes, FieldValue, Loadable, Asks;
    var loaded := AdminLoad(w, i, aa).settings;
    UpdateMeans(loaded, patch, w.now, adminId);
    AfterAgrees(loaded, patch, w.now, adminId);
  }

  // ----- the revert dominates -----

  /** No store and no default asks for lean. */
  predicate NoLean(c: Settings) {
    c.engineMode == Stable && forall sid | sid in c.storeOverrides :: c.storeOverrides[sid] == Stable
  }

  /** Announced steps, changes during no load of another process, in which turns can read
      the version, and after which no stored setting asks for lean. */
  ghost predicate QuietStep(w: World, step: Step) {
    Announced(step) && Alone(w, step) && (step.Turn? ==> step.a.turnVer) && NoLean(Apply(w, step).Current())
  }

  ghost predicate QuietRun(w: World, steps: seq<Step>)
    decreases |steps|
  {
    steps == [] || (QuietStep(w, steps[0]) && QuietRun(Apply(w, steps[0]), steps[1..]))
  }

  /** After a revert at time `t`: the only lean stickies are those that were there. */
  ghost predicate Reverted(w: World, t: int, were: map<string, Sticky>) {
    && Coherent(w) && NoLean(w.Current())
    && t <= w.Current().revertedAt
    && forall conv | conv in w.stickies && w.stickies[conv].mode == Lean :: conv in were && w.stickies[conv] == were[conv]
  }

  lemma QuietTurn(w: World, step: Step, t: int, were: map<string, Sticky>)
    requires Reverted(w, t, were) && QuietStep(w, step) && step.Turn?
    ensures Reverted(Apply(w, step), t, were)
  {
    hide LoadRow, ForTurn;
    StepCoherent(w, step);
    CoherentTurn(w, step.i, step.a);
  }

  lemma PersistKeepsStamp(w: World, i: nat, c: Loaded, row: Option<Row>, a: AdminAnswers, t: int)
    requires t <= w.Current().revertedAt && (row.Some? ==> t <= LoadRow(row).revertedAt)
    ensures t <= Persist(w, i, c, row, a).Current().revertedAt
    ensures Persist(w, i, c, row, a).stickies == w.stickies
  {
    hide LoadRow;
  }

  lemma UpdateKeepsStamp(c: Settings, p: Patch, at: int, adminId: Option<string>)
    requires Loadable(c) && DistinctNames(p.layers)
    ensures var row := UpdatedRow(c, p, at, adminId); row.Some? ==> LoadRow(row).revertedAt == c.revertedAt
  {
    hide LoadRow, Changes;
    UpdateMeans(c, p, at, adminId);
  }

  lemma UndoKeepsStamp(c: Settings, at: int, adminId: Option<string>)
    requires Loadable(c)
    ensures var u := UndoneRow(c, at, adminId); u.Undone? ==> LoadRow(Some(u.row)).revertedAt == c.revertedAt
  {
    hide EngineValue, ReadEngine, WithAudit;
    RawLookups(c, Ledger);
  }

  /** A request stores the stamp that it has loaded; a revert stores the present. */
  lemma AdminRowStamp(w: World, step: Step)
    requires Possible(step) && OfAdmin(step)
    ensures var row := AdminRow(w, step);
      row.Some? ==> LoadRow(row).revertedAt == if step.Revert? then w.now else AdminLoad(w, step.i, step.aa).settings.revertedAt
  {
    hide LoadRow, UpdatedRow, RevertedRow, UndoneRow, Loadable;
    var c := AdminLoad(w, step.i, step.aa).settings;
    match step
    case Edit(i, patch, adminId, aa) => UpdateKeepsStamp(c, patch, w.now, adminId);
    case Revert(i, adminId, aa) => RevertMeans(c, w.now, adminId);
    case UndoRevert(i, adminId, aa) => UndoKeepsStamp(c, w.now, adminId);
  }

  lemma AdminStamp(w: World, step: Step, t: int)
    requires Possible(step) && RowsAnswer(step) && OfAdmin(step) && Timely(w)
    requires t <= w.Current().revertedAt && t <= w.now
    ensures t <= Apply(w, step).Current().revertedAt && Apply(w, step).stickies == w.stickies
  {
    hide LoadRow, AdminRow, AdminLoad, Persist, Apply, Timely, Possible;
    AdminPersists(w, step);
    AdminRowStamp(w, step);
    AdminLoadsCurrent(w, step.i, step.aa);
    PersistKeepsStamp(w, step.i, AdminLoad(w, step.i, step.aa), AdminRow(w, step), step.aa, t);
  }

  lemma TimeOnlyGrows(w: World, step: Step)
    ensures w.now <= Apply(w, step).now
  {
    hide LoadRow, UpdatedRow, RevertedRow, UndoneRow;
  }

  lemma QuietKeeps(w: World, step: Step, t: int, were: map<string, Sticky>)
    requires Reverted(w, t, were) && QuietStep(w, step) && Possible(step) && t <= w.now
    ensures Reverted(Apply(w, step), t, were)
  {
    hide LoadRow, UpdatedRow, RevertedRow, UndoneRow, Persist, ForTurn, Honoured, Coherent;
    if step.Turn? {
      QuietTurn(w, step, t, were);
    } else {
      StepCoherent(w, step);
      CoherentIsTimely(w);
      if OfAdmin(step) { AdminStamp(w, step, t); }
    }
  }

  lemma {:induction false} QuietRunKeeps(w: World, steps: seq<Step>, t: int, were: map<string, Sticky>)
    requires Reverted(w, t, were) && QuietRun(w, steps) && AllPossible(steps) && t <= w.now
    ensures Reverted(Run(w, steps), t, were)
    decreases |steps|
  {
    if steps != [] {
      hide Reverted, QuietStep, Apply, Possible;
      assert Possible(steps[0]);
      QuietKeeps(w, steps[0], t, were);
      TimeOnlyGrows(w, steps[0]);
      QuietRunKeeps(Apply(w, steps[0]), steps[1..], t, were);
    }
  }

  lemma RevertStarts(w: World, i: nat, adminId: Option<string>, aa: AdminAnswers)
    requires Coherent(w) && Alone(w, Revert(i, adminId, aa)) && aa.row && aa.save && aa.incr
    ensures Reverted(Apply(w, Revert(i, adminId, aa)), w.now, w.stickies)
    ensures Apply(w, Revert(i, adminId, aa)).Current().revertedAt == w.now
  {
    hide LoadRow, RevertedRow, Loadable, Coherent, AdminLoad;
    CoherentIsTimely(w);
    AdminPersists(w, Revert(i, adminId, aa));
    AdminLoadsCurrent(w, i, aa);
    RevertMeans(AdminLoad(w, i, aa).settings, w.now, adminId) by { AdminLoadable(w, i, aa); }
    StepCoherent(w, Revert(i, adminId, aa));
  }

  lemma AdminLoadable(w: World, i: nat, aa: AdminAnswers)
    ensures Loadable(AdminLoad(w, i, aa).settings)
  {
    hide Loadable;
  }

  /** No sticky is stamped in the future. */
  ghost predicate Stamped(w: World) { forall conv | conv in w.stickies :: w.stickies[conv].stamp <= w.now }

  /** After an announced emergency revert, until lean is set again, and while turns can read
      the version, a turn of any process gets lean in one case only: its conversation was made lean in the very
      millisecond of the revert, and no later revert has happened. */
  lemma AnnouncedRevertDominates(w: World, before: seq<Step>, i: nat, adminId: Option<string>, aa: AdminAnswers,
      steps: seq<Step>, j: nat, conv: string, store: Name, a: Answers)
    requires Starts(w) && w.stickies == map[] && AllAnnounced(before) && AllAlone(w, before)
    requires Alone(Run(w, before), Revert(i, adminId, aa)) && aa.row && aa.save && aa.incr
    requires QuietRun(Apply(Run(w, before), Revert(i, adminId, aa)), steps) && AllPossible(steps)
    requires a.row && a.row2 && a.turnVer
    ensures var reverting := Run(w, before);
      var s := Run(Apply(reverting, Revert(i, adminId, aa)), steps);
      ModeOf(s, j, conv, store, a) == Lean <==>
        a.getSticky && s.Live(conv).Some? && s.Live(conv).value.mode == Lean
        && conv in reverting.stickies && s.Live(conv).value == reverting.stickies[conv]
        && reverting.stickies[conv].stamp == reverting.now == s.Current().revertedAt
  {
    hide LoadRow, RevertedRow, Run, QuietRun, Apply, Coherent, ForTurn, Announced, Alone;
    var reverting := Run(w, before);
    CoherentAtStart(w);
    RunCoherent(w, before);
    RunStamped(w, before);
    RevertStarts(reverting, i, adminId, aa);
    var r := Apply(reverting, Revert(i, adminId, aa));
    TimeOnlyGrows(reverting, Revert(i, adminId, aa));
    QuietRunKeeps(r, steps, reverting.now, reverting.stickies);
    var s := Run(r, steps);
    CoherentTurn(s, j, a);
    LeanOnlyFromSticky(s, j, conv, store, a);
  }

  lemma CoherentAtStart(w: World)
    requires Starts(w)
    ensures Coherent(w)
  {
  }

  lemma LeanOnlyFromSticky(s: World, j: nat, conv: string, store: Name, a: Answers)
    requires NoLean(s.Current()) && ForTurn(s, j, a).settings == s.Current()
    ensures ModeOf(s, j, conv, store, a) == Lean <==>
      a.getSticky && s.Live(conv).Some? && s.Live(conv).value.mode == Lean
      && s.Live(conv).value.stamp >= s.Current().revertedAt
  {
    hide LoadRow, ForTurn;
  }

  lemma StepStamped(w: World, step: Step)
    requires Stamped(w)
    ensures Stamped(Apply(w, step))
  {
    hide LoadRow, UpdatedRow, RevertedRow, UndoneRow;
  }

  lemma {:induction false} RunStamped(w: World, steps: seq<Step>)
    requires Stamped(w)
    ensures Stamped(Run(w, steps))
    decreases |steps|
  {
    if steps != [] {
      hide Stamped, Apply;
      StepStamped(w, steps[0]);
      RunStamped(Apply(w, steps[0]), steps[1..]);
    }
  }

  // ----- when the revert dominates -----

  /** Settings that know of the revert at `t`. */
  predicate Heard(c: Settings, t: int) { t <= c.revertedAt && NoLean(c) }

  /** A turn escapes the revert at `t`: it works with settings that do not know of it and
      that decide for lean or honour a lean sticky, or its lean sticky is of that millisecond. */
  predicate Escapes(w: World, step: Step, t: int) {
    step.Turn? &&
    var c := ForTurn(w, step.i, step.a).settings;
    var sticky := Honoured(w, step.conv, c, step.a);
    if Heard(c, t) then sticky == Some(Lean) && w.stickies[step.conv].stamp == t
    else if sticky.Some? then sticky.value.Lean?
    else Decide(c, step.store).Lean?
  }

  predicate GetsLean(w: World, step: Step) { step.Turn? && ModeOf(w, step.i, step.conv, step.store, step.a) == Lean }

  ghost predicate NeverEscapes(w: World, steps: seq<Step>, t: int)
    decreases |steps|
  {
    steps == [] || (!Escapes(w, steps[0], t) && NeverEscapes(Apply(w, steps[0]), steps[1..], t))
  }

  ghost predicate NeverLean(w: World, steps: seq<Step>)
    decreases |steps|
  {
    steps == [] || (!GetsLean(w, steps[0]) && NeverLean(Apply(w, steps[0]), steps[1..]))
  }

  /** Lean stickies are not younger than the revert. */
  ghost predicate OldLean(w: World, t: int) {
    forall conv | conv in w.stickies && w.stickies[conv].mode == Lean :: w.stickies[conv].stamp <= t
  }

  lemma LeanTurnEscapes(w: World, step: Step, t: int)
    requires OldLean(w, t)
    ensures GetsLean(w, step) <==> Escapes(w, step, t)
  {
    hide LoadRow, ForTurn;
  }

  lemma StableTurnKeeps(w: World, step: Step, t: int)
    requires OldLean(w, t) && !GetsLean(w, step)
    ensures OldLean(Apply(w, step), t)
  {
    hide LoadRow, ForTurn, UpdatedRow, RevertedRow, UndoneRow;
    if OfAdmin(step) {
      hide Apply, AdminRow, AdminLoad;
      AdminPersists(w, step);
    }
  }

  lemma {:induction false} EscapesFrom(w: World, steps: seq<Step>, t: int)
    requires OldLean(w, t)
    ensures NeverLean(w, steps) <==> NeverEscapes(w, steps, t)
    decreases |steps|
  {
    hide OldLean, Apply, GetsLean, Escapes;
    if steps != [] {
      LeanTurnEscapes(w, steps[0], t);
      if !GetsLean(w, steps[0]) {
        StableTurnKeeps(w, steps[0], t);
        EscapesFrom(Apply(w, steps[0]), steps[1..], t);
      }
    }
  }

  /** After a stored emergency revert, whatever answers and is stored afterwards: no turn
      of any process gets lean if and only if none escapes, that is, works with settings that
      do not know of the revert and say lean, or has a lean sticky of the very millisecond. */
  lemma RevertDominates(w: World, before: seq<Step>, i: nat, adminId: Option<string>, aa: AdminAnswers, steps: seq<Step>)
    requires w.stickies == map[] && aa.save
    ensures var reverting := Run(w, before);
      var r := Apply(reverting, Revert(i, adminId, aa));
      Heard(r.Current(), reverting.now) && (NeverLean(r, steps) <==> NeverEscapes(r, steps, reverting.now))
  {
    hide Run, NeverLean, NeverEscapes, LoadRow, RevertedRow, Loadable, AdminLoad;
    var reverting := Run(w, before);
    RunStamped(w, before);
    AdminPersists(reverting, Revert(i, adminId, aa));
    AdminLoadable(reverting, i, aa);
    RevertMeans(AdminLoad(reverting, i, aa).settings, reverting.now, adminId);
    EscapesFrom(Apply(reverting, Revert(i, adminId, aa)), steps, reverting.now);
  }

  /** A turn misses the revert at `t`: it finds an old version and cannot read the row again,
      or it does not look or finds nothing new, and goes on with a cache that does not know
      of the revert or with the defaults after a failed read. */
  predicate Misses(w: World, i: nat, a: Answers, t: int) {
    var ver := if w.Cached(i) then w.caches[i].ver else if a.loadVer then w.ver else 0;
    if a.turnVer && w.ver != ver then !a.row2
    else if w.Cached(i) then !Heard(w.caches[i].settings, t)
    else i !in w.loading && !a.row
  }

  /** Who hears of the revert while it stands, exactly, both where all changes are announced
      and a minute after the last change. */
  lemma WhoHears(w: World, i: nat, a: Answers, t: int)
    requires Heard(w.Current(), t) && t > 0
    requires Coherent(w) || (Dated(w) && w.now >= w.changedAt + 60_000)
    ensures Heard(ForTurn(w, i, a).settings, t) <==> !Misses(w, i, a, t)
  {
    hide LoadRow, Heard;
    DefaultsHearNothing(t);
    assert Timely(w);
  }

  lemma DefaultsHearNothing(t: int)
    requires t > 0
    ensures !Heard(LoadRow(None), t)
  {
  }

  // ----- the mode of a conversation is constant -----

  /** No one knows of a revert after `t`. */
  ghost predicate NoRevertAfter(w: World, t: int) {
    && 0 <= t && w.Current().revertedAt <= t
    && (forall i | i in w.caches :: w.caches[i].settings.revertedAt <= t)
    && forall i | i in w.loading :: LoadRow(w.loading[i]).revertedAt <= t
  }

  lemma DefaultStamp()
    ensures LoadRow(None).revertedAt == 0
  {
  }

  lemma FreshStamp(w: World, t: int, i: nat, row: bool, ver: bool)
    requires NoRevertAfter(w, t)
    ensures Fresh(w, i, row, ver).settings.revertedAt <= t && Snapshot(w, row, ver).settings.revertedAt <= t
  {
    hide LoadRow;
    DefaultStamp();
  }

  lemma TurnStamp(w: World, t: int, i: nat, a: Answers)
    requires NoRevertAfter(w, t)
    ensures ForTurn(w, i, a).settings.revertedAt <= t
  {
    hide LoadRow, Fresh, Snapshot;
    FreshStamp(w, t, i, a.row, a.loadVer);
    FreshStamp(w, t, i, a.row2, a.loadVer2);
  }

  lemma KeepNoRevert(w: World, i: nat, c: Loaded, t: int)
    requires NoRevertAfter(w, t) && c.settings.revertedAt <= t
    ensures NoRevertAfter(w.Keep(i, c), t)
  {
    hide LoadRow;
  }

  lemma PersistNoRevert(w: World, i: nat, c: Loaded, row: Option<Row>, a: AdminAnswers, t: int)
    requires NoRevertAfter(w, t) && c.settings.revertedAt <= t && (row.Some? ==> LoadRow(row).revertedAt <= t)
    ensures NoRevertAfter(Persist(w, i, c, row, a), t)
    ensures Persist(w, i, c, row, a).stickies == w.stickies && Persist(w, i, c, row, a).now == w.now
  {
    hide LoadRow;
  }

  /** A revert is known from the moment it happens on. */
  lemma AdminNoRevert(w: World, step: Step, t: int)
    requires NoRevertAfter(w, t) && Possible(step) && OfAdmin(step) && (step.Revert? ==> w.now <= t)
    ensures NoRevertAfter(Apply(w, step), t) && Apply(w, step).stickies == w.stickies && Apply(w, step).now == w.now
  {
    hide LoadRow, AdminRow, Persist, Apply, NoRevertAfter, Fresh, Possible;
    AdminPersists(w, step);
    AdminRowStamp(w, step);
    FreshStamp(w, t, step.i, step.aa.row, step.aa.loadVer);
    PersistNoRevert(w, step.i, AdminLoad(w, step.i, step.aa), AdminRow(w, step), step.aa, t);
  }

  lemma LoadNoRevert(w: World, step: Step, t: int)
    requires NoRevertAfter(w, t) && (step.Read? || step.BeginLoad? || step.EndLoad?)
    ensures NoRevertAfter(Apply(w, step), t)
  {
    hide LoadRow, Fresh;
    DefaultStamp();
    match step
    case Read(i, row, ver) => FreshStamp(w, t, i, row, ver); KeepNoRevert(w, i, Load(w, i, row, ver), t);
    case EndLoad(i, ver) => FreshStamp(w, t, i, false, ver); KeepNoRevert(w, i, Fresh(w, i, false, ver), t);
    case _ =>
  }

  lemma TurnNoRevert(w: World, step: Step, t: int)
    requires NoRevertAfter(w, t) && step.Turn?
    ensures NoRevertAfter(Apply(w, step), t)
  {
    hide LoadRow, ForTurn, Honoured;
    TurnStamp(w, t, step.i, step.a);
    KeepNoRevert(w, step.i, ForTurn(w, step.i, step.a), t);
  }

  lemma OthersNoRevert(w: World, step: Step, t: int)
    requires NoRevertAfter(w, t) && !OfAdmin(step)
    ensures NoRevertAfter(Apply(w, step), t)
  {
    hide LoadRow, Fresh, ForTurn;
    if step.Turn? {
      TurnNoRevert(w, step, t);
    } else if step.Read? || step.BeginLoad? || step.EndLoad? {
      LoadNoRevert(w, step, t);
    }
  }

  /** The turns of this conversation can read its sticky. */
  predicate ReadsSticky(step: Step, conv: string) { step.Turn? && step.conv == conv ==> step.a.getSticky }

  lemma StickyStays(w: World, step: Step, conv: string)
    requires Possible(step) && !step.Revert? && ReadsSticky(step, conv)
    requires w.Live(conv).Some? && NoRevertAfter(w, w.Live(conv).value.stamp)
    ensures Apply(w, step).stickies == w.stickies || step.Turn?
    ensures conv in Apply(w, step).stickies && Apply(w, step).stickies[conv] == w.stickies[conv]
    ensures NoRevertAfter(Apply(w, step), w.Live(conv).value.stamp)
  {
    hide LoadRow, UpdatedRow, RevertedRow, UndoneRow, ForTurn, NoRevertAfter, Fresh, Persist;
    var t := w.Live(conv).value.stamp;
    if OfAdmin(step) {
      AdminNoRevert(w, step, t);
    } else {
      OthersNoRevert(w, step, t);
      if step.Turn? { TurnStamp(w, t, step.i, step.a); }
    }
  }

  /** Between reverts the mode of a conversation is the one in its sticky for as long as
      the sticky lives: in every process, with every cache, whatever is edited or undone,
      as long as the turns of the conversation can read its sticky. */
  lemma {:induction false} ModeIsConstant(w: World, steps: seq<Step>, conv: string, i: nat, store: Name, a: Answers)
    requires w.Live(conv).Some? && NoRevertAfter(w, w.Live(conv).value.stamp)
    requires AllPossible(steps) && a.getSticky
    requires forall k | 0 <= k < |steps| :: !steps[k].Revert? && ReadsSticky(steps[k], conv)
    requires Run(w, steps).now < w.Live(conv).value.expires
    ensures ModeOf(Run(w, steps), i, conv, store, a) == w.Live(conv).value.mode
    decreases |steps|
  {
    if steps == [] {
      hide LoadRow, ForTurn;
      TurnStamp(w, w.Live(conv).value.stamp, i, a);
    } else {
      hide LoadRow, ForTurn, Apply, NoRevertAfter, ModeOf, Possible, ReadsSticky;
      assert Possible(steps[0]) && ReadsSticky(steps[0], conv);
      StickyStays(w, steps[0], conv);
      TimeGrows(Apply(w, steps[0]), steps[1..]);
      ModeIsConstant(Apply(w, steps[0]), steps[1..], conv, i, store, a);
    }
  }

  lemma {:induction false} TimeGrows(w: World, steps: seq<Step>)
    ensures w.now <= Run(w, steps).now
    decreases |steps|
  {
    if steps != [] {
      hide Apply;
      TimeOnlyGrows(w, steps[0]);
      TimeGrows(Apply(w, steps[0]), steps[1..]);
    }
  }

  lemma LaterNoRevert(w: World, t: int, later: int)
    requires NoRevertAfter(w, t) && t <= later
    ensures NoRevertAfter(w, later)
  {
    hide LoadRow;
  }

  /** No revert is known from the future. */
  lemma StepKnown(w: World, step: Step)
    requires NoRevertAfter(w, w.now) && Possible(step)
    ensures NoRevertAfter(Apply(w, step), Apply(w, step).now)
  {
    hide LoadRow, Apply, NoRevertAfter, Possible;
    TimeOnlyGrows(w, step);
    if OfAdmin(step) {
      AdminNoRevert(w, step, w.now);
    } else {
      OthersNoRevert(w, step, w.now);
      LaterNoRevert(Apply(w, step), w.now, Apply(w, step).now);
    }
  }

  lemma {:induction false} RunKnown(w: World, steps: seq<Step>)
    requires NoRevertAfter(w, w.now) && AllPossible(steps)
    ensures NoRevertAfter(Run(w, steps), Run(w, steps).now)
    decreases |steps|
  {
    if steps != [] {
      hide NoRevertAfter, Apply, Possible;
      assert Possible(steps[0]);
      StepKnown(w, steps[0]);
      RunKnown(Apply(w, steps[0]), steps[1..]);
    }
  }

  /** A turn that makes a sticky starts such a constant stretch of a week. */
  lemma TurnFixesMode(w: World, before: seq<Step>, i: nat, conv: string, store: Name, a: Answers)
    requires Starts(w) && w.Current().revertedAt <= w.now && 0 <= w.now && AllPossible(before)
    requires a.setSticky && Honoured(Run(w, before), conv, ForTurn(Run(w, before), i, a).settings, a).None?
    ensures var s := Run(w, before);
      var s' := Apply(s, Turn(i, conv, store, a));
      && s'.Live(conv) == Some(Sticky(ModeOf(s, i, conv, store, a), s.now, s.now + 604_800_000))
      && NoRevertAfter(s', s.now)
  {
    hide LoadRow, ForTurn, Honoured, Run;
    RunKnown(w, before);
    OthersNoRevert(Run(w, before), Turn(i, conv, store, a), Run(w, before).now);
  }

  /** The exception is real: a conversation made lean in the millisecond of the revert stays lean. */
  lemma SameMillisecondStaysLean(w: World, i: nat, conv: string, store: Name, a: Answers,
      adminId: Option<string>, aa: AdminAnswers)
    requires Starts(w) && w.stickies == map[] && Decide(w.Current(), store) == Lean
    requires a == Answers(true, true, true, true, true, true, true) && aa == AdminAnswers(true, true, true, true)
    ensures var s := Apply(Apply(w, Turn(i, conv, store, a)), Revert(i, adminId, aa));
      NoLean(s.Current()) && ModeOf(s, i, conv, store, a) == Lean
  {
    hide LoadRow, RevertedRow, Loadable;
    var turned := Apply(w, Turn(i, conv, store, a));
    CoherentAtStart(w);
    StepCoherent(w, Turn(i, conv, store, a));
    RevertMeans(turned.Current(), turned.now, adminId);
    RevertStarts(turned, i, adminId, aa);
  }

  /** The other exception lasts: a process with lean settings in its cache whose version
      read fails once, within a minute of an announced revert, makes its conversation lean for
      a week, in every process and with everything answering, until the next revert. */
  lemma MissedRevertLasts(w: World, j: nat, i: nat, adminId: Option<string>, conv: string, store: Name,
      later: seq<Step>, p: nat, a: Answers)
    requires Starts(w) && w.stickies == map[] && 0 <= w.now && w.Current().revertedAt <= w.now
    requires Decide(w.Current(), store) == Lean && i != j
    requires AllPossible(later) && a.getSticky
    requires forall k | 0 <= k < |later| :: !later[k].Revert? && ReadsSticky(later[k], conv)
    ensures var s := Apply(Apply(Apply(w, Read(j, true, true)), Revert(i, adminId, AdminAnswers(true, true, true, true))),
        Turn(j, conv, store, Answers(true, true, false, true, true, true, true)));
      && NoLean(s.Current())
      && (Run(s, later).now < s.now + 604_800_000 ==> ModeOf(Run(s, later), p, conv, store, a) == Lean)
  {
    hide Run, ModeOf, Possible, ReadsSticky;
    var s := MissesRevert(w, j, i, adminId, conv, store);
    if Run(s, later).now < s.now + 604_800_000 { ModeIsConstant(s, later, conv, p, store, a); }
  }

  lemma MissesRevert(w: World, j: nat, i: nat, adminId: Option<string>, conv: string, store: Name) returns (s: World)
    requires Starts(w) && w.stickies == map[] && 0 <= w.now && w.Current().revertedAt <= w.now
    requires Decide(w.Current(), store) == Lean && i != j
    ensures s == Apply(Apply(Apply(w, Read(j, true, true)), Revert(i, adminId, AdminAnswers(true, true, true, true))),
      Turn(j, conv, store, Answers(true, true, false, true, true, true, true)))
    ensures NoLean(s.Current()) && NoRevertAfter(s, s.now) && s.Live(conv) == Some(Sticky(Lean, s.now, s.now + 604_800_000))
  {
    hide LoadRow, RevertedRow, Loadable;
    var w1 := Apply(w, Read(j, true, true));
    var revert := Revert(i, adminId, AdminAnswers(true, true, true, true));
    var w2 := Apply(w1, revert);
    RevertMeans(w.Current(), w.now, adminId);
    s := Apply(w2, Turn(j, conv, store, Answers(true, true, false, true, true, true, true)));
  }
}
