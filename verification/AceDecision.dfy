/** What decides the engine mode of a conversation that no sticky decides, from the request
    of the administrator to the turn that gets the mode. */
module AceDecision {
  import opened JsText
  import opened AceSettings
  import opened AceHistory
  import opened AceEngine

  /** No sticky decides: it cannot be read, there is none, its week is over, or it is from before a revert. */
  predicate Unstuck(s: World, conv: string, a: Answers) {
    !a.getSticky || conv !in s.stickies || s.now >= s.stickies[conv].expires
    || s.stickies[conv].stamp < s.Current().revertedAt
  }

  predicate NoAdmin(steps: seq<Step>) { forall k | 0 <= k < |steps| :: !OfAdmin(steps[k]) }

  lemma OthersKeepRow(w: World, step: Step)
    requires !OfAdmin(step)
    ensures Apply(w, step).row == w.row && Alone(w, step)
  {
    hide LoadRow, Honoured, Decide;
  }

  lemma {:induction false} KeepsRow(w: World, steps: seq<Step>)
    requires NoAdmin(steps)
    ensures Run(w, steps).row == w.row && AllAlone(w, steps)
    decreases |steps|
  {
    hide Apply, Alone;
    if steps != [] {
      OthersKeepRow(w, steps[0]);
      KeepsRow(Apply(w, steps[0]), steps[1..]);
    }
  }

  /** A turn that sees the settings as they are and has no sticky gets what they say of its store. */
  lemma SettingsDecide(s: World, j: nat, conv: string, t: Name, a: Answers)
    requires Coherent(s) && a.row && a.row2 && a.turnVer && Unstuck(s, conv, a)
    ensures var c := s.Current();
      ModeOf(s, j, conv, t, a) == if t in c.storeOverrides then c.storeOverrides[t] else c.engineMode
  {
    hide LoadRow, ForTurn, Coherent;
    CoherentTurn(s, j, a);
  }

  /** The modes that an update leaves. */
  lemma ModesAfter(w: World, i: nat, patch: Patch, adminId: Option<string>, aa: AdminAnswers, t: Name)
    requires Timely(w) && aa.row && aa.save && DistinctNames(patch.layers) && !t.Inherited()
    ensures var was, c := w.Current(), Apply(w, Edit(i, patch, adminId, aa)).Current();
      && c.engineMode == (if patch.engineMode.Some? then patch.engineMode.value else was.engineMode)
      && (if patch.storeOverride.Some? && patch.storeOverride.value.0 == t then
            if patch.storeOverride.value.1.Some?
            then t in c.storeOverrides && c.storeOverrides[t] == patch.storeOverride.value.1.value
            else t !in c.storeOverrides
          else (t in c.storeOverrides <==> t in was.storeOverrides)
               && (t in was.storeOverrides ==> c.storeOverrides[t] == was.storeOverrides[t]))
  {
    hide LoadRow, UpdatedRow, Changes;
    AdminLoadsCurrent(w, i, aa);
    var was := w.Current();
    UpdateMeans(was, patch, w.now, adminId);
    if Changes(was, patch) == [] { NothingAsked(was, patch); }
  }

  lemma NothingAsked(c: Settings, patch: Patch)
    requires Loadable(c) && Changes(c, patch) == []
    ensures patch.engineMode.Some? ==> patch.engineMode.value == c.engineMode
    ensures patch.storeOverride.Some? ==> SameOverride(c, patch.storeOverride.value.0, patch.storeOverride.value.1)
  {
    hide LayerChanges, ParamChanges;
  }

  /** The settings as an administrator's request finds them, and the world some steps after it. */
  function Found(w: World, before: seq<Step>): Settings { Run(w, before).Current() }

  function Later(w: World, before: seq<Step>, edit: Step, later: seq<Step>): World {
    Run(Apply(Run(w, before), edit), later)
  }

  /** An announced update in an announced run, while no other process loads, and no other after it. */
  ghost predicate AnnouncedEdit(w: World, before: seq<Step>, edit: Step, later: seq<Step>) {
    && Starts(w) && AllAnnounced(before) && AllAlone(w, before)
    && edit.Edit? && edit.aa.row && edit.aa.save && edit.aa.incr && DistinctNames(edit.patch.layers)
    && Alone(Run(w, before), edit) && AllAnnounced(later) && NoAdmin(later)
  }

  /** A turn that can read the row and the version, of a conversation that no sticky decides. */
  predicate FreshTurn(s: World, conv: string, a: Answers) { a.row && a.row2 && a.turnVer && Unstuck(s, conv, a) }

  lemma EditIsSeen(w: World, before: seq<Step>, edit: Step, later: seq<Step>)
    requires AnnouncedEdit(w, before, edit, later)
    ensures Timely(Run(w, before)) && Coherent(Run(w, before)) && Coherent(Later(w, before, edit, later))
    ensures Later(w, before, edit, later).Current() == Apply(Run(w, before), edit).Current()
  {
    hide LoadRow, Run, Apply, Coherent, Alone, AllAlone, AllAnnounced, Announced;
    CoherentAtStart(w);
    RunCoherent(w, before);
    CoherentIsTimely(Run(w, before));
    EditAnnounced(edit);
    StepCoherent(Run(w, before), edit);
    KeepsRow(Apply(Run(w, before), edit), later);
    RunCoherent(Apply(Run(w, before), edit), later);
  }

  lemma EditAnnounced(edit: Step)
    requires edit.Edit? && edit.aa.row && edit.aa.incr
    ensures Announced(edit)
  {
  }

  /** From the request to the turn: after an announced update a new conversation gets the mode that the
      update asked for its store; else the one stored for its store before; else the default that the
      update asked for; else the one stored before. */
  lemma NewConversations(w: World, before: seq<Step>, edit: Step, later: seq<Step>, j: nat, conv: string, t: Name, a: Answers)
    requires AnnouncedEdit(w, before, edit, later) && !t.Inherited()
    requires FreshTurn(Later(w, before, edit, later), conv, a)
    ensures var was, asked := Found(w, before), edit.patch.storeOverride;
      var usual := if edit.patch.engineMode.Some? then edit.patch.engineMode.value else was.engineMode;
      ModeOf(Later(w, before, edit, later), j, conv, t, a) ==
        if asked.Some? && asked.value.0 == t then
          if asked.value.1.Some? then asked.value.1.value else usual
        else if t in was.storeOverrides then was.storeOverrides[t] else usual
  {
    hide LoadRow, Run, Apply, Coherent, ModeOf, Alone, AnnouncedEdit, Unstuck;
    EditIsSeen(w, before, edit, later);
    EditParts(w, before, edit, later);
    ModesAfter(Run(w, before), edit.i, edit.patch, edit.adminId, edit.aa, t);
    SettingsDecide(Later(w, before, edit, later), j, conv, t, a);
  }

  lemma EditParts(w: World, before: seq<Step>, edit: Step, later: seq<Step>)
    requires AnnouncedEdit(w, before, edit, later)
    ensures edit.Edit? && edit.aa.row && edit.aa.save && DistinctNames(edit.patch.layers)
  {
  }

  /** New conversations of a store that an update does not speak of get the mode that they would have got before it. */
  lemma OtherStoresKeepMode(w: World, before: seq<Step>, edit: Step, later: seq<Step>, j: nat, conv: string, t: Name, a: Answers)
    requires AnnouncedEdit(w, before, edit, later) && !t.Inherited()
    requires FreshTurn(Later(w, before, edit, later), conv, a) && FreshTurn(Run(w, before), conv, a)
    requires edit.patch.engineMode.None? && (edit.patch.storeOverride.Some? ==> edit.patch.storeOverride.value.0 != t)
    ensures ModeOf(Later(w, before, edit, later), j, conv, t, a) == ModeOf(Run(w, before), j, conv, t, a)
  {
    hide LoadRow, Run, Apply, Coherent, ModeOf, Alone, AnnouncedEdit, Unstuck;
    EditIsSeen(w, before, edit, later);
    NewConversations(w, before, edit, later, j, conv, t, a);
    SettingsDecide(Run(w, before), j, conv, t, a);
  }

  // ----- a change that is not announced -----

  /** A saved change whose `INCR` fails: another process with settings less than a minute old goes on with them, and so
      do its turns, until they are a minute old; then it reads the new ones. */
  lemma UnannouncedIsLate(w: World, step: Step, j: nat, ms: nat, a: Answers)
    requires OfAdmin(step) && step.aa.save && !step.aa.incr && AdminRow(w, step).Some?
    requires j != step.i && w.Cached(j) && w.caches[j].ver == w.ver && j !in w.loading && a.row && a.row2
    ensures var t := Apply(Apply(w, step), Tick(ms));
      ForTurn(t, j, a).settings ==
        if w.now + ms - w.caches[j].at < 60_000 then w.caches[j].settings else LoadRow(AdminRow(w, step))
  {
    hide LoadRow, AdminRow, ForTurn;
    AdminWrites(w, step);
    var s := Apply(w, step);
    TickOnly(s, ms);
    YoungOrNew(Apply(s, Tick(ms)), j, a);
  }

  lemma AdminWrites(w: World, step: Step)
    requires OfAdmin(step) && step.aa.save && AdminRow(w, step).Some?
    ensures var s := Apply(w, step);
      && s.row == AdminRow(w, step) && s.now == w.now && s.ver == w.ver + (if step.aa.incr then 1 else 0)
      && s.caches == w.caches - {step.i} && s.loading == w.loading - {step.i}
  {
    hide LoadRow, UpdatedRow;
  }

  lemma TickOnly(s: World, ms: nat)
    ensures Apply(s, Tick(ms)) == s.(now := s.now + ms)
  {
    hide LoadRow;
  }

  lemma YoungOrNew(t: World, j: nat, a: Answers)
    requires j in t.caches && j !in t.loading && a.row && a.row2 && t.caches[j].ver == t.ver
    ensures ForTurn(t, j, a).settings == if t.now - t.caches[j].at < 60_000 then t.caches[j].settings else LoadRow(t.row)
  {
    hide LoadRow;
  }
}
