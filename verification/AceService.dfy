/** One server process of ace-config.ts as it runs: the cached settings are a
    field, an update builds its record and its changes in loops, and each method
    does what the step of the same name does in the shared world. */
module AceService {
  import opened JsText
  import opened AceSettings
  import opened AceRevert
  import opened AceEngine

  const PARAM_NAMES: seq<ParamName> := [MemoTtlSec, EmbeddingTtlSec, DedupeWindowSec, OffTopicMax]

  lemma LayerChangesNext(c: Settings, raw: map<Name, Value>, es: seq<(Name, Value)>, i: nat)
    requires Loadable(c) && i < |es|
    ensures LayerChanges(c, es[..i + 1]) == LayerChanges(c, es[..i])
      + if LayerChange(c, es[i].0, es[i].1).Some? then [LayerChange(c, es[i].0, es[i].1).value] else []
    ensures LayersSet(c, raw, es[..i + 1]) == if LayerChange(c, es[i].0, es[i].1).Some?
      then SetOwn(LayersSet(c, raw, es[..i]), es[i].0, es[i].1) else LayersSet(c, raw, es[..i])
  {
    hide LayerChange;
    assert es[..i + 1][..i] == es[..i];
  }

  function ParamsUpTo(c: Settings, asked: map<Name, Value>, i: nat): seq<Change>
    requires Loadable(c) && i <= 4
  {
    if i == 0 then [] else ParamsUpTo(c, asked, i - 1) + ParamChange(c, asked, PARAM_NAMES[i - 1])
  }

  lemma ParamsInOrder(c: Settings, asked: map<Name, Value>)
    requires Loadable(c)
    ensures ParamsUpTo(c, asked, 4) == ParamChanges(c, Some(asked))
  {
    hide ParamChange;
    var a, b, d, e := ParamChange(c, asked, MemoTtlSec), ParamChange(c, asked, EmbeddingTtlSec),
      ParamChange(c, asked, DedupeWindowSec), ParamChange(c, asked, OffTopicMax);
    assert ParamsUpTo(c, asked, 1) == a;
    assert ParamsUpTo(c, asked, 2) == a + b;
    assert ParamsUpTo(c, asked, 3) == a + b + d;
    assert a + b + d + e == a + (b + (d + e));
  }

  /** A settings property is not touched by the layer loop. */
  lemma {:induction false} LoopLeavesSetting(c: Settings, raw: map<Name, Value>, es: seq<(Name, Value)>, k: SettingName, v: Value)
    requires Loadable(c)
    ensures LayersSet(c, raw[Setting(k) := v], es) == LayersSet(c, raw, es)[Setting(k) := v]
  {
    if es != [] {
      hide LayerChange;
      var init, last := es[..|es| - 1], es[|es| - 1];
      LoopLeavesSetting(c, raw, init, k, v);
      if LayerChange(c, last.0, last.1).Some? {
        NoSetting(c, last.0, last.1);
        SetOwnCommutes(LayersSet(c, raw, init), Setting(k), v, last.0, last.1);
      }
    }
  }

  lemma NoSetting(c: Settings, k: Name, v: Value)
    requires Loadable(c) && LayerChange(c, k, v).Some?
    ensures !k.Setting?
  {
  }

  lemma SetOwnCommutes(m: map<Name, Value>, s: Name, x: Value, k: Name, y: Value)
    requires s != k
    ensures SetOwn(m[s := x], k, y) == SetOwn(m, k, y)[s := x]
  {
  }

  lemma SameAgain(m: map<Name, Value>, k: Name, v: Value)
    requires Lookup(m, k) == v && v != Null
    ensures m[k := v] == m
  {
  }

  lemma UnchangedSettings(c: Settings, es: seq<(Name, Value)>)
    requires Loadable(c)
    ensures var raw := LayersSet(c, RawLayers(c), es);
      && raw[Setting(EngineModeName) := EngineValue(c.engineMode)] == raw
      && raw[Setting(StoreOverridesName) := OverridesValue(c.storeOverrides)] == raw
  {
    hide RawLayers, LayersSet, Lookup;
    var raw := LayersSet(c, RawLayers(c), es);
    LayersSetLeaves(c, es, EngineModeName);
    LayersSetLeaves(c, es, StoreOverridesName);
    RawLookups(c, Ledger);
    SameAgain(raw, Setting(EngineModeName), EngineValue(c.engineMode));
    SameAgain(raw, Setting(StoreOverridesName), OverridesValue(c.storeOverrides));
  }

  method CollectLayers(c: Settings, raw: map<Name, Value>, es: seq<(Name, Value)>, before: seq<Change>)
    returns (layers: map<Name, Value>, changes: seq<Change>)
    requires Loadable(c)
    ensures layers == LayersSet(c, raw, es) && changes == before + LayerChanges(c, es)
  {
    hide LayerChange, Loadable;
    layers, changes := raw, before;
    for i := 0 to |es|
      invariant layers == LayersSet(c, raw, es[..i])
      invariant changes == before + LayerChanges(c, es[..i])
    {
      LayerChangesNext(c, raw, es, i);
      var ch := LayerChange(c, es[i].0, es[i].1);
      if ch.Some? {
        changes := changes + [ch.value];
        layers := SetOwn(layers, es[i].0, es[i].1);
      }
    }
    assert es[..|es|] == es;
  }

  method CollectParams(c: Settings, asked: map<Name, Value>, before: seq<Change>) returns (changes: seq<Change>)
    requires Loadable(c)
    ensures changes == before + ParamChanges(c, Some(asked))
  {
    hide Loadable;
    changes := before;
    for i := 0 to 4
      invariant changes == before + ParamsUpTo(c, asked, i)
    {
      var n := Param(PARAM_NAMES[i]);
      var merged := c.params + asked;
      EveryParam(c, PARAM_NAMES[i]);
      if n in asked && !Identical(merged[n], c.params[n]) {
        changes := changes + [Change(ParamField(n), c.params[n], merged[n])];
      }
    }
    ParamsInOrder(c, asked);
  }

  lemma EveryParam(c: Settings, p: ParamName)
    requires Loadable(c)
    ensures Param(p) in c.params
  {
  }

  /** The record and the parameters that an update stores, built in the order of the code. */
  method RowToStore(c: Settings, patch: Patch, at: int, adminId: Option<string>) returns (r: Option<Row>)
    requires Loadable(c)
    ensures r == UpdatedRow(c, patch, at, adminId)
  {
    hide RawLayers, LayersSet, LayerChanges, ParamChange, OverridesValue, WithAudit, Loadable, EngineValue, SameOverride;
    var layers := RawLayers(c);
    var changes := [];
    UnchangedSettings(c, patch.layers);
    if patch.engineMode.Some? && patch.engineMode.value != c.engineMode {
      changes := changes + [Change(EngineField, EngineValue(c.engineMode), EngineValue(patch.engineMode.value))];
      LoopLeavesSetting(c, layers, patch.layers, EngineModeName, EngineValue(patch.engineMode.value));
      layers := layers[Setting(EngineModeName) := EngineValue(patch.engineMode.value)];
    }
    assert changes == EngineChanges(c, patch.engineMode);
    layers, changes := CollectLayers(c, layers, patch.layers, changes);
    ghost var engineMode := if patch.engineMode.Some? then patch.engineMode.value else c.engineMode;
    assert layers == LayersSet(c, RawLayers(c), patch.layers)[Setting(EngineModeName) := EngineValue(engineMode)];
    layers, changes := SetOverride(c, layers, patch, changes);
    var params := c.params;
    if patch.params.Some? {
      changes := CollectParams(c, patch.params.value, changes);
      params := c.params + patch.params.value;
    }
    ChangesInOrder(c, patch, changes);
    if changes == [] { return None; }
    r := Some(Row(layers[Setting(AuditName) := List(WithAudit(c, at, adminId, changes))], params));
  }

  method SetOverride(c: Settings, layers: map<Name, Value>, patch: Patch, before: seq<Change>)
    returns (after: map<Name, Value>, changes: seq<Change>)
    requires Loadable(c) && Lookup(layers, Setting(StoreOverridesName)) == OverridesValue(c.storeOverrides)
    ensures after == layers[Setting(StoreOverridesName) := OverridesValue(OverridesSet(c, patch.storeOverride))]
    ensures changes == before + OverrideChanges(c, patch.storeOverride)
  {
    after, changes := layers, before;
    if patch.storeOverride.Some? {
      var sid, mode := patch.storeOverride.value.0, patch.storeOverride.value.1;
      if !SameOverride(c, sid, mode) {
        var so := if mode.Some? then SetOwn(c.storeOverrides, sid, mode.value) else c.storeOverrides - {sid};
        after := after[Setting(StoreOverridesName) := OverridesValue(so)];
        changes := changes
          + [Change(OverrideField(sid), OverrideText(c, sid), if mode.Some? then EngineValue(mode.value) else Null)];
        return;
      }
      SameOverrideSets(c, sid, mode);
    }
    SameAgain(layers, Setting(StoreOverridesName), OverridesValue(c.storeOverrides));
  }

  lemma SameOverrideSets(c: Settings, sid: Name, mode: Option<EngineMode>)
    requires SameOverride(c, sid, mode)
    ensures OverridesSet(c, Some((sid, mode))) == c.storeOverrides
  {
  }

  lemma ChangesInOrder(c: Settings, p: Patch, changes: seq<Change>)
    requires Loadable(c)
    requires changes == EngineChanges(c, p.engineMode) + LayerChanges(c, p.layers)
      + OverrideChanges(c, p.storeOverride) + ParamChanges(c, p.params)
    ensures changes == Changes(c, p)
  {
    hide LayerChanges, ParamChanges, EngineChanges, OverrideChanges;
  }

  /** What an administrator's request answers: whether something was undone, or an error. */
  datatype Reply = Answered(undone: bool) | Failed

  /** The answer to an undo request: an entry without old values and a failed save throw. */
  function UndoReply(u: Undo, saved: bool): Reply {
    match u
    case NothingToUndo => Answered(false)
    case Threw => Failed
    case Undone(_) => if saved then Answered(true) else Failed
  }

  class AceConfig {
    var now: int
    var row: Option<Row>
    var ver: nat
    var stickies: map<string, Sticky>
    var cached: Option<Loaded>
    var loading: Option<Option<Row>>
    ghost var changedAt: int

    /** The world as this process, number 0, sees it. */
    ghost function View(): World
      reads this
    {
      World(now, row, ver, stickies, if cached.Some? then map[0 := cached.value] else map[],
        if loading.Some? then map[0 := loading.value] else map[], changedAt)
    }

    predicate Cached()
      reads this
    {
      cached.Some? && now - cached.value.at < CACHE_MS
    }

    /** While a load is in flight no cache is alive. */
    ghost predicate Valid()
      reads this
    {
      loading.Some? ==> !Cached()
    }

    /** The first half of a load that goes on in the background: the row is read. */
    method BeginLoading(rowAnswers: bool)
      requires Valid()
      modifies `loading
      ensures Valid() && View() == Apply(old(View()), BeginLoad(0, rowAnswers))
    {
      if Cached() || loading.Some? { return; }
      loading := Some(if rowAnswers then row else None);
    }

    /** Its second half: the version is read, and the settings are cached. */
    method EndLoading(verAnswers: bool)
      requires Valid()
      modifies `cached, `loading
      ensures Valid() && View() == Apply(old(View()), EndLoad(0, verAnswers))
    {
      hide LoadRow;
      if loading.Some? {
        var _ := Load(false, verAnswers);
      }
    }

    /** The row, or what the load in flight has read of it; then the version. */
    method LoadFresh(rowAnswers: bool, verAnswers: bool) returns (c: Loaded)
      ensures c == Fresh(View(), 0, rowAnswers, verAnswers)
    {
      var r := if loading.Some? then loading.value else if rowAnswers then row else None;
      var v := 0;
      if verAnswers { v := ver; }
      c := Loaded(now, LoadRow(r), v);
    }

    method Load(rowAnswers: bool, verAnswers: bool) returns (c: Loaded)
      requires Valid()
      modifies `cached, `loading
      ensures c == AceEngine.Load(old(View()), 0, rowAnswers, verAnswers)
      ensures cached == Some(c) && loading == None
    {
      if Cached() { return cached.value; }
      c := LoadFresh(rowAnswers, verAnswers);
      cached, loading := Some(c), None;
    }

    method FreshForTurn(a: Answers) returns (c: Loaded)
      requires Valid()
      modifies `cached, `loading
      ensures c == ForTurn(old(View()), 0, a)
      ensures cached == Some(c) && loading == None
    {
      hide LoadRow;
      c := Load(a.row, a.loadVer);
      if a.turnVer && ver != c.ver {
        cached := None;
        c := Load(a.row2, a.loadVer2);
      }
    }

    method ResolveEngineMode(conv: string, store: Name, a: Answers) returns (mode: EngineMode)
      requires Valid()
      modifies this
      ensures mode == ModeOf(old(View()), 0, conv, store, a)
      ensures Valid() && View() == Apply(old(View()), Turn(0, conv, store, a))
    {
      hide LoadRow, ForTurn, Decide;
      var c := FreshForTurn(a);
      if a.getSticky && conv in stickies && now < stickies[conv].expires {
        if stickies[conv].stamp >= c.settings.revertedAt { return stickies[conv].mode; }
      }
      mode := Decide(c.settings, store);
      if a.setSticky { stickies := stickies[conv := Sticky(mode, now, now + STICKY_MS)]; }
    }

    /** Saves, forgets the cache, announces; false if saving throws. */
    method Store(r: Row, aa: AdminAnswers) returns (saved: bool)
      requires cached.Some? && loading == None
      modifies this
      ensures View() == Persist(old(View()), 0, old(cached.value), Some(r), aa)
      ensures saved == aa.save && loading == None
    {
      if !aa.save { return false; }
      row, changedAt := Some(r), now;
      cached := None;
      if aa.incr { ver := ver + 1; }
      return true;
    }

    method UpdateAceSettings(patch: Patch, adminId: Option<string>, aa: AdminAnswers)
      requires Valid()
      modifies this
      ensures Valid() && View() == Apply(old(View()), Edit(0, patch, adminId, aa))
    {
      hide LoadRow, UndoneRow, RevertedRow, UpdatedRow, Resolve, Loadable, Persist;
      ghost var before := View();
      var c := LoadForAdmin(aa);
      var r := RowToStore(c.settings, patch, now, adminId);
      if r.Some? { var _ := Store(r.value, aa); }
      PersistFromLoaded(before, c, r, aa);
    }

    /** `cached = null` and a load. */
    method LoadForAdmin(aa: AdminAnswers) returns (c: Loaded)
      requires Valid()
      modifies `cached, `loading
      ensures c == AdminLoad(old(View()), 0, aa)
      ensures cached == Some(c) && loading == None && View() == old(View()).Keep(0, c)
    {
      hide LoadRow;
      cached := None;
      c := Load(aa.row, aa.loadVer);
    }

    method EmergencyRevertToStable(adminId: Option<string>, aa: AdminAnswers)
      requires Valid()
      modifies this
      ensures Valid() && View() == Apply(old(View()), Revert(0, adminId, aa))
    {
      hide LoadRow, UndoneRow, UpdatedRow, Resolve, Loadable, RawLayers, WithAudit, RevertChange, Persist;
      ghost var before := View();
      var c := LoadForAdmin(aa);
      var layers := RawLayers(c.settings);
      layers := layers[Setting(EngineModeName) := EngineValue(Stable)];
      layers := layers[Setting(StoreOverridesName) := Object(map[])];
      layers := layers[Setting(RevertedAtName) := Number(now)];
      layers := layers[Setting(AuditName) := List(WithAudit(c.settings, now, adminId, [RevertChange(c.settings)]))];
      var r := Row(layers, c.settings.params);
      var _ := Store(r, aa);
      PersistFromLoaded(before, c, Some(r), aa);
    }

    method UndoEmergencyRevert(adminId: Option<string>, aa: AdminAnswers) returns (reply: Reply)
      requires Valid()
      modifies this
      ensures Valid() && View() == Apply(old(View()), UndoRevert(0, adminId, aa))
      ensures var u := UndoneRow(AdminLoad(old(View()), 0, aa).settings, old(now), adminId);
        && reply == UndoReply(u, aa.save)
        && (reply == Answered(true) <==> u.Undone? && aa.save)
        && (reply == Answered(false) <==> u.NothingToUndo?)
    {
      hide LoadRow, UndoneRow, RevertedRow, UpdatedRow, Resolve, Loadable, Persist;
      ghost var before := View();
      var c := LoadForAdmin(aa);
      var u := UndoneRow(c.settings, now, adminId);
      if u.NothingToUndo? { reply := Answered(false); }
      else if u.Threw? { reply := Failed; }
      else {
        var saved := Store(u.row, aa);
        reply := if saved then Answered(true) else Failed;
      }
      PersistFromLoaded(before, c, if u.Undone? then Some(u.row) else None, aa);
    }
  }

  /** Saving after a load is saving from the world before it. */
  lemma PersistFromLoaded(w: World, c: Loaded, row: Option<Row>, aa: AdminAnswers)
    ensures Persist(w.Keep(0, c), 0, c, row, aa) == Persist(w, 0, c, row, aa)
    ensures Persist(w, 0, c, None, aa) == w.Keep(0, c)
  {
    var k := w.Keep(0, c);
    assert k.caches[0 := c] == k.caches && k.loading - {0} == k.loading;
    assert k.caches - {0} == w.caches - {0};
  }
}
