/** The settings record of ace-config.ts: how it is stored and loaded, changed
    by an administrator, reverted in an emergency, and un-reverted. */
module AceSettings {
  import opened JsText

  datatype LayerName =
    | Ledger | PromptCache | Memo | EmbedCache | SubcallDiet | LoopDiet | Dedupe
    | OffTopicBudget | FastAnswers | SemanticCache | TtsCache | ProductBrief

  datatype SettingName = EngineModeName | StoreOverridesName | AuditName | RevertedAtName

  datatype ParamName = MemoTtlSec | EmbeddingTtlSec | DedupeWindowSec | OffTopicMax

  /** A property name. Names that mean something to the code, and those that every
      JavaScript object inherits, have constructors of their own. */
  datatype Name =
    | Layer(layer: LayerName) | Setting(setting: SettingName) | Param(param: ParamName)
    | Builtin(name: string) | Proto | Plain(text: string)
  {
    predicate Inherited() { Builtin? || Proto? }
  }

  datatype LayerMode = Off | Shadow | On

  datatype EngineMode = Stable | Lean

  /** A stored value of unknown shape. */
  datatype Value = Null | Text(text: string) | Number(n: int) | Object(fields: map<Name, Value>) | List(entries: seq<Entry>) {
    predicate Container() { Object? || List? }
  }

  datatype Field = EngineField | LayerField(name: Name) | OverrideField(store: Name) | ParamField(param: Name)
                 | RevertField | UndoField

  datatype Change = Change(field: Field, from: Value, to: Value)

  datatype Entry = Entry(at: int, adminId: Option<string>, change: Change)

  datatype Settings = Settings(
    layers: map<LayerName, LayerMode>, engineMode: EngineMode, storeOverrides: map<Name, EngineMode>,
    audit: seq<Entry>, revertedAt: int, params: map<Name, Value>)

  datatype Row = Row(layers: map<Name, Value>, params: map<Name, Value>)

  const AUDIT_MAX := 50

  function DefaultMode(l: LayerName): LayerMode { if l.Ledger? then On else Off }

  const DEFAULT_PARAMS: map<Name, Value> := map[
    Param(MemoTtlSec) := Number(3600), Param(EmbeddingTtlSec) := Number(604800),
    Param(DedupeWindowSec) := Number(30), Param(OffTopicMax) := Number(3)]

  // ----- modes as text -----

  function ModeValue(m: LayerMode): Value {
    match m
    case Off => Text("off")
    case Shadow => Text("shadow")
    case On => Text("on")
  }

  function ReadMode(v: Value): Option<LayerMode> {
    if v == Text("off") then Some(Off) else if v == Text("shadow") then Some(Shadow)
    else if v == Text("on") then Some(On) else None
  }

  function EngineValue(m: EngineMode): Value { if m.Stable? then Text("stable") else Text("lean") }

  function ReadEngine(v: Value): Option<EngineMode> {
    if v == Text("stable") then Some(Stable) else if v == Text("lean") then Some(Lean) else None
  }

  lemma ModesReadBack(m: LayerMode, e: EngineMode)
    ensures ReadMode(ModeValue(m)) == Some(m) && ReadEngine(EngineValue(e)) == Some(e)
  {
    assert |"off"| == 3 && |"shadow"| == 6 && |"on"| == 2 && |"stable"| == 6 && |"lean"| == 4;
  }

  lemma ReadModeIs(v: Value)
    requires ReadMode(v).Some?
    ensures v == ModeValue(ReadMode(v).value)
  {
  }

  // ----- storing and loading -----

  function OverridesValue(so: map<Name, EngineMode>): Value {
    Object(map sid | sid in so :: EngineValue(so[sid]))
  }

  function LayersValue(layers: map<LayerName, LayerMode>): map<Name, Value> {
    map k: Name | k in (set l | l in layers :: Layer(l)) :: ModeValue(layers[k.layer])
  }

  /** The record that is stored for loaded settings. */
  function RawLayers(c: Settings): map<Name, Value> {
    LayersValue(c.layers)
    + map[Setting(EngineModeName) := EngineValue(c.engineMode),
          Setting(StoreOverridesName) := OverridesValue(c.storeOverrides),
          Setting(AuditName) := List(c.audit),
          Setting(RevertedAtName) := Number(c.revertedAt)]
  }

  function Lookup(m: map<Name, Value>, k: Name): Value { if k in m then m[k] else Null }

  function First(es: seq<Entry>): seq<Entry> { if |es| <= AUDIT_MAX then es else es[..AUDIT_MAX] }

  /** Overrides whose mode is known; assigning to `__proto__` creates no entry. */
  function ReadOverrides(v: Value): map<Name, EngineMode> {
    if v.Object? then
      map sid | sid in v.fields && ReadEngine(v.fields[sid]).Some? && sid != Proto :: ReadEngine(v.fields[sid]).value
    else map[]
  }

  function ReadLayer(l: map<Name, Value>, k: LayerName): LayerMode {
    match ReadMode(Lookup(l, Layer(k)))
    case Some(m) => m
    case None => DefaultMode(k)
  }

  /** Settings that a load can produce. */
  predicate Loadable(c: Settings) {
    && (forall k: LayerName :: k in c.layers)
    && |c.audit| <= AUDIT_MAX && Proto !in c.storeOverrides
    && (forall p: ParamName :: Param(p) in c.params)
  }

  lemma LoadedComplete(params: map<Name, Value>)
    ensures forall p: ParamName :: Param(p) in DEFAULT_PARAMS + params
  {
    forall p: ParamName ensures Param(p) in DEFAULT_PARAMS + params { DefaultParam(p); }
  }

  lemma DefaultParam(p: ParamName)
    ensures Param(p) in DEFAULT_PARAMS
  {
  }

  /** What a load makes of the stored row, or of no row at all. */
  function LoadRow(row: Option<Row>): (c: Settings)
    ensures Loadable(c) && |c.audit| <= 50
  {
    LoadedComplete(if row.Some? then row.value.params else map[]);
    var l := if row.Some? then row.value.layers else map[];
    var engine := ReadEngine(Lookup(l, Setting(EngineModeName)));
    var audit := Lookup(l, Setting(AuditName));
    var revertedAt := Lookup(l, Setting(RevertedAtName));
    Settings(
      map k: LayerName | true :: ReadLayer(l, k),
      if engine.Some? then engine.value else Stable,
      ReadOverrides(Lookup(l, Setting(StoreOverridesName))),
      if audit.List? then First(audit.entries) else [],
      if revertedAt.Number? then revertedAt.n else 0,
      DEFAULT_PARAMS + if row.Some? then row.value.params else map[])
  }

  lemma DefaultsAreParams(n: Name)
    ensures n in DEFAULT_PARAMS ==> n.Param?
  {
  }

  lemma RawLookups(c: Settings, k: LayerName)
    requires k in c.layers
    ensures Lookup(RawLayers(c), Layer(k)) == ModeValue(c.layers[k])
    ensures Lookup(RawLayers(c), Setting(EngineModeName)) == EngineValue(c.engineMode)
    ensures Lookup(RawLayers(c), Setting(StoreOverridesName)) == OverridesValue(c.storeOverrides)
    ensures Lookup(RawLayers(c), Setting(AuditName)) == List(c.audit)
    ensures Lookup(RawLayers(c), Setting(RevertedAtName)) == Number(c.revertedAt)
  {
  }

  lemma LayersReadBack(l: map<Name, Value>, layers: map<LayerName, LayerMode>)
    requires forall k: LayerName :: k in layers && Lookup(l, Layer(k)) == ModeValue(layers[k])
    ensures (map k: LayerName | true :: ReadLayer(l, k)) == layers
  {
    hide Lookup, ModeValue, ReadMode;
    forall k: LayerName ensures ReadLayer(l, k) == layers[k] { ModesReadBack(layers[k], Stable); }
  }

  lemma ParamsComplete(params: map<Name, Value>)
    requires forall p: ParamName :: Param(p) in params
    ensures DEFAULT_PARAMS + params == params
  {
    forall n | n in DEFAULT_PARAMS ensures n in params { DefaultsAreParams(n); }
  }

  /** A record whose properties hold these settings loads as these settings. */
  lemma LoadIs(l: map<Name, Value>, c: Settings)
    requires Loadable(c)
    requires forall k: LayerName :: Lookup(l, Layer(k)) == ModeValue(c.layers[k])
    requires Lookup(l, Setting(EngineModeName)) == EngineValue(c.engineMode)
    requires Lookup(l, Setting(StoreOverridesName)) == OverridesValue(c.storeOverrides)
    requires Lookup(l, Setting(AuditName)) == List(c.audit)
    requires Lookup(l, Setting(RevertedAtName)) == Number(c.revertedAt)
    ensures LoadRow(Some(Row(l, c.params))) == c
  {
    hide Lookup, ModeValue, ReadMode, ReadEngine, EngineValue, ReadOverrides, OverridesValue, ReadLayer;
    LayersReadBack(l, c.layers);
    ParamsComplete(c.params);
    OverridesReadBack(c.storeOverrides);
    ModesReadBack(On, c.engineMode);
  }

  /** Loading what was stored gives the same settings again. */
  lemma StoreLoad(c: Settings)
    requires Loadable(c)
    ensures LoadRow(Some(Row(RawLayers(c), c.params))) == c
  {
    hide RawLayers, Lookup, ModeValue;
    forall k: LayerName ensures Lookup(RawLayers(c), Layer(k)) == ModeValue(c.layers[k]) { RawLookups(c, k); }
    RawLookups(c, Ledger);
    LoadIs(RawLayers(c), c);
  }

  /** Nothing stored: every layer off but the ledger, everyone stable, and the four parameters. */
  lemma NothingStored()
    ensures var c := LoadRow(None);
      && (forall k: LayerName :: c.layers[k] == if k.Ledger? then On else Off)
      && c.engineMode == Stable && c.storeOverrides == map[] && c.audit == [] && c.revertedAt == 0
      && c.params[Param(MemoTtlSec)] == Number(3600) && c.params[Param(EmbeddingTtlSec)] == Number(604_800)
      && c.params[Param(DedupeWindowSec)] == Number(30) && c.params[Param(OffTopicMax)] == Number(3)
  {
  }

  /** Field by field: a stored mode counts if it is one of the known texts, and anything else is as if
      nothing were stored there. */
  lemma KnownTextsCount(row: Row, k: LayerName, sid: Name)
    ensures var c, v := LoadRow(Some(row)), Lookup(row.layers, Layer(k));
      c.layers[k] == if v == Text("off") then Off else if v == Text("shadow") then Shadow else if v == Text("on") then On
                     else LoadRow(None).layers[k]
    ensures LoadRow(Some(row)).engineMode == if Lookup(row.layers, Setting(EngineModeName)) == Text("lean") then Lean else Stable
    ensures var so, v := LoadRow(Some(row)).storeOverrides, Lookup(row.layers, Setting(StoreOverridesName));
      && (sid in so <==> v.Object? && sid in v.fields && sid != Proto && (v.fields[sid] == Text("lean") || v.fields[sid] == Text("stable")))
      && (sid in so ==> (so[sid] == Lean <==> v.fields[sid] == Text("lean")))
    ensures var v := Lookup(row.layers, Setting(RevertedAtName)); LoadRow(Some(row)).revertedAt == if v.Number? then v.n else 0
    ensures forall n | n in row.params :: n in LoadRow(Some(row)).params && LoadRow(Some(row)).params[n] == row.params[n]
  {
    TextsDiffer();
  }

  lemma TextsDiffer()
    ensures Text("lean") != Text("stable") && Text("off") != Text("on") && Text("on") != Text("shadow") && Text("off") != Text("shadow")
  {
    assert |"off"| == 3 && |"shadow"| == 6 && |"on"| == 2 && |"stable"| == 6 && |"lean"| == 4;
  }

  lemma OverridesReadBack(so: map<Name, EngineMode>)
    requires Proto !in so
    ensures ReadOverrides(OverridesValue(so)) == so
  {
    forall sid | sid in so ensures ReadEngine(EngineValue(so[sid])) == Some(so[sid]) { ModesReadBack(On, so[sid]); }
  }

  // ----- an update -----

  datatype Patch = Patch(
    engineMode: Option<EngineMode>, layers: seq<(Name, Value)>, params: Option<map<Name, Value>>,
    storeOverride: Option<(Name, Option<EngineMode>)>)

  /** The names of one object are different. */
  predicate DistinctNames(es: seq<(Name, Value)>) { forall i, j | 0 <= i < j < |es| :: es[i].0 != es[j].0 }

  function EngineChanges(c: Settings, asked: Option<EngineMode>): seq<Change> {
    if asked.Some? && asked.value != c.engineMode
    then [Change(EngineField, EngineValue(c.engineMode), EngineValue(asked.value))] else []
  }

  /** What is stored of an inherited value: nothing of a function, an empty object of the
      prototype itself. */
  function InheritedValue(k: Name): Value { if k.Proto? then Object(map[]) else Null }

  /** `k in DEFAULT_LAYERS` also holds of inherited names, whose current "mode" is an
      inherited value: it differs from every mode. */
  function LayerChange(c: Settings, k: Name, v: Value): Option<Change>
    requires Loadable(c)
  {
    if !(k.Layer? || k.Inherited()) || ReadMode(v).None? then None
    else if k.Layer? && ModeValue(c.layers[k.layer]) == v then None
    else Some(Change(LayerField(k), if k.Layer? then ModeValue(c.layers[k.layer]) else InheritedValue(k), v))
  }

  function LayerChanges(c: Settings, es: seq<(Name, Value)>): seq<Change>
    requires Loadable(c)
  {
    if es == [] then [] else
    var last := es[|es| - 1];
    var ch := LayerChange(c, last.0, last.1);
    LayerChanges(c, es[..|es| - 1]) + if ch.Some? then [ch.value] else []
  }

  /** `o[k] = v`; an assignment to `__proto__` creates no property. */
  function SetOwn<T>(m: map<Name, T>, k: Name, v: T): map<Name, T> { if k.Proto? then m else m[k := v] }

  /** The raw record after the layer loop. */
  function LayersSet(c: Settings, raw: map<Name, Value>, es: seq<(Name, Value)>): map<Name, Value>
    requires Loadable(c)
  {
    if es == [] then raw else
    var before, last := LayersSet(c, raw, es[..|es| - 1]), es[|es| - 1];
    if LayerChange(c, last.0, last.1).Some? then SetOwn(before, last.0, last.1) else before
  }

  /** `prev === mode`; the previous value of an inherited name is no mode. */
  predicate SameOverride(c: Settings, sid: Name, mode: Option<EngineMode>) {
    if sid in c.storeOverrides then mode == Some(c.storeOverrides[sid]) else mode.None? && !sid.Inherited()
  }

  function OverrideText(c: Settings, sid: Name): Value {
    if sid in c.storeOverrides then EngineValue(c.storeOverrides[sid]) else InheritedValue(sid)
  }

  function OverrideChanges(c: Settings, asked: Option<(Name, Option<EngineMode>)>): seq<Change> {
    if asked.Some? && !SameOverride(c, asked.value.0, asked.value.1)
    then [Change(OverrideField(asked.value.0), OverrideText(c, asked.value.0),
                 if asked.value.1.Some? then EngineValue(asked.value.1.value) else Null)]
    else []
  }

  function OverridesSet(c: Settings, asked: Option<(Name, Option<EngineMode>)>): map<Name, EngineMode> {
    if asked.None? then c.storeOverrides
    else match asked.value.1
      case Some(m) => SetOwn(c.storeOverrides, asked.value.0, m)
      case None => c.storeOverrides - {asked.value.0}
  }

  /** `===`: two containers from different documents are never the same object. */
  predicate Identical(a: Value, b: Value) { a == b && !a.Container() }

  function ParamChange(c: Settings, asked: map<Name, Value>, p: ParamName): seq<Change>
    requires Loadable(c)
  {
    var n := Param(p);
    if n in asked && !Identical(asked[n], c.params[n]) then [Change(ParamField(n), c.params[n], asked[n])] else []
  }

  function ParamChanges(c: Settings, asked: Option<map<Name, Value>>): seq<Change>
    requires Loadable(c)
  {
    if asked.None? then [] else
    ParamChange(c, asked.value, MemoTtlSec) + (ParamChange(c, asked.value, EmbeddingTtlSec)
    + (ParamChange(c, asked.value, DedupeWindowSec) + ParamChange(c, asked.value, OffTopicMax)))
  }

  function ParamsSet(c: Settings, asked: Option<map<Name, Value>>): map<Name, Value> {
    if asked.Some? then c.params + asked.value else c.params
  }

  function Changes(c: Settings, p: Patch): seq<Change>
    requires Loadable(c)
  {
    EngineChanges(c, p.engineMode) + (LayerChanges(c, p.layers)
    + (OverrideChanges(c, p.storeOverride) + ParamChanges(c, p.params)))
  }

  function WithAudit(c: Settings, at: int, adminId: Option<string>, cs: seq<Change>): seq<Entry> {
    First(seq(|cs|, i requires 0 <= i < |cs| => Entry(at, adminId, cs[i])) + c.audit)
  }

  /** The row that an update stores; no change, no write. */
  function UpdatedRow(c: Settings, p: Patch, at: int, adminId: Option<string>): Option<Row>
    requires Loadable(c)
  {
    var cs := Changes(c, p);
    if cs == [] then None else
    var raw := LayersSet(c, RawLayers(c), p.layers);
    Some(Row(raw[Setting(EngineModeName) := EngineValue(if p.engineMode.Some? then p.engineMode.value else c.engineMode)]
                [Setting(StoreOverridesName) := OverridesValue(OverridesSet(c, p.storeOverride))]
                [Setting(AuditName) := List(WithAudit(c, at, adminId, cs))],
             ParamsSet(c, p.params)))
  }

  // ----- what an update means -----

  function Asked(es: seq<(Name, Value)>, k: Name): Value {
    if es == [] then Null else if es[|es| - 1].0 == k then es[|es| - 1].1 else Asked(es[..|es| - 1], k)
  }

  function LayerAfter(c: Settings, es: seq<(Name, Value)>, l: LayerName): LayerMode
    requires Loadable(c)
  {
    match ReadMode(Asked(es, Layer(l)))
    case Some(m) => m
    case None => c.layers[l]
  }

  /** The settings after an update that changes something. */
  function After(c: Settings, p: Patch, at: int, adminId: Option<string>): Settings
    requires Loadable(c)
  {
    Settings(
      map l: LayerName | true :: LayerAfter(c, p.layers, l),
      if p.engineMode.Some? then p.engineMode.value else c.engineMode,
      OverridesSet(c, p.storeOverride),
      WithAudit(c, at, adminId, Changes(c, p)),
      c.revertedAt,
      ParamsSet(c, p.params))
  }

  function New(c: Settings, p: Patch, at: int, adminId: Option<string>): Settings
    requires Loadable(c)
  {
    if Changes(c, p) == [] then c else After(c, p, at, adminId)
  }

  lemma {:induction false} LayersSetMeans(c: Settings, es: seq<(Name, Value)>, l: LayerName)
    requires Loadable(c) && DistinctNames(es)
    ensures Lookup(LayersSet(c, RawLayers(c), es), Layer(l)) == ModeValue(LayerAfter(c, es, l))
  {
    hide RawLayers, ModeValue, ReadMode;
    if es == [] {
      RawLookups(c, l);
      NullIsNoMode();
    } else {
      LayersSetMeans(c, es[..|es| - 1], l);
      var last := es[|es| - 1];
      if last.0 == Layer(l) {
        NotAsked(es[..|es| - 1], Layer(l));
        NullIsNoMode();
        if ReadMode(last.1).Some? { ReadModeIs(last.1); }
      }
    }
  }

  lemma NullIsNoMode()
    ensures ReadMode(Null).None?
  {
  }

  lemma {:induction false} NotAsked(es: seq<(Name, Value)>, k: Name)
    requires forall i | 0 <= i < |es| :: es[i].0 != k
    ensures Asked(es, k) == Null
  {
    if es != [] { NotAsked(es[..|es| - 1], k); }
  }

  lemma {:induction false} LayersSetLeaves(c: Settings, es: seq<(Name, Value)>, k: SettingName)
    requires Loadable(c)
    ensures Lookup(LayersSet(c, RawLayers(c), es), Setting(k)) == Lookup(RawLayers(c), Setting(k))
  {
    hide RawLayers;
    if es != [] { LayersSetLeaves(c, es[..|es| - 1], k); }
  }

  lemma AfterLoadable(c: Settings, p: Patch, at: int, adminId: Option<string>)
    requires Loadable(c)
    ensures Loadable(After(c, p, at, adminId))
  {
    hide Changes, LayerAfter;
  }

  /** What is stored loads as the settings that were asked for. */
  lemma UpdateMeans(c: Settings, p: Patch, at: int, adminId: Option<string>)
    requires Loadable(c) && DistinctNames(p.layers)
    ensures UpdatedRow(c, p, at, adminId).None? <==> Changes(c, p) == []
    ensures UpdatedRow(c, p, at, adminId).Some? ==>
      LoadRow(UpdatedRow(c, p, at, adminId)) == After(c, p, at, adminId)
  {
    hide Changes, RawLayers, LayersSet, ModeValue, WithAudit, OverridesSet, ParamsSet, OverridesValue, LoadRow, LayerAfter, Loadable;
    var row := UpdatedRow(c, p, at, adminId);
    if row.Some? {
      var after := After(c, p, at, adminId);
      AfterLoadable(c, p, at, adminId);
      forall l: LayerName ensures Lookup(row.value.layers, Layer(l)) == ModeValue(after.layers[l]) {
        LayersSetMeans(c, p.layers, l);
      }
      LayersSetLeaves(c, p.layers, RevertedAtName);
      RawRevertedAt(c);
      LoadIs(row.value.layers, after);
    }
  }

  lemma RawRevertedAt(c: Settings)
    requires Loadable(c)
    ensures Lookup(RawLayers(c), Setting(RevertedAtName)) == Number(c.revertedAt)
  {
    RawLookups(c, Ledger);
  }
}
