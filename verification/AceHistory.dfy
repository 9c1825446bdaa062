/** The settings history of ace-config.ts: what audit entries say about a
    change, and when putting back their old values undoes it. */
module AceHistory {
  import opened JsText
  import opened AceSettings

  /** What the settings hold under a field, if anything. */
  function FieldValue(c: Settings, f: Field): Option<Value>
    requires Loadable(c)
  {
    match f
    case EngineField => Some(EngineValue(c.engineMode))
    case LayerField(k) => if k.Layer? then Some(ModeValue(c.layers[k.layer])) else None
    case OverrideField(sid) => if sid in c.storeOverrides then Some(EngineValue(c.storeOverrides[sid])) else None
    case ParamField(n) => if n in c.params then Some(c.params[n]) else None
    case _ => None
  }

  predicate Named(cs: seq<Change>, f: Field) { exists i | 0 <= i < |cs| :: cs[i].field == f }

  lemma NamedConcat(a: seq<Change>, b: seq<Change>, f: Field)
    ensures Named(a + b, f) <==> Named(a, f) || Named(b, f)
  {
    var cs := a + b;
    if Named(a, f) {
      var i :| 0 <= i < |a| && a[i].field == f;
      assert cs[i].field == f;
    }
    if Named(b, f) {
      var i :| 0 <= i < |b| && b[i].field == f;
      assert cs[|a| + i].field == f;
    }
  }

  // ----- which fields an update names -----

  predicate LayerNamed(c: Settings, es: seq<(Name, Value)>, k: Name)
    requires Loadable(c)
  {
    LayerChange(c, k, Asked(es, k)).Some?
  }

  lemma {:induction false} LayersNamed(c: Settings, es: seq<(Name, Value)>, f: Field)
    requires Loadable(c) && DistinctNames(es)
    ensures Named(LayerChanges(c, es), f) <==> f.LayerField? && LayerNamed(c, es, f.name)
  {
    if es == [] {
      NullIsNoMode();
    } else {
      var init, last := es[..|es| - 1], es[|es| - 1];
      var ch := LayerChange(c, last.0, last.1);
      LayersNamed(c, init, f);
      NamedConcat(LayerChanges(c, init), if ch.Some? then [ch.value] else [], f);
      if f == LayerField(last.0) {
        NotAsked(init, last.0);
        NullIsNoMode();
        if ch.Some? { assert [ch.value][0].field == f; }
      }
    }
  }

  lemma OthersNamed(c: Settings, p: Patch, f: Field)
    requires Loadable(c)
    ensures Named(EngineChanges(c, p.engineMode), f) <==>
      f.EngineField? && p.engineMode.Some? && p.engineMode.value != c.engineMode
    ensures Named(OverrideChanges(c, p.storeOverride), f) <==>
      f.OverrideField? && p.storeOverride.Some? && p.storeOverride.value.0 == f.store
      && !SameOverride(c, f.store, p.storeOverride.value.1)
  {
    var e, o := EngineChanges(c, p.engineMode), OverrideChanges(c, p.storeOverride);
    if e != [] { assert e[0].field == EngineField; }
    if o != [] { assert o[0].field == OverrideField(p.storeOverride.value.0); }
  }

  predicate ParamNamed(c: Settings, asked: Option<map<Name, Value>>, n: Name)
    requires Loadable(c)
  {
    n.Param? && asked.Some? && n in asked.value && !Identical(asked.value[n], c.params[n])
  }

  lemma OneParamNamed(c: Settings, asked: map<Name, Value>, q: ParamName, f: Field)
    requires Loadable(c)
    ensures Named(ParamChange(c, asked, q), f) <==> f == ParamField(Param(q)) && ParamNamed(c, Some(asked), Param(q))
  {
    var cs := ParamChange(c, asked, q);
    if cs != [] { assert cs[0].field == ParamField(Param(q)); }
  }

  lemma ParamsNamed(c: Settings, asked: Option<map<Name, Value>>, f: Field)
    requires Loadable(c)
    ensures Named(ParamChanges(c, asked), f) <==> f.ParamField? && ParamNamed(c, asked, f.param)
  {
    if asked.Some? {
      var m := asked.value;
      var a, b, d, e := ParamChange(c, m, MemoTtlSec), ParamChange(c, m, EmbeddingTtlSec),
        ParamChange(c, m, DedupeWindowSec), ParamChange(c, m, OffTopicMax);
      hide ParamChange, Named, ParamNamed;
      FourParts(a, b, d, e, f);
      OneParamNamed(c, m, MemoTtlSec, f);
      OneParamNamed(c, m, EmbeddingTtlSec, f);
      OneParamNamed(c, m, DedupeWindowSec, f);
      OneParamNamed(c, m, OffTopicMax, f);
      if f.ParamField? && f.param.Param? { FourNames(f.param.param); }
    }
  }

  lemma FourNames(q: ParamName)
    ensures q == MemoTtlSec || q == EmbeddingTtlSec || q == DedupeWindowSec || q == OffTopicMax
  {
  }

  lemma FourParts(a: seq<Change>, b: seq<Change>, d: seq<Change>, e: seq<Change>, f: Field)
    ensures Named(a + (b + (d + e)), f) <==> Named(a, f) || Named(b, f) || Named(d, f) || Named(e, f)
  {
    hide Named;
    NamedConcat(a, b + (d + e), f);
    NamedConcat(b, d + e, f);
    NamedConcat(d, e, f);
  }

  predicate NamedWhen(c: Settings, p: Patch, f: Field)
    requires Loadable(c)
  {
    match f
    case EngineField => p.engineMode.Some? && p.engineMode.value != c.engineMode
    case LayerField(k) => LayerNamed(c, p.layers, k)
    case OverrideField(sid) =>
      p.storeOverride.Some? && p.storeOverride.value.0 == sid && !SameOverride(c, sid, p.storeOverride.value.1)
    case ParamField(n) => ParamNamed(c, p.params, n)
    case _ => false
  }

  lemma ChangesName(c: Settings, p: Patch, f: Field)
    requires Loadable(c) && DistinctNames(p.layers)
    ensures Named(Changes(c, p), f) <==> NamedWhen(c, p, f)
  {
    hide Named, LayerNamed, ParamNamed, SameOverride;
    FourParts(EngineChanges(c, p.engineMode), LayerChanges(c, p.layers),
      OverrideChanges(c, p.storeOverride), ParamChanges(c, p.params), f);
    OthersNamed(c, p, f);
    LayersNamed(c, p.layers, f);
    ParamsNamed(c, p.params, f);
  }

  // ----- which fields an update changes -----

  /** The fields for which the entries do not tell the truth: an inherited name asked
      as a layer, an inherited name as a store, a parameter that is set to an equal
      container, and an unknown parameter that rides along with a recorded change. */
  predicate OddAt(c: Settings, p: Patch, f: Field)
    requires Loadable(c)
  {
    match f
    case LayerField(k) => k.Inherited() && ReadMode(Asked(p.layers, k)).Some?
    case OverrideField(sid) =>
      p.storeOverride.Some? && p.storeOverride.value.0 == sid && sid.Inherited()
      && sid !in c.storeOverrides && (p.storeOverride.value.1.None? || sid.Proto?)
    case ParamField(n) =>
      p.params.Some? && n in p.params.value
      && if n.Param? then p.params.value[n] == c.params[n] && (c.params[n].Object? || c.params[n].List?)
         else (n in c.params ==> p.params.value[n] != c.params[n]) && Changes(c, p) != []
    case _ => false
  }

  predicate Differs(c: Settings, d: Settings, f: Field)
    requires Loadable(c) && Loadable(d)
  {
    FieldValue(c, f) != FieldValue(d, f)
  }

  lemma ModeValuesDiffer(a: LayerMode, b: LayerMode)
    ensures ModeValue(a) == ModeValue(b) <==> a == b
  {
    ModesReadBack(a, Stable);
    ModesReadBack(b, Stable);
  }

  lemma EngineValuesDiffer(a: EngineMode, b: EngineMode)
    ensures EngineValue(a) == EngineValue(b) <==> a == b
  {
    ModesReadBack(On, a);
    ModesReadBack(On, b);
  }

  lemma LayerExact(c: Settings, p: Patch, k: Name, at: int, adminId: Option<string>)
    requires Loadable(c) && Loadable(After(c, p, at, adminId))
    ensures (LayerNamed(c, p.layers, k) <==> Differs(c, After(c, p, at, adminId), LayerField(k)))
      <==> !OddAt(c, p, LayerField(k))
  {
    hide ReadMode, ModeValue, Asked, Changes;
    if k.Layer? {
      var m := ReadMode(Asked(p.layers, k));
      if m.Some? {
        ReadModeIs(Asked(p.layers, k));
        ModeValuesDiffer(m.value, c.layers[k.layer]);
      }
    }
  }

  lemma OverrideExact(c: Settings, p: Patch, sid: Name, at: int, adminId: Option<string>)
    requires Loadable(c) && Loadable(After(c, p, at, adminId))
    ensures (NamedWhen(c, p, OverrideField(sid)) <==> Differs(c, After(c, p, at, adminId), OverrideField(sid)))
      <==> !OddAt(c, p, OverrideField(sid))
  {
    hide Changes, EngineValue, LayerAfter;
    if p.storeOverride.Some? && p.storeOverride.value.1.Some? && sid in c.storeOverrides {
      EngineValuesDiffer(c.storeOverrides[sid], p.storeOverride.value.1.value);
    }
  }

  lemma ParamExact(c: Settings, p: Patch, n: Name, at: int, adminId: Option<string>)
    requires Loadable(c) && Loadable(After(c, p, at, adminId)) && Changes(c, p) != []
    ensures (ParamNamed(c, p.params, n) <==> Differs(c, After(c, p, at, adminId), ParamField(n)))
      <==> !OddAt(c, p, ParamField(n))
  {
    hide Changes, LayerAfter;
  }

  lemma EngineExact(c: Settings, p: Patch, at: int, adminId: Option<string>)
    requires Loadable(c) && Loadable(After(c, p, at, adminId))
    ensures NamedWhen(c, p, EngineField) <==> Differs(c, After(c, p, at, adminId), EngineField)
  {
    hide Changes, LayerAfter, EngineValue;
    if p.engineMode.Some? { EngineValuesDiffer(p.engineMode.value, c.engineMode); }
  }

  lemma NothingOdd(c: Settings, p: Patch, f: Field)
    requires Loadable(c) && DistinctNames(p.layers) && Changes(c, p) == []
    ensures !OddAt(c, p, f)
  {
    hide ReadMode, ModeValue, Asked, Changes;
    ChangesName(c, p, f);
  }

  lemma NewLoadable(c: Settings, p: Patch, at: int, adminId: Option<string>)
    requires Loadable(c)
    ensures Loadable(New(c, p, at, adminId))
  {
    AfterLoadable(c, p, at, adminId);
  }

  /** The new entries name a field just when it changed, unless the field is odd. */
  lemma EntriesNameChanges(c: Settings, p: Patch, at: int, adminId: Option<string>, f: Field)
    requires Loadable(c) && DistinctNames(p.layers) && Loadable(New(c, p, at, adminId))
    ensures (Named(Changes(c, p), f) <==> Differs(c, New(c, p, at, adminId), f)) <==> !OddAt(c, p, f)
  {
    hide Named, Changes, LayerNamed, ParamNamed, OddAt, Differs, After, Loadable;
    if Changes(c, p) == [] {
      NothingOdd(c, p, f);
      NothingDiffers(c, f);
      NothingNamed(f);
    } else {
      ChangesName(c, p, f);
      match f
      case EngineField => EngineExact(c, p, at, adminId); NeverOdd(c, p, f);
      case LayerField(k) => LayerExact(c, p, k, at, adminId);
      case OverrideField(sid) => OverrideExact(c, p, sid, at, adminId);
      case ParamField(n) => ParamExact(c, p, n, at, adminId);
      case _ => NeverOdd(c, p, f); NeverDiffers(c, After(c, p, at, adminId), f);
    }
  }

  lemma NothingDiffers(c: Settings, f: Field)
    requires Loadable(c)
    ensures !Differs(c, c, f)
  {
  }

  lemma NothingNamed(f: Field)
    ensures !Named([], f)
  {
  }

  lemma NeverOdd(c: Settings, p: Patch, f: Field)
    requires Loadable(c) && (f.EngineField? || f.RevertField? || f.UndoField?)
    ensures !OddAt(c, p, f)
  {
  }

  lemma NeverDiffers(c: Settings, d: Settings, f: Field)
    requires Loadable(c) && Loadable(d) && (f.RevertField? || f.UndoField?)
    ensures !Differs(c, d, f)
  {
  }

  // ----- putting back the old values -----

  /** The state of a field that an entry asks for when its `from` is put back: a mode is
      a text, and anything else stands for no mode. */
  function Before(ch: Change): Option<Value> {
    if ch.from.Text? || ch.field.ParamField? then Some(ch.from) else None
  }

  function PutBack(c: Settings, ch: Change): Settings {
    match ch.field
    case EngineField => c.(engineMode := if ReadEngine(ch.from).Some? then ReadEngine(ch.from).value else c.engineMode)
    case LayerField(k) =>
      if k.Layer? && ReadMode(ch.from).Some? then c.(layers := c.layers[k.layer := ReadMode(ch.from).value]) else c
    case OverrideField(sid) =>
      if ReadEngine(ch.from).Some? then c.(storeOverrides := c.storeOverrides[sid := ReadEngine(ch.from).value])
      else c.(storeOverrides := c.storeOverrides - {sid})
    case ParamField(n) => c.(params := c.params[n := ch.from])
    case _ => c
  }

  function Restored(c: Settings, cs: seq<Change>): Settings
    decreases |cs|
  {
    if cs == [] then c else Restored(PutBack(c, cs[0]), cs[1..])
  }

  /** An entry whose `from` is what `c` had. */
  predicate Tells(c: Settings, ch: Change)
    requires Loadable(c)
  {
    Before(ch) == FieldValue(c, ch.field) && !ch.field.RevertField? && !ch.field.UndoField?
  }

  predicate AllTell(c: Settings, cs: seq<Change>)
    requires Loadable(c)
  {
    forall i | 0 <= i < |cs| :: Tells(c, cs[i])
  }

  lemma PutBackKeepsLoadable(c: Settings, d: Settings, ch: Change)
    requires Loadable(c) && Loadable(d) && Tells(c, ch)
    ensures Loadable(PutBack(d, ch))
  {
    if ch.field.OverrideField? && ch.field.store.Proto? { NoEngine(); }
  }

  lemma NoEngine()
    ensures forall v: Value | !v.Text? :: ReadEngine(v).None?
  {
  }

  lemma PutBackMeans(c: Settings, d: Settings, ch: Change, f: Field)
    requires Loadable(c) && Loadable(d) && Tells(c, ch) && Loadable(PutBack(d, ch))
    ensures FieldValue(PutBack(d, ch), f) == if f == ch.field then FieldValue(c, f) else FieldValue(d, f)
  {
    hide EngineValue, ModeValue, ReadEngine, ReadMode;
    NoEngine();
    match ch.field
    case EngineField => ModesReadBack(On, c.engineMode);
    case LayerField(k) => if k.Layer? { ModesReadBack(c.layers[k.layer], Stable); }
    case OverrideField(sid) => if sid in c.storeOverrides { ModesReadBack(On, c.storeOverrides[sid]); }
    case _ =>
  }

  lemma {:induction false} RestoredMeans(c: Settings, d: Settings, cs: seq<Change>, f: Field)
    requires Loadable(c) && Loadable(d) && AllTell(c, cs)
    ensures Loadable(Restored(d, cs))
    ensures FieldValue(Restored(d, cs), f) == if Named(cs, f) then FieldValue(c, f) else FieldValue(d, f)
    decreases |cs|
  {
    if cs != [] {
      hide Loadable, FieldValue, PutBack, Tells;
      var d', rest := PutBack(d, cs[0]), cs[1..];
      PutBackKeepsLoadable(c, d, cs[0]);
      PutBackMeans(c, d, cs[0], f);
      RestoredMeans(c, d', rest, f);
      assert cs == [cs[0]] + rest;
      NamedConcat([cs[0]], rest, f);
      NamedOne(cs[0], f);
    }
  }

  lemma NamedOne(ch: Change, f: Field)
    ensures Named([ch], f) <==> ch.field == f
  {
    assert [ch][0] == ch;
  }

  lemma TellConcat(c: Settings, a: seq<Change>, b: seq<Change>)
    requires Loadable(c) && AllTell(c, a) && AllTell(c, b)
    ensures AllTell(c, a + b)
  {
    hide Tells;
  }

  lemma {:induction false} LayersTell(c: Settings, es: seq<(Name, Value)>)
    requires Loadable(c)
    ensures AllTell(c, LayerChanges(c, es))
  {
    if es != [] {
      var init, last := es[..|es| - 1], es[|es| - 1];
      var ch := LayerChange(c, last.0, last.1);
      LayersTell(c, init);
      if ch.Some? { LayerTells(c, last.0, last.1); }
      TellConcat(c, LayerChanges(c, init), if ch.Some? then [ch.value] else []);
    }
  }

  lemma LayerTells(c: Settings, k: Name, v: Value)
    requires Loadable(c) && LayerChange(c, k, v).Some?
    ensures Tells(c, LayerChange(c, k, v).value)
  {
    hide ReadMode;
  }

  lemma ParamTells(c: Settings, asked: map<Name, Value>, q: ParamName)
    requires Loadable(c)
    ensures AllTell(c, ParamChange(c, asked, q))
  {
  }

  lemma ParamsTell(c: Settings, asked: map<Name, Value>)
    requires Loadable(c)
    ensures AllTell(c, ParamChanges(c, Some(asked)))
  {
    hide Loadable, Tells, ParamChange;
    var a, b, d, e := ParamChange(c, asked, MemoTtlSec), ParamChange(c, asked, EmbeddingTtlSec),
      ParamChange(c, asked, DedupeWindowSec), ParamChange(c, asked, OffTopicMax);
    ParamTells(c, asked, MemoTtlSec);
    ParamTells(c, asked, EmbeddingTtlSec);
    ParamTells(c, asked, DedupeWindowSec);
    ParamTells(c, asked, OffTopicMax);
    TellConcat(c, d, e);
    TellConcat(c, b, d + e);
    TellConcat(c, a, b + (d + e));
  }

  lemma ChangesTell(c: Settings, p: Patch)
    requires Loadable(c)
    ensures AllTell(c, Changes(c, p))
  {
    var e, l, o, q := EngineChanges(c, p.engineMode), LayerChanges(c, p.layers),
      OverrideChanges(c, p.storeOverride), ParamChanges(c, p.params);
    LayersTell(c, p.layers);
    if p.params.Some? { ParamsTell(c, p.params.value); }
    OthersTell(c, p);
    TellConcat(c, o, q);
    TellConcat(c, l, o + q);
    TellConcat(c, e, l + (o + q));
  }

  lemma OthersTell(c: Settings, p: Patch)
    requires Loadable(c)
    ensures AllTell(c, EngineChanges(c, p.engineMode)) && AllTell(c, OverrideChanges(c, p.storeOverride))
  {
  }

  /** Settings with equal values in every field, the history aside. */
  lemma SameFields(c: Settings, d: Settings)
    requires Loadable(c) && Loadable(d) && forall f :: FieldValue(c, f) == FieldValue(d, f)
    ensures c == d.(audit := c.audit, revertedAt := c.revertedAt)
  {
    assert FieldValue(c, EngineField) == FieldValue(d, EngineField);
    EngineValuesDiffer(c.engineMode, d.engineMode);
    forall l: LayerName ensures c.layers[l] == d.layers[l] {
      assert FieldValue(c, LayerField(Layer(l))) == FieldValue(d, LayerField(Layer(l)));
      ModeValuesDiffer(c.layers[l], d.layers[l]);
    }
    SameMaps(c, d);
    assert c.layers == d.layers;
  }

  lemma SameMaps(c: Settings, d: Settings)
    requires Loadable(c) && Loadable(d) && forall f :: FieldValue(c, f) == FieldValue(d, f)
    ensures c.storeOverrides == d.storeOverrides && c.params == d.params
  {
    hide EngineValue, ModeValue;
    forall sid ensures sid in c.storeOverrides <==> sid in d.storeOverrides {
      assert FieldValue(c, OverrideField(sid)) == FieldValue(d, OverrideField(sid));
    }
    forall sid | sid in c.storeOverrides ensures c.storeOverrides[sid] == d.storeOverrides[sid] {
      assert FieldValue(c, OverrideField(sid)) == FieldValue(d, OverrideField(sid));
      EngineValuesDiffer(c.storeOverrides[sid], d.storeOverrides[sid]);
    }
    forall n ensures (n in c.params <==> n in d.params) && (n in c.params ==> c.params[n] == d.params[n]) {
      assert FieldValue(c, ParamField(n)) == FieldValue(d, ParamField(n));
    }
  }

  /** An unknown parameter changes without an entry. */
  predicate Stray(c: Settings, p: Patch, n: Name)
    requires Loadable(c)
  {
    !n.Param? && OddAt(c, p, ParamField(n))
  }

  lemma RestoredField(c: Settings, p: Patch, at: int, adminId: Option<string>, f: Field)
    requires Loadable(c) && DistinctNames(p.layers) && Loadable(New(c, p, at, adminId))
    requires Loadable(Restored(New(c, p, at, adminId), Changes(c, p)))
    ensures FieldValue(Restored(New(c, p, at, adminId), Changes(c, p)), f) == FieldValue(c, f)
      <==> !(f.ParamField? && Stray(c, p, f.param))
  {
    hide Named, Changes, New, FieldValue, Restored, Loadable, OddAt;
    ChangesTell(c, p);
    RestoredMeans(c, New(c, p, at, adminId), Changes(c, p), f);
    EntriesNameChanges(c, p, at, adminId, f);
    ChangesName(c, p, f);
    if OddAt(c, p, f) { OddIsNamed(c, p, f); }
  }

  lemma OddIsNamed(c: Settings, p: Patch, f: Field)
    requires Loadable(c) && OddAt(c, p, f)
    ensures NamedWhen(c, p, f) <==> !(f.ParamField? && Stray(c, p, f.param))
  {
    hide Changes, ReadMode, Asked;
  }

  /** Putting back the `from` values of an update restores the old settings exactly
      when the update carried no unknown parameter that changed. */
  lemma PuttingBackRestores(c: Settings, p: Patch, at: int, adminId: Option<string>)
    requires Loadable(c) && DistinctNames(p.layers)
    ensures Restored(New(c, p, at, adminId), Changes(c, p)).(audit := c.audit) == c
      <==> forall n :: !Stray(c, p, n)
  {
    hide Changes, New, Restored, Stray, FieldValue, Loadable;
    var d, cs := New(c, p, at, adminId), Changes(c, p);
    NewLoadable(c, p, at, adminId);
    ChangesTell(c, p);
    RestoredMeans(c, d, cs, EngineField);
    var r := Restored(d, cs);
    forall f ensures FieldValue(r, f) == FieldValue(c, f) <==> !(f.ParamField? && Stray(c, p, f.param)) {
      RestoredField(c, p, at, adminId, f);
    }
    if forall n :: !Stray(c, p, n) {
      SameFields(c, r);
      RestoredKeepsStamp(d, cs);
      NewKeepsStamp(c, p, at, adminId);
    } else {
      var n :| Stray(c, p, n);
      assert FieldValue(r, ParamField(n)) != FieldValue(c, ParamField(n));
      AuditIsNoField(r, c, ParamField(n));
    }
  }

  lemma AuditIsNoField(c: Settings, d: Settings, f: Field)
    requires Loadable(c) && Loadable(d)
    ensures c.(audit := d.audit) == d ==> FieldValue(c, f) == FieldValue(d, f)
  {
  }

  lemma {:induction false} RestoredKeepsStamp(d: Settings, cs: seq<Change>)
    ensures Restored(d, cs).revertedAt == d.revertedAt
    decreases |cs|
  {
    if cs != [] { RestoredKeepsStamp(PutBack(d, cs[0]), cs[1..]); }
  }

  lemma NewKeepsStamp(c: Settings, p: Patch, at: int, adminId: Option<string>)
    requires Loadable(c)
    ensures New(c, p, at, adminId).revertedAt == c.revertedAt
  {
  }

  // ----- what an update leaves alone -----

  /** The patch says something about the field. */
  predicate Asks(p: Patch, f: Field) {
    match f
    case EngineField => p.engineMode.Some?
    case LayerField(k) => ReadMode(Asked(p.layers, k)).Some?
    case OverrideField(sid) => p.storeOverride.Some? && p.storeOverride.value.0 == sid
    case ParamField(n) => p.params.Some? && n in p.params.value
    case _ => false
  }

  lemma OthersStay(c: Settings, p: Patch, at: int, adminId: Option<string>, f: Field)
    requires Loadable(c) && Loadable(After(c, p, at, adminId)) && !Asks(p, f)
    ensures FieldValue(After(c, p, at, adminId), f) == FieldValue(c, f)
  {
    hide Changes, ReadMode, Asked, WithAudit;
  }

  /** The settings agree in everything the patch does not speak of, and in the last revert. */
  ghost predicate Agree(p: Patch, c: Settings, d: Settings)
    requires Loadable(c) && Loadable(d)
  {
    c.revertedAt == d.revertedAt && forall f | !Asks(p, f) :: FieldValue(c, f) == FieldValue(d, f)
  }

  lemma AfterAgrees(c: Settings, p: Patch, at: int, adminId: Option<string>)
    requires Loadable(c)
    ensures Loadable(After(c, p, at, adminId)) && Agree(p, c, After(c, p, at, adminId))
  {
    hide FieldValue, Changes, LayerAfter, Loadable;
    AfterLoadable(c, p, at, adminId);
    forall f | !Asks(p, f) ensures FieldValue(c, f) == FieldValue(After(c, p, at, adminId), f) {
      OthersStay(c, p, at, adminId, f);
    }
    StampStays(c, p, at, adminId);
  }

  lemma StampStays(c: Settings, p: Patch, at: int, adminId: Option<string>)
    requires Loadable(c)
    ensures After(c, p, at, adminId).revertedAt == c.revertedAt
  {
  }

  // ----- what an update adds to the audit -----

  /** The `to` of an entry is what the patch asks for the field. */
  predicate ToIsAsked(p: Patch, ch: Change) {
    match ch.field
    case EngineField => p.engineMode.Some? && ch.to == EngineValue(p.engineMode.value)
    case LayerField(k) => (k, ch.to) in p.layers
    case OverrideField(sid) =>
      p.storeOverride.Some? && p.storeOverride.value.0 == sid
      && ch.to == if p.storeOverride.value.1.Some? then EngineValue(p.storeOverride.value.1.value) else Null
    case ParamField(n) => p.params.Some? && n in p.params.value && ch.to == p.params.value[n]
    case _ => false
  }

  lemma {:induction false} LayersAsked(c: Settings, p: Patch, n: nat)
    requires Loadable(c) && n <= |p.layers|
    ensures forall ch | ch in LayerChanges(c, p.layers[..n]) :: ToIsAsked(p, ch)
  {
    if n > 0 {
      hide ReadMode, Loadable;
      LayersAsked(c, p, n - 1);
      assert p.layers[..n][..n - 1] == p.layers[..n - 1];
      var e := p.layers[n - 1];
      if LayerChange(c, e.0, e.1).Some? { LayerAsked(c, p, e); }
    }
  }

  lemma LayerAsked(c: Settings, p: Patch, e: (Name, Value))
    requires Loadable(c) && e in p.layers && LayerChange(c, e.0, e.1).Some?
    ensures ToIsAsked(p, LayerChange(c, e.0, e.1).value)
  {
    hide ReadMode;
  }

  lemma OthersAsked(c: Settings, p: Patch, q: ParamName)
    requires Loadable(c)
    ensures forall ch | ch in EngineChanges(c, p.engineMode) :: ToIsAsked(p, ch)
    ensures forall ch | ch in OverrideChanges(c, p.storeOverride) :: ToIsAsked(p, ch)
    ensures p.params.Some? ==> forall ch | ch in ParamChange(c, p.params.value, q) :: ToIsAsked(p, ch)
  {
    hide EngineValue, Loadable;
  }

  lemma ChangesAsked(c: Settings, p: Patch)
    requires Loadable(c)
    ensures forall ch | ch in Changes(c, p) :: ToIsAsked(p, ch)
  {
    hide EngineChanges, LayerChanges, OverrideChanges, ParamChange, ToIsAsked, Loadable;
    assert p.layers[..|p.layers|] == p.layers;
    LayersAsked(c, p, |p.layers|);
    OthersAsked(c, p, MemoTtlSec);
    OthersAsked(c, p, EmbeddingTtlSec);
    OthersAsked(c, p, DedupeWindowSec);
    OthersAsked(c, p, OffTopicMax);
  }

  /** The audit after an update: first its entries, with the time and the administrator, from what the settings had to
      what the patch asks; then the entries before it; fifty in all. */
  lemma AuditTells(c: Settings, p: Patch, at: int, adminId: Option<string>)
    requires Loadable(c)
    ensures var audit, cs := After(c, p, at, adminId).audit, Changes(c, p);
      && |audit| == Min(50, |cs| + |c.audit|)
      && (forall i | 0 <= i < |audit| :: audit[i] == if i < |cs| then Entry(at, adminId, cs[i]) else c.audit[i - |cs|])
      && (forall i | 0 <= i < |cs| :: Before(cs[i]) == FieldValue(c, cs[i].field) && ToIsAsked(p, cs[i]))
  {
    hide Changes, ToIsAsked, FieldValue, Before, Loadable, LayerAfter, ModeValue;
    ChangesTell(c, p);
    ChangesAsked(c, p);
  }
}
