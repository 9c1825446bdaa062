/** The emergency revert of ace-config.ts and its undo, over any updates in between. */
module AceRevert {
  import opened JsText
  import opened AceSettings
  import opened AceHistory

  function ModesValue(engine: EngineMode, overrides: map<Name, EngineMode>): Value {
    Object(map[Setting(EngineModeName) := EngineValue(engine), Setting(StoreOverridesName) := OverridesValue(overrides)])
  }

  function RevertChange(c: Settings): Change {
    Change(RevertField, ModesValue(c.engineMode, c.storeOverrides), ModesValue(Stable, map[]))
  }

  function RevertedRow(c: Settings, at: int, adminId: Option<string>): Row {
    Row(RawLayers(c)[Setting(EngineModeName) := EngineValue(Stable)]
                    [Setting(StoreOverridesName) := Object(map[])]
                    [Setting(RevertedAtName) := Number(at)]
                    [Setting(AuditName) := List(WithAudit(c, at, adminId, [RevertChange(c)]))],
        c.params)
  }

  /** The newest revert that the audit still knows. */
  function LastRevert(audit: seq<Entry>): Option<Entry> {
    if audit == [] then None
    else if audit[0].change.field == RevertField then Some(audit[0])
    else LastRevert(audit[1..])
  }

  datatype Undo = NothingToUndo | Threw | Undone(row: Row)

  function UndoneRow(c: Settings, at: int, adminId: Option<string>): Undo {
    match LastRevert(c.audit)
    case None => NothingToUndo
    case Some(last) =>
      var from := last.change.from;
      if from == Null then Threw else
      var fields := if from.Object? then from.fields else map[];
      var engine := ReadEngine(Lookup(fields, Setting(EngineModeName)));
      var mode := if engine.Some? then engine.value else Stable;
      var overrides := Lookup(fields, Setting(StoreOverridesName));
      Undone(Row(RawLayers(c)
        [Setting(EngineModeName) := EngineValue(mode)]
        [Setting(StoreOverridesName) := if overrides == Null then Object(map[]) else overrides]
        [Setting(AuditName) := List(WithAudit(c, at, adminId,
          [Change(UndoField, Object(map[Setting(EngineModeName) := EngineValue(c.engineMode)]),
                  Object(map[Setting(EngineModeName) := EngineValue(mode)]))]))], c.params))
  }

  // ----- what they mean -----

  lemma RevertMeans(c: Settings, at: int, adminId: Option<string>)
    requires Loadable(c)
    ensures LoadRow(Some(RevertedRow(c, at, adminId)))
         == c.(engineMode := Stable, storeOverrides := map[], revertedAt := at,
               audit := WithAudit(c, at, adminId, [RevertChange(c)]))
  {
    hide RawLayers, ModeValue, EngineValue, WithAudit, LoadRow;
    var d := c.(engineMode := Stable, storeOverrides := map[], revertedAt := at,
                audit := WithAudit(c, at, adminId, [RevertChange(c)]));
    AuditBounded(c, at, adminId, [RevertChange(c)]);
    forall k: LayerName ensures Lookup(RevertedRow(c, at, adminId).layers, Layer(k)) == ModeValue(d.layers[k]) {
      RawLookups(c, k);
    }
    NoOverrides();
    LoadIs(RevertedRow(c, at, adminId).layers, d);
  }

  lemma NoOverrides()
    ensures OverridesValue(map[]) == Object(map[])
  {
    var m: map<Name, EngineMode> := map[];
    assert (map sid | sid in m :: EngineValue(m[sid])) == map[];
  }

  lemma AuditBounded(c: Settings, at: int, adminId: Option<string>, cs: seq<Change>)
    ensures |WithAudit(c, at, adminId, cs)| <= AUDIT_MAX
  {
  }

  /** `e` is in the audit and no revert is newer. */
  predicate RevertAt(audit: seq<Entry>, i: nat, e: Entry) {
    i < |audit| && audit[i] == e && e.change.field == RevertField
    && forall j | 0 <= j < i :: audit[j].change.field != RevertField
  }

  lemma {:induction false} LastRevertIs(audit: seq<Entry>, i: nat, e: Entry)
    requires RevertAt(audit, i, e)
    ensures LastRevert(audit) == Some(e)
  {
    if i > 0 {
      assert audit[0].change.field != RevertField;
      LastRevertIs(audit[1..], i - 1, e);
    }
  }

  lemma {:induction false} LastRevertIn(audit: seq<Entry>) returns (i: nat)
    ensures LastRevert(audit).Some? ==> RevertAt(audit, i, LastRevert(audit).value)
    ensures LastRevert(audit).None? ==> forall j | 0 <= j < |audit| :: audit[j].change.field != RevertField
  {
    i := 0;
    if audit != [] && audit[0].change.field != RevertField {
      i := LastRevertIn(audit[1..]);
      if LastRevert(audit).Some? {
        i := i + 1;
        assert forall j | 0 < j < i :: audit[j] == audit[1..][j - 1];
      } else {
        assert forall j | 0 < j < |audit| :: audit[j] == audit[1..][j - 1];
      }
    }
  }

  /** The three answers of an undo: nothing to undo when the audit knows no revert; an error when its newest revert
      has no old value; else what that value says, and stable without overrides where it says nothing. */
  lemma UndoAnswers(d: Settings, at: int, adminId: Option<string>)
    requires Loadable(d)
    ensures var u := UndoneRow(d, at, adminId);
      && (u == NothingToUndo <==> forall j | 0 <= j < |d.audit| :: d.audit[j].change.field != RevertField)
      && (u == Threw <==> exists i, e :: RevertAt(d.audit, i, e) && e.change.from == Null)
    ensures forall i, e | RevertAt(d.audit, i, e) && e.change.from != Null && !e.change.from.Object? ::
      UndoneRow(d, at, adminId).Undone?
      && LoadRow(Some(UndoneRow(d, at, adminId).row)).engineMode == Stable
      && LoadRow(Some(UndoneRow(d, at, adminId).row)).storeOverrides == map[]
  {
    hide RawLayers, WithAudit, EngineValue, LoadRow, RevertAt, LastRevert;
    var i := LastRevertIn(d.audit);
    if LastRevert(d.audit).Some? {
      var e := LastRevert(d.audit).value;
      assert RevertAt(d.audit, i, e);
      RevertIsThere(d.audit, i, e);
    }
    forall j, x | RevertAt(d.audit, j, x) ensures LastRevert(d.audit) == Some(x) { LastRevertIs(d.audit, j, x); }
    if LastRevert(d.audit).Some? && LastRevert(d.audit).value.change.from != Null && !LastRevert(d.audit).value.change.from.Object? {
      UndoOfText(d, at, adminId);
    }
  }

  lemma RevertIsThere(audit: seq<Entry>, i: nat, e: Entry)
    requires RevertAt(audit, i, e)
    ensures i < |audit| && audit[i].change.field == RevertField
  {
  }

  lemma UndoOfText(d: Settings, at: int, adminId: Option<string>)
    requires Loadable(d) && LastRevert(d.audit).Some?
    requires LastRevert(d.audit).value.change.from != Null && !LastRevert(d.audit).value.change.from.Object?
    ensures var u := UndoneRow(d, at, adminId);
      u.Undone? && LoadRow(Some(u.row)).engineMode == Stable && LoadRow(Some(u.row)).storeOverrides == map[]
  {
    hide RawLayers, WithAudit, LastRevert;
    assert ReadEngine(Null) == None;
    ModesReadBack(On, Stable);
  }

  /** While the audit still knows the revert of `c`, undo restores the modes that
      `c` had and leaves everything else as it now is. */
  lemma UndoMeans(c: Settings, d: Settings, i: nat, e: Entry, at: int, adminId: Option<string>)
    requires Loadable(c) && Loadable(d)
    requires RevertAt(d.audit, i, e) && e.change == RevertChange(c)
    ensures UndoneRow(d, at, adminId).Undone?
    ensures var u := LoadRow(Some(UndoneRow(d, at, adminId).row));
      u == d.(engineMode := c.engineMode, storeOverrides := c.storeOverrides, audit := u.audit)
      && Loadable(u)
  {
    hide RawLayers, ModeValue, EngineValue, ReadEngine, WithAudit, LoadRow, OverridesValue;
    LastRevertIs(d.audit, i, e);
    ModesReadBack(On, c.engineMode);
    ModesObject(c);
    var row := UndoneRow(d, at, adminId).row;
    var audit := row.layers[Setting(AuditName)].entries;
    var u := d.(engineMode := c.engineMode, storeOverrides := c.storeOverrides, audit := audit);
    UndoAudit(d, at, adminId);
    forall k: LayerName ensures Lookup(row.layers, Layer(k)) == ModeValue(u.layers[k]) { RawLookups(d, k); }
    RawLookups(d, Ledger);
    LoadIs(row.layers, u);
  }

  lemma ModesObject(c: Settings)
    ensures ModesValue(c.engineMode, c.storeOverrides).Object?
    ensures var fields := ModesValue(c.engineMode, c.storeOverrides).fields;
      Lookup(fields, Setting(EngineModeName)) == EngineValue(c.engineMode)
      && Lookup(fields, Setting(StoreOverridesName)) == OverridesValue(c.storeOverrides)
      && OverridesValue(c.storeOverrides) != Null
  {
  }

  lemma UndoAudit(d: Settings, at: int, adminId: Option<string>)
    requires UndoneRow(d, at, adminId).Undone?
    ensures var row := UndoneRow(d, at, adminId).row;
      row.layers[Setting(AuditName)].List? && |row.layers[Setting(AuditName)].entries| <= AUDIT_MAX
  {
    hide RawLayers, EngineValue, ReadEngine;
  }

  // ----- updates in between -----

  datatype Update = Update(patch: Patch, at: int, adminId: Option<string>)

  function Updated(c: Settings, us: seq<Update>): (d: Settings)
    requires Loadable(c)
    ensures Loadable(d)
    decreases |us|
  {
    if us == [] then c else
    NewLoadable(c, us[0].patch, us[0].at, us[0].adminId);
    Updated(New(c, us[0].patch, us[0].at, us[0].adminId), us[1..])
  }

  /** How many entries the updates write. */
  function Entries(c: Settings, us: seq<Update>): nat
    requires Loadable(c)
    decreases |us|
  {
    if us == [] then 0 else
    NewLoadable(c, us[0].patch, us[0].at, us[0].adminId);
    |Changes(c, us[0].patch)| + Entries(New(c, us[0].patch, us[0].at, us[0].adminId), us[1..])
  }

  lemma NoUpdates(c: Settings)
    requires Loadable(c)
    ensures Updated(c, []) == c && Entries(c, []) == 0
  {
  }

  lemma FirstUpdate(c: Settings, us: seq<Update>)
    requires Loadable(c) && us != []
    ensures var d := New(c, us[0].patch, us[0].at, us[0].adminId);
      && Loadable(d) && Updated(c, us) == Updated(d, us[1..])
      && Entries(c, us) == |Changes(c, us[0].patch)| + Entries(d, us[1..])
  {
    hide New, Changes, Loadable;
    NewLoadable(c, us[0].patch, us[0].at, us[0].adminId);
  }

  lemma NeverNamesRevert(c: Settings, p: Patch)
    requires Loadable(c)
    ensures forall i | 0 <= i < |Changes(c, p)| :: Changes(c, p)[i].field != RevertField
  {
    ChangesTell(c, p);
    assert forall i | 0 <= i < |Changes(c, p)| :: Tells(c, Changes(c, p)[i]);
  }

  lemma UpdateKeepsRevert(c: Settings, u: Update, i: nat, e: Entry)
    requires Loadable(c) && RevertAt(c.audit, i, e) && i + |Changes(c, u.patch)| < AUDIT_MAX
    ensures RevertAt(New(c, u.patch, u.at, u.adminId).audit, i + |Changes(c, u.patch)|, e)
  {
    hide Changes, Loadable;
    NeverNamesRevert(c, u.patch);
  }

  lemma {:induction false} UpdatesKeepRevert(c: Settings, us: seq<Update>, i: nat, e: Entry)
    requires Loadable(c) && RevertAt(c.audit, i, e) && i + Entries(c, us) < AUDIT_MAX
    ensures RevertAt(Updated(c, us).audit, i + Entries(c, us), e)
    decreases |us|
  {
    hide Changes, Loadable, RevertAt, New, Updated, Entries;
    if us == [] {
      NoUpdates(c);
    } else {
      FirstUpdate(c, us);
      UpdateKeepsRevert(c, us[0], i, e);
      UpdatesKeepRevert(New(c, us[0].patch, us[0].at, us[0].adminId), us[1..], i + |Changes(c, us[0].patch)|, e);
    }
  }

  /** None of the newest `m` entries is a revert. */
  predicate NoRevert(audit: seq<Entry>, m: nat) {
    forall j | 0 <= j < |audit| && j < m :: audit[j].change.field != RevertField
  }

  lemma UpdatePushesDown(c: Settings, u: Update, m: nat)
    requires Loadable(c) && NoRevert(c.audit, m)
    ensures NoRevert(New(c, u.patch, u.at, u.adminId).audit, m + |Changes(c, u.patch)|)
  {
    hide Changes, Loadable;
    NeverNamesRevert(c, u.patch);
  }

  lemma {:induction false} UpdatesPushDown(c: Settings, us: seq<Update>, m: nat)
    requires Loadable(c) && NoRevert(c.audit, m)
    ensures NoRevert(Updated(c, us).audit, m + Entries(c, us))
    decreases |us|
  {
    hide Changes, Loadable, NoRevert, New, Updated, Entries;
    if us == [] {
      NoUpdates(c);
    } else {
      FirstUpdate(c, us);
      UpdatePushesDown(c, us[0], m);
      UpdatesPushDown(New(c, us[0].patch, us[0].at, us[0].adminId), us[1..], m + |Changes(c, us[0].patch)|);
    }
  }

  lemma {:induction false} NoRevertNoUndo(audit: seq<Entry>, m: nat)
    requires NoRevert(audit, m) && |audit| <= m
    ensures LastRevert(audit) == None
  {
    if audit != [] {
      assert audit[0].change.field != RevertField;
      assert forall j | 0 <= j < |audit| - 1 :: audit[1..][j] == audit[j + 1];
      NoRevertNoUndo(audit[1..], m);
    }
  }

  /** The modes of `c` are back, and everything else is as `d` has it. */
  predicate Restores(undo: Undo, c: Settings, d: Settings) {
    undo.Undone? &&
    var u := LoadRow(Some(undo.row));
    u == d.(engineMode := c.engineMode, storeOverrides := c.storeOverrides, audit := u.audit)
  }

  /** After a revert and any updates undo restores the modes from before the revert if and
      only if the updates wrote fewer than fifty entries; otherwise there is nothing to undo. */
  lemma RevertUndo(c: Settings, at: int, adminId: Option<string>, us: seq<Update>, later: int, undoer: Option<string>)
    requires Loadable(c)
    ensures var r := LoadRow(Some(RevertedRow(c, at, adminId)));
      var undo := UndoneRow(Updated(r, us), later, undoer);
      && (Restores(undo, c, Updated(r, us)) <==> Entries(r, us) < AUDIT_MAX)
      && (undo == NothingToUndo <==> Entries(r, us) >= 50)
  {
    hide RevertedRow, LoadRow, UndoneRow, Updated, Entries, Loadable, RevertChange, LastRevert;
    var r := LoadRow(Some(RevertedRow(c, at, adminId)));
    RevertMeans(c, at, adminId);
    if Entries(r, us) < 50 {
      var e := Entry(at, adminId, RevertChange(c));
      RevertIsFirst(c, at, adminId);
      UpdatesKeepRevert(r, us, 0, e);
      UndoMeans(c, Updated(r, us), Entries(r, us), e, later, undoer);
    } else {
      UpdatesPushDown(r, us, 0);
      AuditCapped(Updated(r, us));
      NoRevertNoUndo(Updated(r, us).audit, Entries(r, us));
      NothingFound(Updated(r, us), later, undoer);
    }
  }

  lemma AuditCapped(c: Settings)
    requires Loadable(c)
    ensures |c.audit| <= AUDIT_MAX
  {
  }

  lemma NothingFound(d: Settings, at: int, adminId: Option<string>)
    requires LastRevert(d.audit) == None
    ensures UndoneRow(d, at, adminId) == NothingToUndo
  {
  }

  lemma RevertIsFirst(c: Settings, at: int, adminId: Option<string>)
    ensures RevertAt(WithAudit(c, at, adminId, [RevertChange(c)]), 0, Entry(at, adminId, RevertChange(c)))
  {
    hide ModesValue;
  }

  // ----- what a revert and its undo add to the audit -----

  /** The mode and the overrides that an audit value names. */
  predicate Names(v: Value, engine: EngineMode, overrides: Option<map<Name, EngineMode>>) {
    && v.Object? && Lookup(v.fields, Setting(EngineModeName)) == (if engine == Lean then Text("lean") else Text("stable"))
    && (overrides.Some? ==> ReadOverrides(Lookup(v.fields, Setting(StoreOverridesName))) == overrides.value)
  }

  lemma ModesAreNamed(engine: EngineMode, overrides: map<Name, EngineMode>)
    requires Proto !in overrides
    ensures Names(ModesValue(engine, overrides), engine, Some(overrides))
  {
    hide ReadOverrides, OverridesValue;
    OverridesReadBack(overrides);
  }

  /** A revert is dated and signed, and names the modes before it and stable without overrides. */
  lemma RevertIsLogged(c: Settings, at: int, adminId: Option<string>)
    requires Loadable(c)
    ensures var audit := LoadRow(Some(RevertedRow(c, at, adminId))).audit;
      && audit != [] && audit[0].at == at && audit[0].adminId == adminId && audit[0].change.field == RevertField
      && Names(audit[0].change.from, c.engineMode, Some(c.storeOverrides)) && Names(audit[0].change.to, Stable, Some(map[]))
  {
    ModesAreNamed(c.engineMode, c.storeOverrides) by { assert Loadable(c); }
    ModesAreNamed(Stable, map[]);
    hide LoadRow, RevertedRow, WithAudit, Names, ModesValue, Loadable;
    RevertMeans(c, at, adminId);
    RevertIsFirst(c, at, adminId);
  }

  lemma Loads(r: Row, audit: seq<Entry>, engine: EngineMode)
    requires Lookup(r.layers, Setting(AuditName)) == List(audit) && |audit| <= 50
    requires Lookup(r.layers, Setting(EngineModeName)) == EngineValue(engine)
    ensures LoadRow(Some(r)).audit == audit && LoadRow(Some(r)).engineMode == engine
  {
    hide EngineValue, ReadEngine, ReadOverrides, ReadLayer;
    ModesReadBack(On, engine);
  }

  /** So is an undo, and it names the mode before it and the mode after it. */
  lemma UndoIsLogged(d: Settings, at: int, adminId: Option<string>)
    requires Loadable(d) && UndoneRow(d, at, adminId).Undone?
    ensures var c := LoadRow(Some(UndoneRow(d, at, adminId).row));
      && c.audit != [] && c.audit[0].at == at && c.audit[0].adminId == adminId && c.audit[0].change.field == UndoField
      && Names(c.audit[0].change.from, d.engineMode, None) && Names(c.audit[0].change.to, c.engineMode, None)
  {
    hide RawLayers, ReadEngine, LastRevert, LoadRow, Loadable;
    var row := UndoneRow(d, at, adminId).row;
    var from := LastRevert(d.audit).value.change.from;
    var engine := ReadEngine(Lookup(if from.Object? then from.fields else map[], Setting(EngineModeName)));
    Loads(row, row.layers[Setting(AuditName)].entries, if engine.Some? then engine.value else Stable);
  }
}
