/**
  Where the engine as written already round-trips. The two modes part only at
  `Number(obj)` and at instances met by `is_type`; an annotation that names no
  record class, no union and no `Number` loads the same way in both, so an
  instance whose fields have such annotations comes back from its own dump
  with the engine exactly as written.
*/
module LoadModes {
  import opened Wrappers
  import opened Values
  import opened TypeCheck
  import opened Init
  import opened LoadValue
  import opened DumpValue
  import opened RoundTrip
  import opened Schemas

  /** No record class occurs anywhere in `t`. */
  predicate RecordFree(t: TypeDesc) {
    match t
    case Prim(_) => true
    case Record(_) => false
    case Union(alts) => forall i :: 0 <= i < |alts| ==> RecordFree(alts[i])
    case ListOf(e) => RecordFree(e)
    case TupleOf(ds) => forall i :: 0 <= i < |ds| ==> RecordFree(ds[i])
    case DictOf(k, x) => RecordFree(k) && RecordFree(x)
    case SetOf(e) => RecordFree(e)
  }

  /** `t` names no record class, no union and no `Number`: nothing whose loading depends on the mode. */
  predicate ModeFree(t: TypeDesc) {
    match t
    case Prim(k) => k != NumberKind
    case Record(_) => false
    case Union(_) => false
    case ListOf(e) => ModeFree(e)
    case TupleOf(ds) => forall i :: 0 <= i < |ds| ==> ModeFree(ds[i])
    case DictOf(k, x) => ModeFree(k) && ModeFree(x)
    case SetOf(e) => ModeFree(e)
  }

  // ---------------------------------------------------------------------------
  // Loading under a mode-free annotation does not depend on the mode.

  /** Under a mode-free annotation, `load_value` gives the same result (or raises the same way) in both modes. */
  lemma {:induction false} LoadModesAgree(v: Value, t: TypeDesc, reg: Registry)
    requires WfRegistry(reg) && RefsBelow(t, |reg|) && ModeFree(t)
    ensures Load(AsWritten, v, t, reg) == Load(Intended, v, t, reg)
    decreases v, t, 1
  {
    match t
    case Prim(_) =>
    case TupleOf(ds) =>
      if (v.VList? || v.VTuple?) && |ds| == |v.items| {
        PositionsLoadAgree(v, t, 0, reg);
      }
    case ListOf(_) =>
      if v.VList? || v.VTuple? || v.VSet? {
        ItemsLoadAgree(v, t, 0, reg);
      }
    case DictOf(_, _) =>
      if v.VDict? {
        EntriesLoadAgree(v, t, 0, [], reg);
      }
    case SetOf(_) =>
      if v.VList? || v.VTuple? || v.VSet? {
        SetItemsLoadAgree(v, t, 0, [], reg);
      }
  }

  lemma {:induction false} PositionsLoadAgree(v: Value, t: TypeDesc, i: nat, reg: Registry)
    requires WfRegistry(reg) && RefsBelow(t, |reg|) && t.TupleOf? && ModeFree(t)
    requires (v.VList? || v.VTuple?) && |v.items| == |t.elems| && i <= |v.items|
    ensures LoadPositions(AsWritten, v, t, i, reg) == LoadPositions(Intended, v, t, i, reg)
    decreases v, t, 0, |v.items| - i
  {
    if i < |v.items| {
      LoadModesAgree(v.items[i], t.elems[i], reg);
      PositionsLoadAgree(v, t, i + 1, reg);
    }
  }

  lemma {:induction false} ItemsLoadAgree(v: Value, t: TypeDesc, i: nat, reg: Registry)
    requires WfRegistry(reg) && RefsBelow(t, |reg|) && t.ListOf? && ModeFree(t)
    requires (v.VList? || v.VTuple? || v.VSet?) && i <= |v.items|
    ensures LoadItems(AsWritten, v, t, i, reg) == LoadItems(Intended, v, t, i, reg)
    decreases v, t, 0, |v.items| - i
  {
    if i < |v.items| {
      LoadModesAgree(v.items[i], t.elem, reg);
      ItemsLoadAgree(v, t, i + 1, reg);
    }
  }

  lemma {:induction false} EntriesLoadAgree(v: Value, t: TypeDesc, i: nat, acc: seq<Entry>, reg: Registry)
    requires WfRegistry(reg) && RefsBelow(t, |reg|) && t.DictOf? && ModeFree(t)
    requires v.VDict? && i <= |v.entries| && DistinctKeys(acc)
    ensures LoadEntries(AsWritten, v, t, i, acc, reg) == LoadEntries(Intended, v, t, i, acc, reg)
    decreases v, t, 0, |v.entries| - i
  {
    if i < |v.entries| {
      LoadModesAgree(v.entries[i].key, t.key, reg);
      LoadModesAgree(v.entries[i].val, t.val, reg);
      var k := Load(Intended, v.entries[i].key, t.key, reg);
      var x := Load(Intended, v.entries[i].val, t.val, reg);
      if k.Ok? && x.Ok? && Hashable(k.value) {
        EntriesLoadAgree(v, t, i + 1, Put(acc, k.value, x.value), reg);
      }
    }
  }

  lemma {:induction false} SetItemsLoadAgree(v: Value, t: TypeDesc, i: nat, acc: seq<Value>, reg: Registry)
    requires WfRegistry(reg) && RefsBelow(t, |reg|) && t.SetOf? && ModeFree(t)
    requires (v.VList? || v.VTuple? || v.VSet?) && i <= |v.items| && Distinct(acc)
    ensures LoadSetItems(AsWritten, v, t, i, acc, reg) == LoadSetItems(Intended, v, t, i, acc, reg)
    decreases v, t, 0, |v.items| - i
  {
    if i < |v.items| {
      LoadModesAgree(v.items[i], t.elem, reg);
      var x := Load(Intended, v.items[i], t.elem, reg);
      if x.Ok? && Hashable(x.value) {
        SetItemsLoadAgree(v, t, i + 1, AddUnique(acc, x.value), reg);
      }
    }
  }

  // ---------------------------------------------------------------------------
  // Neither wire values nor loaded values of record-free annotations hold instances.

  lemma {:induction false} WireHasNoInstances(w: Value)
    requires IsWire(w)
    ensures NoInstances(w)
    decreases w
  {
    match w
    case VList(items) =>
      forall i | 0 <= i < |items| ensures NoInstances(items[i]) {
        WireHasNoInstances(items[i]);
      }
    case VDict(es) =>
      forall i | 0 <= i < |es| ensures NoInstances(es[i].key) && NoInstances(es[i].val) {
        WireHasNoInstances(es[i].val);
      }
    case _ =>
  }

  lemma {:induction false} TypedHasNoInstances(x: Value, t: TypeDesc, reg: Registry)
    requires WfRegistry(reg) && RefsBelow(t, |reg|) && RecordFree(t) && Typed(x, t, reg)
    ensures NoInstances(x)
    decreases x
  {
    match t
    case Prim(k) =>
      if k == ListKind {
        forall i | 0 <= i < |x.items| ensures NoInstances(x.items[i]) {
          WireHasNoInstances(x.items[i]);
        }
      }
    case ListOf(e) =>
      forall i | 0 <= i < |x.items| ensures NoInstances(x.items[i]) {
        TypedHasNoInstances(x.items[i], e, reg);
      }
    case TupleOf(ds) =>
      forall i | 0 <= i < |x.items| ensures NoInstances(x.items[i]) {
        TypedHasNoInstances(x.items[i], ds[i], reg);
      }
    case SetOf(e) =>
      forall i | 0 <= i < |x.items| ensures NoInstances(x.items[i]) {
        TypedHasNoInstances(x.items[i], e, reg);
      }
    case DictOf(kt, vt) =>
      forall i | 0 <= i < |x.entries| ensures NoInstances(x.entries[i].key) && NoInstances(x.entries[i].val) {
        TypedHasNoInstances(x.entries[i].key, kt, reg);
        TypedHasNoInstances(x.entries[i].val, vt, reg);
      }
  }

  // ---------------------------------------------------------------------------
  // The record round trip with the engine as written.

  /** Where `v` holds field `f`'s key, its value loads the same way in both modes. */
  predicate FieldLoadsAlike(v: Value, f: Field, reg: Registry)
    requires WfRegistry(reg) && RefsBelow(f.ty, |reg|)
  {
    v.VDict? && FindKey(v.entries, VStr(f.name)).Some? ==>
      Load(AsWritten, Lookup(v, f.name), f.ty, reg) == Load(Intended, Lookup(v, f.name), f.ty, reg)
  }

  /** The `loads` loop of a value without instances, whose fields load alike, does not depend on the mode. */
  lemma {:induction false} FieldsLoadAgree(v: Value, c: nat, i: nat, reg: Registry)
    requires WfRegistry(reg) && c < |reg| && i <= |reg[c].fields| && NoInstances(v)
    requires forall k :: i <= k < |reg[c].fields| ==> FieldLoadsAlike(v, reg[c].fields[k], reg)
    ensures LoadFields(AsWritten, v, c, i, reg) == LoadFields(Intended, v, c, i, reg)
    decreases |reg[c].fields| - i
  {
    if i < |reg[c].fields| {
      var f := reg[c].fields[i];
      if v.VDict? && FindKey(v.entries, VStr(f.name)).Some? {
        var j := FindKey(v.entries, VStr(f.name)).value;
        ModesAgreeWithoutInstances(v.entries[j].val, f.ty, reg);
        assert FieldLoadsAlike(v, f, reg);
      }
      FieldsLoadAgree(v, c, i + 1, reg);
    }
  }

  /** Field `k` of `x` either has a mode-free annotation or its dump loads alike in both modes. */
  predicate FieldReloadsAlike(x: Value, k: nat, reg: Registry)
    requires WfRegistry(reg) && x.VObj? && x.cls < |reg| && k < |reg[x.cls].fields| && k < |x.vals|
  {
    var ty := reg[x.cls].fields[k].ty;
    RecordFree(ty) &&
    (ModeFree(ty) ||
     (Dump(x.vals[k], reg).Ok? && Load(AsWritten, Dump(x.vals[k], reg).value, ty, reg) == Load(Intended, Dump(x.vals[k], reg).value, ty, reg)))
  }

  /**
    With the engine exactly as written, a loaded-shape instance whose field
    annotations name no record class comes back from its own dump, provided
    each field is mode-free or (like an empty `Number` dict) loads alike.
  */
  lemma RecordReloadsAsWritten(x: Value, c: nat, reg: Registry)
    requires WfRegistry(reg) && c < |reg| && PlainRegistry(reg) && Typed(x, Record(c), reg)
    requires forall k :: 0 <= k < |reg[c].fields| ==> FieldReloadsAlike(x, k, reg)
    ensures Dump(x, reg).Ok? && IsWire(Dump(x, reg).value)
    ensures Load(AsWritten, Dump(x, reg).value, Record(c), reg) == Ok(x)
  {
    var fields := reg[c].fields;
    DumpedFieldsLoadAlike(x, c, reg);
    var w := Dump(x, reg).value;
    DumpedKeywords(x, c, reg);
    var kw := LoadFields(Intended, w, c, 0, reg).value;
    forall m | 0 <= m < |kw| ensures Check(AsWritten, kw[m].1, fields[m].ty, reg) == Pass && x.vals[m] == kw[m].1 {
      assert FieldReloadsAlike(x, m, reg);
      TypedPassesAsWritten(x.vals[m], fields[m].ty, reg);
    }
    AllKeywordsConstruct(AsWritten, reg, c, kw);
    assert KwValues(kw) == x.vals;
    assert Loads(AsWritten, w, c, reg) == Ok(x);
  }

  /** The dump of such an instance reloads (repaired), and its `loads` loop runs the same in both modes. */
  lemma DumpedFieldsLoadAlike(x: Value, c: nat, reg: Registry)
    requires WfRegistry(reg) && c < |reg| && PlainRegistry(reg) && Typed(x, Record(c), reg)
    requires forall k :: 0 <= k < |reg[c].fields| ==> FieldReloadsAlike(x, k, reg)
    ensures Reloads(x, Record(c), reg)
    ensures LoadFields(AsWritten, Dump(x, reg).value, c, 0, reg) == LoadFields(Intended, Dump(x, reg).value, c, 0, reg)
  {
    var fields := reg[c].fields;
    DumpThenLoadRecord(x, c, reg);
    forall k | 0 <= k < |fields| ensures Reloads(x.vals[k], fields[k].ty, reg) {
      DumpThenLoad(x.vals[k], fields[k].ty, reg);
    }
    DumpedRecord(x, reg);
    var w := Dump(x, reg).value;
    WireHasNoInstances(w);
    forall k | 0 <= k < |fields| ensures FieldLoadsAlike(w, fields[k], reg) {
      assert FieldReloadsAlike(x, k, reg);
      if ModeFree(fields[k].ty) {
        LoadModesAgree(Lookup(w, fields[k].name), fields[k].ty, reg);
      }
    }
    FieldsLoadAgree(w, c, 0, reg);
  }

  /** The repaired `loads` loop over the dump of a loaded-shape instance collects that instance's fields. */
  lemma DumpedKeywords(x: Value, c: nat, reg: Registry)
    requires WfRegistry(reg) && c < |reg| && PlainRegistry(reg) && Typed(x, Record(c), reg)
    ensures Dump(x, reg).Ok? && LoadFields(Intended, Dump(x, reg).value, c, 0, reg).Ok?
    ensures KwValues(LoadFields(Intended, Dump(x, reg).value, c, 0, reg).value) == x.vals
  {
    var fields := reg[c].fields;
    forall k | 0 <= k < |fields| ensures Reloads(x.vals[k], fields[k].ty, reg) {
      DumpThenLoad(x.vals[k], fields[k].ty, reg);
    }
    DumpedRecord(x, reg);
    var w := Dump(x, reg).value;
    LoadFieldsOk(w, c, 0, reg);
    LoadedFieldsAre(w, x, reg);
  }

  /** A loaded-shape value of a record-free annotation passes `is_type` as written. */
  lemma TypedPassesAsWritten(x: Value, t: TypeDesc, reg: Registry)
    requires WfRegistry(reg) && RefsBelow(t, |reg|) && RecordFree(t) && Typed(x, t, reg)
    ensures Check(AsWritten, x, t, reg) == Pass
  {
    TypedHasNoInstances(x, t, reg);
    TypedPasses(x, t, reg);
    ModesAgreeWithoutInstances(x, t, reg);
  }

  // ---------------------------------------------------------------------------
  // The game's classes.

  /** `Ability` (a name and a list of effect names) round-trips with the engine exactly as written. */
  lemma AbilityRoundTripAsWritten(x: Value)
    requires Typed(x, Record(AbilityClass), Game())
    ensures Dump(x, Game()).Ok? && Load(AsWritten, Dump(x, Game()).value, Record(AbilityClass), Game()) == Ok(x)
  {
    GamePlain();
    RecordReloadsAsWritten(x, AbilityClass, Game());
  }

  /**
    A `Profile` with no skills round-trips with the engine exactly as written:
    the skills annotation names `Number`, but an empty dict loads without
    calling it.
  */
  lemma ProfileRoundTripAsWritten(x: Value)
    requires Typed(x, Record(ProfileClass), Game()) && x.vals[2] == VDict([])
    ensures Dump(x, Game()).Ok? && Load(AsWritten, Dump(x, Game()).value, Record(ProfileClass), Game()) == Ok(x)
  {
    var reg := Game();
    GamePlain();
    var skills := DictOf(Str, Prim(NumberKind));
    assert Dump(VDict([]), reg) == Ok(VDict([]));
    assert LoadEntries(AsWritten, VDict([]), skills, 0, [], reg) == Ok([]);
    assert LoadEntries(Intended, VDict([]), skills, 0, [], reg) == Ok([]);
    assert FieldReloadsAlike(x, 2, reg);
    RecordReloadsAsWritten(x, ProfileClass, reg);
  }
}
