/**
  How the four parts of the engine fit together, for the repaired engine and
  annotations without unions (whose reload can pick a different alternative,
  see `UnionRoundTripFails`): a wire value that passes `is_type` loads; what
  loads passes `is_type` again; and what loads dumps to a wire value that
  passes and reloads to the same value.
*/
module RoundTrip {
  import opened Wrappers
  import opened Values
  import opened TypeCheck
  import opened Init
  import opened LoadValue
  import opened DumpValue

  /** Annotations whose values can be set elements: they load to hashable values. */
  predicate HashableDesc(t: TypeDesc) {
    match t
    case Prim(k) => k != ListKind
    case Record(_) => true
    case TupleOf(ds) => forall i :: 0 <= i < |ds| ==> HashableDesc(ds[i])
    case _ => false
  }

  /**
    Annotations the round trip is stated for: no unions, dict keys that are
    strings (JSON object keys are), set elements of a hashable annotation.
  */
  predicate Plain(t: TypeDesc) {
    match t
    case Prim(_) => true
    case Record(_) => true
    case Union(_) => false
    case ListOf(e) => Plain(e)
    case TupleOf(ds) => forall i :: 0 <= i < |ds| ==> Plain(ds[i])
    case DictOf(k, x) => k == Prim(StrKind) && Plain(x)
    case SetOf(e) => HashableDesc(e) && Plain(e)
  }

  predicate PlainRegistry(reg: Registry) {
    forall c, i :: 0 <= c < |reg| && 0 <= i < |reg[c].fields| ==> Plain(reg[c].fields[i].ty)
  }

  /** The values `load_value` produces for a primitive annotation. */
  predicate TypedPrim(x: Value, k: PrimKind) {
    match k
    case BoolKind => x.VBool?
    case IntKind => x.VInt?
    case FloatKind => x.VFloat?
    case NumberKind => x.VBool? || x.VInt? || x.VFloat?
    case StrKind => x.VStr?
    case ListKind => x.VList? && forall i :: 0 <= i < |x.items| ==> IsWire(x.items[i])
  }

  /**
    `x` is a loaded value of annotation `t`: instances of the named class with
    every field typed, lists, tuples, dicts with distinct keys and sets without
    duplicates, each holding typed values.
  */
  predicate Typed(x: Value, t: TypeDesc, reg: Registry)
    requires WfRegistry(reg) && RefsBelow(t, |reg|)
    decreases x
  {
    match t
    case Prim(k) => TypedPrim(x, k)
    case Record(c) =>
      x.VObj? && x.cls == c && |x.vals| == |reg[c].fields| &&
      forall k :: 0 <= k < |x.vals| ==> Typed(x.vals[k], reg[c].fields[k].ty, reg)
    case Union(_) => false
    case ListOf(e) => x.VList? && forall i :: 0 <= i < |x.items| ==> Typed(x.items[i], e, reg)
    case TupleOf(ds) =>
      x.VTuple? && |x.items| == |ds| && forall i :: 0 <= i < |ds| ==> Typed(x.items[i], ds[i], reg)
    case DictOf(kt, vt) =>
      x.VDict? && DistinctKeys(x.entries) &&
      forall i :: 0 <= i < |x.entries| ==> Typed(x.entries[i].key, kt, reg) && Typed(x.entries[i].val, vt, reg)
    case SetOf(e) => x.VSet? && Distinct(x.items) && forall i :: 0 <= i < |x.items| ==> Typed(x.items[i], e, reg)
  }

  // ---------------------------------------------------------------------------
  // Loaded values pass `is_type`; set elements hash; wire values dump to themselves.

  /** A loaded value passes its own annotation (repaired engine). */
  lemma {:induction false} TypedPasses(x: Value, t: TypeDesc, reg: Registry)
    requires WfRegistry(reg) && RefsBelow(t, |reg|) && Typed(x, t, reg)
    ensures Check(Intended, x, t, reg) == Pass
    decreases x
  {
    match t
    case Prim(_) =>
    case Record(_) =>
    case ListOf(e) =>
      forall k | 0 <= k < |x.items| ensures Check(Intended, x.items[k], e, reg) == Pass {
        TypedPasses(x.items[k], e, reg);
      }
      ListRule(Intended, x, e, reg);
    case TupleOf(ds) =>
      forall k | 0 <= k < |ds| ensures Check(Intended, x.items[k], ds[k], reg) == Pass {
        TypedPasses(x.items[k], ds[k], reg);
      }
      TupleRule(Intended, x, ds, reg);
    case DictOf(kt, vt) =>
      forall k | 0 <= k < |x.entries|
        ensures Check(Intended, x.entries[k].key, kt, reg) == Pass && Check(Intended, x.entries[k].val, vt, reg) == Pass
      {
        TypedPasses(x.entries[k].key, kt, reg);
        TypedPasses(x.entries[k].val, vt, reg);
      }
      DictRule(Intended, x, kt, vt, reg);
    case SetOf(e) =>
      forall k | 0 <= k < |x.items| ensures Check(Intended, x.items[k], e, reg) == Pass {
        TypedPasses(x.items[k], e, reg);
      }
      SetRule(Intended, x, e, reg);
  }

  /** A loaded value of a hashable annotation hashes. */
  lemma {:induction false} TypedHashable(x: Value, t: TypeDesc, reg: Registry)
    requires WfRegistry(reg) && RefsBelow(t, |reg|) && HashableDesc(t) && Typed(x, t, reg)
    ensures Hashable(x)
    decreases x
  {
    match t
    case Prim(_) =>
    case Record(_) =>
    case TupleOf(ds) =>
      forall k | 0 <= k < |x.items| ensures Hashable(x.items[k]) {
        TypedHashable(x.items[k], ds[k], reg);
      }
  }

  /** `dump_value` leaves a wire value as it is. */
  lemma {:induction false} WireDumpsToItself(w: Value, reg: Registry)
    requires WfRegistry(reg) && IsWire(w)
    ensures Dump(w, reg) == Ok(w)
    decreases w
  {
    match w
    case VList(items) =>
      forall k | 0 <= k < |items| ensures Dump(items[k], reg) == Ok(items[k]) {
        WireDumpsToItself(items[k], reg);
      }
      DumpedItems(w, reg);
      assert Dump(w, reg).value.items == items;
    case VDict(es) =>
      forall k | 0 <= k < |es| ensures Dump(es[k].val, reg) == Ok(es[k].val) {
        WireDumpsToItself(es[k].val, reg);
      }
      DumpedDict(w, es, reg);
    case _ =>
  }

  // ---------------------------------------------------------------------------
  // A wire value that passes `is_type` loads, to a typed value.

  /** `load_value` on a wire value that passes its annotation succeeds and yields a typed value. */
  lemma {:induction false} WireLoads(v: Value, t: TypeDesc, reg: Registry)
    requires WfRegistry(reg) && RefsBelow(t, |reg|) && PlainRegistry(reg) && Plain(t)
    requires IsWire(v) && Check(Intended, v, t, reg) == Pass
    ensures Load(Intended, v, t, reg).Ok? && Typed(Load(Intended, v, t, reg).value, t, reg)
    decreases v, 1
  {
    match t
    case Prim(k) =>
    case Record(c) => WireLoadsRecord(v, c, reg);
    case ListOf(e) => WireLoadsList(v, e, reg);
    case TupleOf(ds) => WireLoadsTuple(v, ds, reg);
    case DictOf(kt, vt) => WireLoadsDict(v, vt, reg);
    case SetOf(e) => WireLoadsSet(v, e, reg);
  }

  lemma {:induction false} WireLoadsRecord(v: Value, c: nat, reg: Registry)
    requires WfRegistry(reg) && c < |reg| && PlainRegistry(reg)
    requires IsWire(v) && Check(Intended, v, Record(c), reg) == Pass
    ensures Load(Intended, v, Record(c), reg).Ok? && Typed(Load(Intended, v, Record(c), reg).value, Record(c), reg)
    decreases v, 0, 1
  {
    WireFieldsLoad(v, c, reg);
    LoadedFieldsTyped(v, c, reg);
    RecordFromTyped(c, LoadFields(Intended, v, c, 0, reg).value, reg);
  }

  /** `v` holds the key of field `f`, whose value loads to a typed value. */
  predicate FieldLoadsTyped(v: Value, f: Field, reg: Registry)
    requires WfRegistry(reg) && RefsBelow(f.ty, |reg|)
  {
    v.VDict? && FindKey(v.entries, VStr(f.name)).Some? &&
    Load(Intended, Lookup(v, f.name), f.ty, reg).Ok? &&
    Typed(Load(Intended, Lookup(v, f.name), f.ty, reg).value, f.ty, reg)
  }

  /** Keyword `m` of a successful `loads` loop is typed when every field's value loads to a typed value. */
  lemma LoadedFieldsTyped(v: Value, c: nat, reg: Registry)
    requires WfRegistry(reg) && c < |reg| && LoadFields(Intended, v, c, 0, reg).Ok?
    requires forall k :: 0 <= k < |reg[c].fields| ==> FieldLoadsTyped(v, reg[c].fields[k], reg)
    ensures forall m :: 0 <= m < |reg[c].fields| ==>
      Typed(LoadFields(Intended, v, c, 0, reg).value[m].1, reg[c].fields[m].ty, reg)
  {
    var fields := reg[c].fields;
    var kw := LoadFields(Intended, v, c, 0, reg).value;
    forall m | 0 <= m < |kw|
      ensures Typed(kw[m].1, fields[m].ty, reg)
    {
      LoadFieldsValue(Intended, v, c, m, reg);
      assert FieldLoaded(Intended, v, fields[m], kw[m].1, reg);
    }
  }

  /** The `loads` loop over a passing wire dict finds every key and loads every value to a typed one. */
  lemma {:induction false} WireFieldsLoad(v: Value, c: nat, reg: Registry)
    requires WfRegistry(reg) && c < |reg| && PlainRegistry(reg)
    requires IsWire(v) && Check(Intended, v, Record(c), reg) == Pass
    ensures LoadFields(Intended, v, c, 0, reg).Ok?
    ensures forall k :: 0 <= k < |reg[c].fields| ==> FieldLoadsTyped(v, reg[c].fields[k], reg)
    decreases v, 0, 0
  {
    var fields := reg[c].fields;
    if v.VDict? {
      RecordRule(Intended, v, c, reg);
      forall k | 0 <= k < |fields|
        ensures FieldLoadsTyped(v, fields[k], reg)
      {
        var j := FindKey(v.entries, VStr(fields[k].name)).value;
        assert Lookup(v, fields[k].name) == v.entries[j].val;
        WireLoads(v.entries[j].val, fields[k].ty, reg);
      }
      LoadFieldsOk(v, c, 0, reg);
    } else {
      assert |fields| == 0;
    }
  }

  /** `cls(**values)` with one typed keyword per field, in order, builds a typed instance. */
  lemma RecordFromTyped(c: nat, kw: Kwargs, reg: Registry)
    requires WfRegistry(reg) && c < |reg| && |kw| == |reg[c].fields|
    requires forall m :: 0 <= m < |kw| ==> kw[m].0 == reg[c].fields[m].name
    requires forall m :: 0 <= m < |kw| ==> Typed(kw[m].1, reg[c].fields[m].ty, reg)
    ensures Construct(Intended, reg, c, [], kw) == Ok(VObj(c, KwValues(kw)))
    ensures Typed(VObj(c, KwValues(kw)), Record(c), reg)
  {
    forall m | 0 <= m < |kw|
      ensures Check(Intended, kw[m].1, reg[c].fields[m].ty, reg) == Pass
    {
      TypedPasses(kw[m].1, reg[c].fields[m].ty, reg);
    }
    AllKeywordsConstruct(Intended, reg, c, kw);
  }

  lemma {:induction false} WireLoadsList(v: Value, e: TypeDesc, reg: Registry)
    requires WfRegistry(reg) && RefsBelow(e, |reg|) && PlainRegistry(reg) && Plain(e)
    requires IsWire(v) && Check(Intended, v, ListOf(e), reg) == Pass
    ensures Load(Intended, v, ListOf(e), reg).Ok? && Typed(Load(Intended, v, ListOf(e), reg).value, ListOf(e), reg)
    decreases v, 0
  {
    ListRule(Intended, v, e, reg);
    forall k | 0 <= k < |v.items|
      ensures Load(Intended, v.items[k], e, reg).Ok? && Typed(Load(Intended, v.items[k], e, reg).value, e, reg)
    {
      WireLoads(v.items[k], e, reg);
    }
    LoadItemsOk(v, ListOf(e), 0, reg);
  }

  lemma {:induction false} WireLoadsTuple(v: Value, ds: seq<TypeDesc>, reg: Registry)
    requires WfRegistry(reg) && RefsBelow(TupleOf(ds), |reg|) && PlainRegistry(reg) && Plain(TupleOf(ds))
    requires IsWire(v) && Check(Intended, v, TupleOf(ds), reg) == Pass
    ensures Load(Intended, v, TupleOf(ds), reg).Ok? && Typed(Load(Intended, v, TupleOf(ds), reg).value, TupleOf(ds), reg)
    decreases v, 0
  {
    TupleRule(Intended, v, ds, reg);
    forall k | 0 <= k < |ds|
      ensures Load(Intended, v.items[k], ds[k], reg).Ok? && Typed(Load(Intended, v.items[k], ds[k], reg).value, ds[k], reg)
    {
      WireLoads(v.items[k], ds[k], reg);
    }
    LoadPositionsOk(v, TupleOf(ds), 0, reg);
  }

  lemma {:induction false} WireLoadsDict(v: Value, vt: TypeDesc, reg: Registry)
    requires WfRegistry(reg) && RefsBelow(vt, |reg|) && PlainRegistry(reg) && Plain(vt)
    requires IsWire(v) && Check(Intended, v, DictOf(Prim(StrKind), vt), reg) == Pass
    ensures Load(Intended, v, DictOf(Prim(StrKind), vt), reg).Ok?
    ensures Typed(Load(Intended, v, DictOf(Prim(StrKind), vt), reg).value, DictOf(Prim(StrKind), vt), reg)
    decreases v, 0
  {
    var t := DictOf(Prim(StrKind), vt);
    DictRule(Intended, v, Prim(StrKind), vt, reg);
    forall k | 0 <= k < |v.entries|
      ensures Load(Intended, v.entries[k].val, vt, reg).Ok? && Typed(Load(Intended, v.entries[k].val, vt, reg).value, vt, reg)
    {
      WireLoads(v.entries[k].val, vt, reg);
    }
    LoadEntriesOk(v, t, 0, [], reg);
    var es := LoadEntries(Intended, v, t, 0, [], reg).value;
    forall i | 0 <= i < |es|
      ensures Typed(es[i].key, Prim(StrKind), reg) && Typed(es[i].val, vt, reg)
    {
      assert es[i] in es;
    }
  }

  lemma {:induction false} WireLoadsSet(v: Value, e: TypeDesc, reg: Registry)
    requires WfRegistry(reg) && RefsBelow(e, |reg|) && PlainRegistry(reg) && Plain(SetOf(e))
    requires IsWire(v) && Check(Intended, v, SetOf(e), reg) == Pass
    ensures Load(Intended, v, SetOf(e), reg).Ok? && Typed(Load(Intended, v, SetOf(e), reg).value, SetOf(e), reg)
    decreases v, 0
  {
    var t := SetOf(e);
    SetRule(Intended, v, e, reg);
    forall k | 0 <= k < |v.items|
      ensures Load(Intended, v.items[k], e, reg).Ok? && Typed(Load(Intended, v.items[k], e, reg).value, e, reg)
      ensures Hashable(Load(Intended, v.items[k], e, reg).value)
    {
      WireLoads(v.items[k], e, reg);
      TypedHashable(Load(Intended, v.items[k], e, reg).value, e, reg);
    }
    LoadSetItemsOk(v, t, 0, [], reg);
    SetItemsMembers(Intended, v, t, 0, [], reg);
    var xs := LoadSetItems(Intended, v, t, 0, [], reg).value;
    forall i | 0 <= i < |xs|
      ensures Typed(xs[i], e, reg)
    {
      assert xs[i] in xs;
    }
  }

  lemma {:induction false} LoadFieldsOk(v: Value, c: nat, i: nat, reg: Registry)
    requires WfRegistry(reg) && c < |reg| && i <= |reg[c].fields| && v.VDict?
    requires forall k :: i <= k < |reg[c].fields| ==>
      FindKey(v.entries, VStr(reg[c].fields[k].name)).Some? &&
      Check(Intended, Lookup(v, reg[c].fields[k].name), reg[c].fields[k].ty, reg) == Pass &&
      Load(Intended, Lookup(v, reg[c].fields[k].name), reg[c].fields[k].ty, reg).Ok?
    ensures LoadFields(Intended, v, c, i, reg).Ok?
    decreases |reg[c].fields| - i
  {
    if i < |reg[c].fields| {
      var f := reg[c].fields[i];
      assert Lookup(v, f.name) == v.entries[Subscript(v, f.name).value].val;
      LoadFieldsOk(v, c, i + 1, reg);
    }
  }

  lemma {:induction false} LoadItemsOk(v: Value, t: TypeDesc, i: nat, reg: Registry)
    requires WfRegistry(reg) && RefsBelow(t, |reg|) && t.ListOf?
    requires (v.VList? || v.VTuple? || v.VSet?) && i <= |v.items|
    requires forall k :: i <= k < |v.items| ==> Load(Intended, v.items[k], t.elem, reg).Ok?
    ensures LoadItems(Intended, v, t, i, reg).Ok?
    decreases |v.items| - i
  {
    if i < |v.items| {
      var x := Load(Intended, v.items[i], t.elem, reg);
      assert x.Ok?;
      LoadItemsOk(v, t, i + 1, reg);
      var rest := LoadItems(Intended, v, t, i + 1, reg);
      assert LoadItems(Intended, v, t, i, reg) == Ok([x.value] + rest.value);
    }
  }

  lemma {:induction false} LoadPositionsOk(v: Value, t: TypeDesc, i: nat, reg: Registry)
    requires WfRegistry(reg) && RefsBelow(t, |reg|) && t.TupleOf?
    requires (v.VList? || v.VTuple?) && |v.items| == |t.elems| && i <= |v.items|
    requires forall k :: i <= k < |v.items| ==> Load(Intended, v.items[k], t.elems[k], reg).Ok?
    ensures LoadPositions(Intended, v, t, i, reg).Ok?
    decreases |v.items| - i
  {
    if i < |v.items| {
      LoadPositionsOk(v, t, i + 1, reg);
    }
  }

  lemma {:induction false} LoadEntriesOk(v: Value, t: TypeDesc, i: nat, acc: seq<Entry>, reg: Registry)
    requires WfRegistry(reg) && RefsBelow(t, |reg|) && t.DictOf? && v.VDict? && i <= |v.entries| && DistinctKeys(acc)
    requires t.key == Prim(StrKind) && forall k :: i <= k < |v.entries| ==> v.entries[k].key.VStr?
    requires forall k :: i <= k < |v.entries| ==> Load(Intended, v.entries[k].val, t.val, reg).Ok?
    ensures LoadEntries(Intended, v, t, i, acc, reg).Ok?
    decreases |v.entries| - i
  {
    if i < |v.entries| {
      var x := Load(Intended, v.entries[i].val, t.val, reg).value;
      LoadEntriesOk(v, t, i + 1, Put(acc, v.entries[i].key, x), reg);
    }
  }

  /** The set comprehension succeeds when every element from `i` on loads to a hashable value. */
  lemma {:induction false} LoadSetItemsOk(v: Value, t: TypeDesc, i: nat, acc: seq<Value>, reg: Registry)
    requires SetLoop(v, t, i, acc, reg)
    requires forall k :: i <= k < |v.items| ==>
      Load(Intended, v.items[k], t.elem, reg).Ok? && Hashable(Load(Intended, v.items[k], t.elem, reg).value)
    ensures LoadSetItems(Intended, v, t, i, acc, reg).Ok?
    decreases |v.items| - i
  {
    if i < |v.items| {
      var x := Load(Intended, v.items[i], t.elem, reg).value;
      LoadSetItemsNext(v, t, i, acc, reg);
      LoadSetItemsOk(v, t, i + 1, AddUnique(acc, x), reg);
    }
  }

  /** One turn of the set comprehension whose element loads to a hashable value. */
  lemma LoadSetItemsNext(v: Value, t: TypeDesc, i: nat, acc: seq<Value>, reg: Registry)
    requires SetLoop(v, t, i, acc, reg) && i < |v.items|
    requires Load(Intended, v.items[i], t.elem, reg).Ok? && Hashable(Load(Intended, v.items[i], t.elem, reg).value)
    ensures LoadSetItems(Intended, v, t, i, acc, reg) ==
      LoadSetItems(Intended, v, t, i + 1, AddUnique(acc, Load(Intended, v.items[i], t.elem, reg).value), reg)
  {
  }

  // ---------------------------------------------------------------------------
  // A typed value dumps to a wire value that passes and reloads to itself.

  /** `dump_value(x)` is a wire value that passes `t` and loads back to `x`. */
  predicate Reloads(x: Value, t: TypeDesc, reg: Registry)
    requires WfRegistry(reg) && RefsBelow(t, |reg|)
  {
    Dump(x, reg).Ok? && IsWire(Dump(x, reg).value) &&
    Check(Intended, Dump(x, reg).value, t, reg) == Pass &&
    Load(Intended, Dump(x, reg).value, t, reg) == Ok(x)
  }

  /** The round trip: a loaded value survives `dump_value` then `load_value` unchanged. */
  lemma {:induction false} DumpThenLoad(x: Value, t: TypeDesc, reg: Registry)
    requires WfRegistry(reg) && RefsBelow(t, |reg|) && PlainRegistry(reg) && Plain(t) && Typed(x, t, reg)
    ensures Reloads(x, t, reg)
    decreases x, 1
  {
    match t
    case Prim(k) =>
      if k == ListKind {
        WireDumpsToItself(x, reg);
      }
    case Record(c) => DumpThenLoadRecord(x, c, reg);
    case ListOf(e) => DumpThenLoadList(x, e, reg);
    case TupleOf(ds) => DumpThenLoadTuple(x, ds, reg);
    case DictOf(_, vt) => DumpThenLoadDict(x, vt, reg);
    case SetOf(e) => DumpThenLoadSet(x, e, reg);
  }

  lemma {:induction false} DumpThenLoadRecord(x: Value, c: nat, reg: Registry)
    requires WfRegistry(reg) && c < |reg| && PlainRegistry(reg) && Typed(x, Record(c), reg)
    ensures Reloads(x, Record(c), reg)
    decreases x, 0
  {
    var fields := reg[c].fields;
    forall k | 0 <= k < |fields| ensures Reloads(x.vals[k], fields[k].ty, reg) {
      DumpThenLoad(x.vals[k], fields[k].ty, reg);
    }
    DumpedRecord(x, reg);
    var w := Dump(x, reg).value;
    RecordRule(Intended, w, c, reg);
    LoadDumpedRecord(w, x, reg);
  }

  /** `obj.dumps()` of an instance whose fields dump to wire values: a wire dict with one key per field. */
  lemma DumpedRecord(x: Value, reg: Registry)
    requires WfRegistry(reg) && x.VObj? && x.cls < |reg| && |x.vals| == |reg[x.cls].fields|
    requires forall k :: 0 <= k < |x.vals| ==> Dump(x.vals[k], reg).Ok? && IsWire(Dump(x.vals[k], reg).value)
    ensures Dump(x, reg).Ok? && Dump(x, reg).value.VDict? && IsWire(Dump(x, reg).value)
    ensures forall k :: 0 <= k < |x.vals| ==>
      FindKey(Dump(x, reg).value.entries, VStr(reg[x.cls].fields[k].name)) == Some(k) &&
      Lookup(Dump(x, reg).value, reg[x.cls].fields[k].name) == Dump(x.vals[k], reg).value
  {
    var fields := reg[x.cls].fields;
    DumpFieldsOk(x, 0, [], reg);
    DumpsRule(x, reg);
    var w := Dumps(x, reg).value;
    assert Dump(x, reg) == Ok(w);
    FieldKeys(fields, w.entries);
  }

  /** Entries keyed by distinct field names, in order, have distinct keys, and key `k` is found at `k`. */
  lemma FieldKeys(fields: seq<Field>, es: seq<Entry>)
    requires DistinctFieldNames(fields) && |es| == |fields|
    requires forall k :: 0 <= k < |es| ==> es[k].key == VStr(fields[k].name)
    ensures DistinctKeys(es)
    ensures forall k :: 0 <= k < |es| ==> FindKey(es, VStr(fields[k].name)) == Some(k)
  {
  }

  /** `Cls.loads` of the dump of a typed instance whose fields reload gives the instance back. */
  lemma LoadDumpedRecord(w: Value, x: Value, reg: Registry)
    requires WfRegistry(reg) && PlainRegistry(reg) && x.VObj? && x.cls < |reg| && Typed(x, Record(x.cls), reg)
    requires w.VDict? && |x.vals| == |reg[x.cls].fields|
    requires forall k :: 0 <= k < |x.vals| ==>
      FindKey(w.entries, VStr(reg[x.cls].fields[k].name)) == Some(k) &&
      Check(Intended, Lookup(w, reg[x.cls].fields[k].name), reg[x.cls].fields[k].ty, reg) == Pass &&
      Load(Intended, Lookup(w, reg[x.cls].fields[k].name), reg[x.cls].fields[k].ty, reg) == Ok(x.vals[k])
    ensures Load(Intended, w, Record(x.cls), reg) == Ok(x)
  {
    LoadFieldsOk(w, x.cls, 0, reg);
    LoadedFieldsAre(w, x, reg);
    RecordFromTyped(x.cls, LoadFields(Intended, w, x.cls, 0, reg).value, reg);
  }

  /** A `loads` loop over a dict whose key `k` loads to field `k` of `x` collects the fields of `x`. */
  lemma LoadedFieldsAre(w: Value, x: Value, reg: Registry)
    requires WfRegistry(reg) && x.VObj? && x.cls < |reg| && |x.vals| == |reg[x.cls].fields| && w.VDict?
    requires LoadFields(Intended, w, x.cls, 0, reg).Ok?
    requires forall k :: 0 <= k < |x.vals| ==>
      FindKey(w.entries, VStr(reg[x.cls].fields[k].name)).Some? &&
      Load(Intended, Lookup(w, reg[x.cls].fields[k].name), reg[x.cls].fields[k].ty, reg) == Ok(x.vals[k])
    ensures KwValues(LoadFields(Intended, w, x.cls, 0, reg).value) == x.vals
  {
    var fields := reg[x.cls].fields;
    var kw := LoadFields(Intended, w, x.cls, 0, reg).value;
    forall m | 0 <= m < |kw|
      ensures kw[m].1 == x.vals[m]
    {
      LoadFieldsValue(Intended, w, x.cls, m, reg);
      assert FieldLoaded(Intended, w, fields[m], kw[m].1, reg);
    }
  }

  lemma {:induction false} DumpThenLoadList(x: Value, e: TypeDesc, reg: Registry)
    requires WfRegistry(reg) && RefsBelow(e, |reg|) && PlainRegistry(reg) && Plain(e) && Typed(x, ListOf(e), reg)
    ensures Reloads(x, ListOf(e), reg)
    decreases x, 0
  {
    forall k | 0 <= k < |x.items| ensures Reloads(x.items[k], e, reg) {
      DumpThenLoad(x.items[k], e, reg);
    }
    DumpedItems(x, reg);
    WireListPasses(Dump(x, reg).value, e, reg);
    LoadDumpedList(x, e, Dump(x, reg).value, reg);
  }

  lemma {:induction false} DumpThenLoadTuple(x: Value, ds: seq<TypeDesc>, reg: Registry)
    requires WfRegistry(reg) && RefsBelow(TupleOf(ds), |reg|) && PlainRegistry(reg) && Plain(TupleOf(ds))
    requires Typed(x, TupleOf(ds), reg)
    ensures Reloads(x, TupleOf(ds), reg)
    decreases x, 0
  {
    forall k | 0 <= k < |ds| ensures Reloads(x.items[k], ds[k], reg) {
      DumpThenLoad(x.items[k], ds[k], reg);
    }
    DumpedItems(x, reg);
    WireTuplePasses(Dump(x, reg).value, ds, reg);
    LoadDumpedTuple(x, ds, Dump(x, reg).value, reg);
  }

  lemma {:induction false} DumpThenLoadSet(x: Value, e: TypeDesc, reg: Registry)
    requires WfRegistry(reg) && RefsBelow(e, |reg|) && PlainRegistry(reg) && Plain(SetOf(e)) && Typed(x, SetOf(e), reg)
    ensures Reloads(x, SetOf(e), reg)
    decreases x, 0
  {
    forall k | 0 <= k < |x.items| ensures Reloads(x.items[k], e, reg) && Hashable(x.items[k]) {
      DumpThenLoad(x.items[k], e, reg);
      TypedHashable(x.items[k], e, reg);
    }
    DumpedItems(x, reg);
    WireListPasses(Dump(x, reg).value, e, reg);
    LoadDumpedSet(x, e, Dump(x, reg).value, reg);
  }

  /** A list, tuple or set whose elements dump dumps to the list of their dumps. */
  lemma DumpedItems(x: Value, reg: Registry)
    requires WfRegistry(reg) && (x.VList? || x.VTuple? || x.VSet?)
    requires forall k :: 0 <= k < |x.items| ==> Dump(x.items[k], reg).Ok?
    ensures Dump(x, reg).Ok? && Dump(x, reg).value.VList? && |Dump(x, reg).value.items| == |x.items|
    ensures forall k :: 0 <= k < |x.items| ==> Dump(x.items[k], reg) == Ok(Dump(x, reg).value.items[k])
  {
    DumpItemsOk(x, 0, reg);
    assert Dump(x, reg) == Ok(VList(DumpItems(x, 0, reg).value));
  }

  /** A list of wire values that pass `e` is a wire value that passes `list[e]` and `set[e]`. */
  lemma WireListPasses(w: Value, e: TypeDesc, reg: Registry)
    requires WfRegistry(reg) && RefsBelow(e, |reg|) && w.VList?
    requires forall k :: 0 <= k < |w.items| ==> IsWire(w.items[k]) && Check(Intended, w.items[k], e, reg) == Pass
    ensures IsWire(w) && Check(Intended, w, ListOf(e), reg) == Pass && Check(Intended, w, SetOf(e), reg) == Pass
  {
    ListRule(Intended, w, e, reg);
    SetRule(Intended, w, e, reg);
  }

  /** A list of wire values that pass the positions of `ds` is a wire value that passes `tuple[ds]`. */
  lemma WireTuplePasses(w: Value, ds: seq<TypeDesc>, reg: Registry)
    requires WfRegistry(reg) && RefsBelow(TupleOf(ds), |reg|) && w.VList? && |w.items| == |ds|
    requires forall k :: 0 <= k < |w.items| ==> IsWire(w.items[k]) && Check(Intended, w.items[k], ds[k], reg) == Pass
    ensures IsWire(w) && Check(Intended, w, TupleOf(ds), reg) == Pass
  {
    TupleRule(Intended, w, ds, reg);
  }

  /** A list whose elements reload to the elements of a list `x` loads back to `x`. */
  lemma LoadDumpedList(x: Value, e: TypeDesc, w: Value, reg: Registry)
    requires WfRegistry(reg) && RefsBelow(e, |reg|) && x.VList?
    requires w.VList? && |w.items| == |x.items|
    requires forall k :: 0 <= k < |w.items| ==> Load(Intended, w.items[k], e, reg) == Ok(x.items[k])
    ensures Load(Intended, w, ListOf(e), reg) == Ok(x)
  {
    LoadItemsOk(w, ListOf(e), 0, reg);
    assert LoadItems(Intended, w, ListOf(e), 0, reg).value == x.items;
    ListLoadsItems(Intended, w, e, reg);
  }

  /** A list whose elements reload to the positions of a tuple `x` loads back to `x`. */
  lemma LoadDumpedTuple(x: Value, ds: seq<TypeDesc>, w: Value, reg: Registry)
    requires WfRegistry(reg) && RefsBelow(TupleOf(ds), |reg|) && x.VTuple?
    requires w.VList? && |w.items| == |x.items| == |ds|
    requires forall k :: 0 <= k < |w.items| ==> Load(Intended, w.items[k], ds[k], reg) == Ok(x.items[k])
    ensures Load(Intended, w, TupleOf(ds), reg) == Ok(x)
  {
    LoadPositionsOk(w, TupleOf(ds), 0, reg);
    assert LoadPositions(Intended, w, TupleOf(ds), 0, reg).value == x.items;
    TupleLoadsPositions(Intended, w, ds, reg);
  }

  /** A list whose elements reload to the distinct, hashable elements of a set `x` loads back to `x`. */
  lemma LoadDumpedSet(x: Value, e: TypeDesc, w: Value, reg: Registry)
    requires WfRegistry(reg) && RefsBelow(e, |reg|) && x.VSet? && Distinct(x.items)
    requires w.VList? && |w.items| == |x.items|
    requires forall k :: 0 <= k < |w.items| ==> Load(Intended, w.items[k], e, reg) == Ok(x.items[k]) && Hashable(x.items[k])
    ensures Load(Intended, w, SetOf(e), reg) == Ok(x)
  {
    LoadSetItemsExact(w, SetOf(e), 0, x.items, reg);
    assert x.items[..0] == [];
    SetLoadsItems(Intended, w, e, reg);
  }

  lemma {:induction false} DumpThenLoadDict(x: Value, vt: TypeDesc, reg: Registry)
    requires WfRegistry(reg) && RefsBelow(vt, |reg|) && PlainRegistry(reg) && Plain(vt)
    requires Typed(x, DictOf(Prim(StrKind), vt), reg)
    ensures Reloads(x, DictOf(Prim(StrKind), vt), reg)
    decreases x, 0
  {
    var es := x.entries;
    forall k | 0 <= k < |es| ensures Reloads(es[k].val, vt, reg) {
      DumpThenLoad(es[k].val, vt, reg);
    }
    var ws := seq(|es|, k requires 0 <= k < |es| => Dump(es[k].val, reg).value);
    var ds := Rekey(es, ws);
    DumpedDict(x, ds, reg);
    LoadDumpedDict(x, vt, ds, reg);
  }

  /** A dict with string keys dumps entry by entry, keeping its keys. */
  lemma DumpedDict(x: Value, ds: seq<Entry>, reg: Registry)
    requires WfRegistry(reg) && x.VDict? && DistinctKeys(x.entries) && |ds| == |x.entries|
    requires forall k :: 0 <= k < |ds| ==> ds[k].key == x.entries[k].key && x.entries[k].key.VStr?
    requires forall k :: 0 <= k < |ds| ==> Dump(x.entries[k].val, reg) == Ok(ds[k].val)
    ensures Dump(x, reg) == Ok(VDict(ds))
  {
    DumpEntriesExact(x, 0, ds, reg);
    assert ds[..0] == [];
    DictDumpsEntries(x, reg);
  }

  /** The dump of a typed string-keyed dict is a wire dict that passes and loads back to it. */
  lemma LoadDumpedDict(x: Value, vt: TypeDesc, ds: seq<Entry>, reg: Registry)
    requires WfRegistry(reg) && RefsBelow(vt, |reg|) && Typed(x, DictOf(Prim(StrKind), vt), reg)
    requires |ds| == |x.entries| && forall k :: 0 <= k < |ds| ==> ds[k].key == x.entries[k].key
    requires forall k :: 0 <= k < |ds| ==> IsWire(ds[k].val) && Check(Intended, ds[k].val, vt, reg) == Pass
    requires forall k :: 0 <= k < |ds| ==> Load(Intended, ds[k].val, vt, reg) == Ok(x.entries[k].val)
    ensures IsWire(VDict(ds)) && Check(Intended, VDict(ds), DictOf(Prim(StrKind), vt), reg) == Pass
    ensures Load(Intended, VDict(ds), DictOf(Prim(StrKind), vt), reg) == Ok(x)
  {
    var t := DictOf(Prim(StrKind), vt);
    var es := x.entries;
    var w := VDict(ds);
    DictRule(Intended, w, Prim(StrKind), vt, reg);
    LoadEntriesExact(w, t, 0, es, reg);
    assert es[..0] == [];
    DictLoadsEntries(Intended, w, Prim(StrKind), vt, reg);
  }

  /** Entries with the keys of `es` and the values `ws`. */
  function Rekey(es: seq<Entry>, ws: seq<Value>): (ds: seq<Entry>)
    requires |ws| == |es|
    ensures |ds| == |es| && forall k :: 0 <= k < |es| ==> ds[k] == Entry(es[k].key, ws[k])
  {
    seq(|es|, k requires 0 <= k < |es| => Entry(es[k].key, ws[k]))
  }

  lemma {:induction false} DumpFieldsOk(v: Value, i: nat, acc: seq<Entry>, reg: Registry)
    requires v.VObj? && v.cls < |reg| && |v.vals| == |reg[v.cls].fields| && i <= |v.vals| && WfRegistry(reg)
    requires |acc| == i && forall j :: 0 <= j < i ==> acc[j].key == VStr(reg[v.cls].fields[j].name)
    requires forall k :: i <= k < |v.vals| ==> Dump(v.vals[k], reg).Ok?
    ensures DumpFields(v, i, acc, reg).Ok?
    decreases |v.vals| - i
  {
    if i < |v.vals| {
      var w := Dump(v.vals[i], reg).value;
      DumpFieldsNext(v, i, acc, reg);
      DumpFieldsOk(v, i + 1, acc + [Entry(VStr(reg[v.cls].fields[i].name), w)], reg);
    }
  }

  /** One turn of the `dumps` loop whose field value dumps: the field's entry is appended. */
  lemma DumpFieldsNext(v: Value, i: nat, acc: seq<Entry>, reg: Registry)
    requires v.VObj? && v.cls < |reg| && |v.vals| == |reg[v.cls].fields| && i < |v.vals| && WfRegistry(reg)
    requires |acc| == i && forall j :: 0 <= j < i ==> acc[j].key == VStr(reg[v.cls].fields[j].name)
    requires Dump(v.vals[i], reg).Ok?
    ensures DumpFields(v, i, acc, reg) ==
      DumpFields(v, i + 1, acc + [Entry(VStr(reg[v.cls].fields[i].name), Dump(v.vals[i], reg).value)], reg)
  {
    PutField(reg[v.cls].fields, i, acc, Dump(v.vals[i], reg).value);
  }

  lemma {:induction false} DumpItemsOk(v: Value, i: nat, reg: Registry)
    requires WfRegistry(reg) && (v.VList? || v.VTuple? || v.VSet?) && i <= |v.items|
    requires forall k :: i <= k < |v.items| ==> Dump(v.items[k], reg).Ok?
    ensures DumpItems(v, i, reg).Ok?
    decreases |v.items| - i
  {
    if i < |v.items| {
      DumpItemsOk(v, i + 1, reg);
    }
  }

  /** One turn of the dumping dict comprehension whose key and value dumped and whose key hashes. */
  lemma DumpEntriesStep(v: Value, i: nat, acc: seq<Entry>, reg: Registry)
    requires WfRegistry(reg) && v.VDict? && i < |v.entries| && DistinctKeys(acc)
    requires Dump(v.entries[i].key, reg).Ok? && Dump(v.entries[i].val, reg).Ok?
    requires Hashable(Dump(v.entries[i].key, reg).value)
    ensures DumpEntries(v, i, acc, reg) ==
      DumpEntries(v, i + 1, Put(acc, Dump(v.entries[i].key, reg).value, Dump(v.entries[i].val, reg).value), reg)
  {
  }

  lemma {:induction false} DumpEntriesExact(v: Value, i: nat, ds: seq<Entry>, reg: Registry)
    requires WfRegistry(reg) && v.VDict? && i <= |v.entries| && |ds| == |v.entries| && DistinctKeys(v.entries)
    requires forall k :: 0 <= k < |ds| ==> ds[k].key == v.entries[k].key && v.entries[k].key.VStr?
    requires forall k :: i <= k < |ds| ==> Dump(v.entries[k].val, reg) == Ok(ds[k].val)
    ensures DistinctKeys(ds[..i])
    ensures DumpEntries(v, i, ds[..i], reg) == Ok(ds)
    decreases |v.entries| - i
  {
    if i < |ds| {
      StrDumps(v.entries[i].key, reg);
      DumpEntriesStep(v, i, ds[..i], reg);
      PutFresh(ds, i);
      DumpEntriesExact(v, i + 1, ds, reg);
    } else {
      assert ds[..i] == ds;
    }
  }

  /** `dump_value` of a string is the string, which hashes. */
  lemma StrDumps(k: Value, reg: Registry)
    requires WfRegistry(reg) && k.VStr?
    ensures Dump(k, reg) == Ok(k) && Hashable(k)
  {
  }

  /** Inserting the next entry of a dict with distinct keys appends it. */
  lemma PutFresh(es: seq<Entry>, i: nat)
    requires DistinctKeys(es) && i < |es|
    ensures DistinctKeys(es[..i])
    ensures Put(es[..i], es[i].key, es[i].val) == es[..i + 1]
  {
    assert forall j :: 0 <= j < i ==> es[..i][j].key != es[i].key;
    assert es[..i] + [Entry(es[i].key, es[i].val)] == es[..i + 1];
  }

  /** `load_value` of a string under `str` is the string, which hashes. */
  lemma StrLoads(k: Value, reg: Registry)
    requires WfRegistry(reg) && k.VStr?
    ensures Load(Intended, k, Prim(StrKind), reg) == Ok(k) && Hashable(k)
  {
  }

  /** One turn of the loading dict comprehension whose key and value loaded and whose key hashes. */
  lemma LoadEntriesStep(w: Value, t: TypeDesc, i: nat, acc: seq<Entry>, reg: Registry)
    requires WfRegistry(reg) && RefsBelow(t, |reg|) && t.DictOf? && w.VDict? && i < |w.entries| && DistinctKeys(acc)
    requires Load(Intended, w.entries[i].key, t.key, reg).Ok? && Load(Intended, w.entries[i].val, t.val, reg).Ok?
    requires Hashable(Load(Intended, w.entries[i].key, t.key, reg).value)
    ensures LoadEntries(Intended, w, t, i, acc, reg) ==
      LoadEntries(Intended, w, t, i + 1,
        Put(acc, Load(Intended, w.entries[i].key, t.key, reg).value, Load(Intended, w.entries[i].val, t.val, reg).value), reg)
  {
  }

  lemma {:induction false} LoadEntriesExact(w: Value, t: TypeDesc, i: nat, es: seq<Entry>, reg: Registry)
    requires WfRegistry(reg) && RefsBelow(t, |reg|) && t.DictOf? && t.key == Prim(StrKind)
    requires w.VDict? && i <= |w.entries| && |es| == |w.entries| && DistinctKeys(es)
    requires forall k :: 0 <= k < |es| ==> w.entries[k].key == es[k].key && es[k].key.VStr?
    requires forall k :: i <= k < |es| ==> Load(Intended, w.entries[k].val, t.val, reg) == Ok(es[k].val)
    ensures DistinctKeys(es[..i])
    ensures LoadEntries(Intended, w, t, i, es[..i], reg) == Ok(es)
    decreases |es| - i
  {
    if i < |es| {
      StrLoads(es[i].key, reg);
      LoadEntriesStep(w, t, i, es[..i], reg);
      PutFresh(es, i);
      LoadEntriesExact(w, t, i + 1, es, reg);
    } else {
      assert es[..i] == es;
    }
  }

  lemma {:induction false} LoadSetItemsExact(w: Value, t: TypeDesc, i: nat, xs: seq<Value>, reg: Registry)
    requires WfRegistry(reg) && RefsBelow(t, |reg|) && t.SetOf?
    requires w.VList? && i <= |w.items| && |xs| == |w.items| && Distinct(xs)
    requires forall k :: i <= k < |xs| ==> Load(Intended, w.items[k], t.elem, reg) == Ok(xs[k]) && Hashable(xs[k])
    ensures Distinct(xs[..i])
    ensures LoadSetItems(Intended, w, t, i, xs[..i], reg) == Ok(xs)
    decreases |xs| - i
  {
    if i < |xs| {
      assert xs[i] !in xs[..i];
      assert AddUnique(xs[..i], xs[i]) == xs[..i + 1];
      LoadSetItemsExact(w, t, i + 1, xs, reg);
    } else {
      assert xs[..i] == xs;
    }
  }

  // ---------------------------------------------------------------------------
  // The two halves together, and why unions are excluded.

  /** Load, dump, load: a wire value that passes its annotation loads to a value that survives the round trip. */
  lemma LoadDumpLoad(w: Value, t: TypeDesc, reg: Registry)
    requires WfRegistry(reg) && RefsBelow(t, |reg|) && PlainRegistry(reg) && Plain(t)
    requires IsWire(w) && Check(Intended, w, t, reg) == Pass
    ensures Load(Intended, w, t, reg).Ok? && Reloads(Load(Intended, w, t, reg).value, t, reg)
  {
    WireLoads(w, t, reg);
    DumpThenLoad(Load(Intended, w, t, reg).value, t, reg);
  }

  /**
    With `Union[Tuple[int, int], Set[int]]` the wire list `[1, 1, 2]` fails the
    tuple and loads as the set `{1, 2}`, which dumps to `[1, 2]`; that list
    passes the tuple first and reloads as `(1, 2)` (`UnionReloadsAsTuple`).
  */
  lemma UnionRoundTripFails(reg: Registry)
    requires WfRegistry(reg)
    ensures var t := Union([TupleOf([Prim(IntKind), Prim(IntKind)]), SetOf(Prim(IntKind))]);
      Load(Intended, VList([VInt(1), VInt(1), VInt(2)]), t, reg) == Ok(VSet([VInt(1), VInt(2)])) &&
      Dump(VSet([VInt(1), VInt(2)]), reg) == Ok(VList([VInt(1), VInt(2)])) &&
      Load(Intended, VList([VInt(1), VInt(2)]), t, reg) != Ok(VSet([VInt(1), VInt(2)]))
  {
    var t := Union([TupleOf([Prim(IntKind), Prim(IntKind)]), SetOf(Prim(IntKind))]);
    var w := VList([VInt(1), VInt(1), VInt(2)]);
    TupleRule(Intended, w, [Prim(IntKind), Prim(IntKind)], reg);
    SetRule(Intended, w, Prim(IntKind), reg);
    assert LoadAlts(Intended, w, t, 1, reg) == Load(Intended, w, SetOf(Prim(IntKind)), reg);
    var st := SetOf(Prim(IntKind));
    var one, two := VInt(1), VInt(2);
    assert Load(Intended, one, Prim(IntKind), reg) == Ok(one);
    assert Load(Intended, two, Prim(IntKind), reg) == Ok(two);
    assert LoadSetItems(Intended, w, st, 3, [one, two], reg) == Ok([one, two]);
    assert w.items[2] == two && Hashable(two) && two !in [one];
    assert AddUnique([one], two) == [one, two];
    assert LoadSetItems(Intended, w, st, 2, [one], reg) == Ok([one, two]);
    assert LoadSetItems(Intended, w, st, 1, [one], reg) == Ok([one, two]);
    assert AddUnique([], one) == [one];
    assert LoadSetItems(Intended, w, st, 0, [], reg) == Ok([one, two]);
    SetDumpsAsList(one, two, reg);
    UnionReloadsAsTuple(reg);
  }

  lemma SetDumpsAsList(one: Value, two: Value, reg: Registry)
    requires WfRegistry(reg) && one == VInt(1) && two == VInt(2)
    ensures Dump(VSet([one, two]), reg) == Ok(VList([one, two]))
  {
    var x := VSet([one, two]);
    assert Dump(one, reg) == Ok(one) && Dump(two, reg) == Ok(two);
    assert DumpItems(x, 2, reg) == Ok([]);
    assert x.items[1] == two && [two] + [] == [two] && [one] + [two] == [one, two];
    assert DumpItems(x, 1, reg) == Ok([two]);
    assert DumpItems(x, 0, reg) == Ok([one, two]);
  }

  /** The two-element list passes the tuple alternative first and reloads as a tuple. */
  lemma UnionReloadsAsTuple(reg: Registry)
    requires WfRegistry(reg)
    ensures Load(Intended, VList([VInt(1), VInt(2)]), Union([TupleOf([Prim(IntKind), Prim(IntKind)]), SetOf(Prim(IntKind))]), reg).Ok?
    ensures Load(Intended, VList([VInt(1), VInt(2)]), Union([TupleOf([Prim(IntKind), Prim(IntKind)]), SetOf(Prim(IntKind))]), reg).value.VTuple?
  {
    var d := VList([VInt(1), VInt(2)]);
    TupleRule(Intended, d, [Prim(IntKind), Prim(IntKind)], reg);
  }

  /** One class `Pair` with the single field `t: tuple[int, int]` and no default. */
  function PairRegistry(): (reg: Registry)
    ensures WfRegistry(reg) && |reg| == 1 && |reg[0].fields| == 1
  {
    var ds := [Prim(IntKind), Prim(IntKind)];
    assert RefsBelow(TupleOf(ds), 1) by {
      assert RefsBelow(ds[0], 1) && RefsBelow(ds[1], 1);
    }
    [ClassDef("Pair", [Field("t", TupleOf(ds), None)])]
  }

  /**
    The round trip needs a loaded-shape instance. `Pair([1, 2])` is accepted by
    `__init__`, because `is_type` lets a list stand for a tuple, and it keeps the
    list; `dumps` writes `{"t": [1, 2]}`, and `loads` of that builds
    `Pair((1, 2))`, which is a different instance. This holds in both modes.
  */
  lemma ConstructedListReloadsAsTuple(mode: Mode)
    ensures var reg, l := PairRegistry(), VList([VInt(1), VInt(2)]);
      Construct(mode, reg, 0, [l], []) == Ok(VObj(0, [l])) &&
      !Typed(VObj(0, [l]), Record(0), reg) &&
      Dump(VObj(0, [l]), reg) == Ok(VDict([Entry(VStr("t"), l)])) &&
      Load(mode, VDict([Entry(VStr("t"), l)]), Record(0), reg) == Ok(VObj(0, [VTuple([VInt(1), VInt(2)])])) &&
      VObj(0, [VTuple([VInt(1), VInt(2)])]) != VObj(0, [l])
  {
    var reg, l := PairRegistry(), VList([VInt(1), VInt(2)]);
    PairKeepsList(mode);
    PairDumpsList();
    PairLoadsTuple(mode);
    assert !Typed(VObj(0, [l]), Record(0), reg) by {
      assert reg[0].fields[0].ty.TupleOf? && VObj(0, [l]).vals[0] == l;
      assert !Typed(l, reg[0].fields[0].ty, reg);
    }
  }

  /** `Pair([1, 2])` passes `__init__` and keeps the list as given. */
  lemma PairKeepsList(mode: Mode)
    ensures var l := VList([VInt(1), VInt(2)]); Construct(mode, PairRegistry(), 0, [l], []) == Ok(VObj(0, [l]))
  {
    var reg, l := PairRegistry(), VList([VInt(1), VInt(2)]);
    TupleRule(mode, l, [Prim(IntKind), Prim(IntKind)], reg);
    ConstructSucceeds(mode, reg, 0, [l], []);
    var x := Construct(mode, reg, 0, [l], []).value;
    assert KwLookup([], "t").None?;
    assert x.vals == [l];
  }

  /** `dumps` of `Pair([1, 2])` writes the list under the field's name. */
  lemma PairDumpsList()
    ensures var l := VList([VInt(1), VInt(2)]); Dump(VObj(0, [l]), PairRegistry()) == Ok(VDict([Entry(VStr("t"), l)]))
  {
    var reg, l := PairRegistry(), VList([VInt(1), VInt(2)]);
    WireDumpsToItself(l, reg);
    DumpedRecord(VObj(0, [l]), reg);
    var w := Dump(VObj(0, [l]), reg).value;
    assert w.entries[0] == Entry(VStr("t"), l);
    assert w == VDict([Entry(VStr("t"), l)]);
  }

  /** Loading `{"t": [1, 2]}` as a `Pair` turns the list into the tuple `(1, 2)`. */
  lemma PairLoadsTuple(mode: Mode)
    ensures var reg := PairRegistry();
      Load(mode, VDict([Entry(VStr("t"), VList([VInt(1), VInt(2)]))]), Record(0), reg) ==
      Ok(VObj(0, [VTuple([VInt(1), VInt(2)])]))
  {
    var reg, tup := PairRegistry(), VTuple([VInt(1), VInt(2)]);
    PairFieldsLoad(mode);
    TupleRule(mode, tup, [Prim(IntKind), Prim(IntKind)], reg);
    AllKeywordsConstruct(mode, reg, 0, [("t", tup)]);
    assert KwValues([("t", tup)]) == [tup];
  }

  /** The field loop over `{"t": [1, 2]}` yields the single keyword `t=(1, 2)`. */
  lemma PairFieldsLoad(mode: Mode)
    ensures var reg := PairRegistry();
      LoadFields(mode, VDict([Entry(VStr("t"), VList([VInt(1), VInt(2)]))]), 0, 0, reg) ==
      Ok([("t", VTuple([VInt(1), VInt(2)]))])
  {
    var reg, l := PairRegistry(), VList([VInt(1), VInt(2)]);
    var ds := [Prim(IntKind), Prim(IntKind)];
    var tup := VTuple([VInt(1), VInt(2)]);
    var w := VDict([Entry(VStr("t"), l)]);
    PairFieldLoads(mode);
    assert reg[0].fields[0] == Field("t", TupleOf(ds), None);
    assert FindKey(w.entries, VStr("t")) == Some(0);
    assert Contains(w, "t") == Ok(true);
    assert Subscript(w, "t") == Ok(0);
    assert LoadFields(mode, w, 0, 1, reg) == Ok([]);
    assert w.entries[0].val == l && [("t", tup)] + [] == [("t", tup)];
  }

  /** The list `[1, 2]` passes `tuple[int, int]` and loads as the tuple `(1, 2)`. */
  lemma PairFieldLoads(mode: Mode)
    ensures var reg, ds, l := PairRegistry(), [Prim(IntKind), Prim(IntKind)], VList([VInt(1), VInt(2)]);
      Check(mode, l, TupleOf(ds), reg) == Pass && Load(mode, l, TupleOf(ds), reg) == Ok(VTuple([VInt(1), VInt(2)]))
  {
    var reg, l := PairRegistry(), VList([VInt(1), VInt(2)]);
    var ds := [Prim(IntKind), Prim(IntKind)];
    TupleRule(mode, l, ds, reg);
    assert Load(mode, VInt(1), Prim(IntKind), reg) == Ok(VInt(1));
    assert Load(mode, VInt(2), Prim(IntKind), reg) == Ok(VInt(2));
    assert l.items[0] == VInt(1) && l.items[1] == VInt(2) && TupleOf(ds).elems == ds;
    assert LoadPositions(mode, l, TupleOf(ds), 2, reg) == Ok([]);
    assert [VInt(2)] + [] == [VInt(2)] && [VInt(1)] + [VInt(2)] == [VInt(1), VInt(2)];
    assert LoadPositions(mode, l, TupleOf(ds), 1, reg) == Ok([VInt(2)]);
    assert LoadPositions(mode, l, TupleOf(ds), 0, reg) == Ok([VInt(1), VInt(2)]);
    TupleLoadsPositions(mode, l, ds, reg);
  }
}
