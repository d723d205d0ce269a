/**
  `load_value` and `SmartData.loads`: turning a wire value into typed values.
  Every loop of the source evaluates left to right and stops at the first
  raise; dict and set comprehensions hash each key or element as it is
  inserted.
*/
module LoadValue {
  import opened Wrappers
  import opened Values
  import opened TypeCheck
  import opened Init

  /** Python truthiness, which is what `bool(obj)` returns. */
  predicate Truthy(v: Value) {
    match v
    case VNone => false
    case VBool(b) => b
    case VInt(i) => i != 0
    case VFloat(f) => f != 0.0
    case VStr(s) => |s| > 0
    case VList(items) => |items| > 0
    case VTuple(items) => |items| > 0
    case VSet(items) => |items| > 0
    case VDict(es) => |es| > 0
    case VObj(_, _) => true
  }

  /** `int(f)` on a float truncates toward zero. */
  function TruncReal(f: real): (n: int)
    ensures 0.0 <= f ==> n as real <= f < n as real + 1.0
    ensures f < 0.0 ==> n as real - 1.0 < f <= n as real
  {
    if f >= 0.0 then f.Floor else -((-f).Floor)
  }

  /**
    `type_(obj)` for a primitive annotation. A value already of that class
    comes back unchanged, except that `int(True)` is 1; `Number(obj)` raises
    as written because the abstract class takes no arguments. Coercions from
    other classes that the source never reaches (it checks `is_type` first)
    and that are not a plain conversion are `NotModelled`.
  */
  function LoadPrim(mode: Mode, v: Value, k: PrimKind): (r: Result<Value, Error>)
    ensures k == NumberKind && mode == AsWritten ==> r == Err(NumberNotCallable)
    ensures InstanceOf(v, k) && !(k == NumberKind && mode == AsWritten) ==> r.Ok? && InstanceOf(r.value, k)
    ensures InstanceOf(v, k) && !(k == NumberKind && mode == AsWritten) && !(k == IntKind && v.VBool?) ==> r == Ok(v)
    ensures k == IntKind && v.VBool? ==> r == Ok(VInt(if v.b then 1 else 0))
    ensures k == BoolKind ==> r == Ok(VBool(Truthy(v)))
  {
    match k
    case BoolKind => Ok(VBool(Truthy(v)))
    case IntKind =>
      (match v
       case VBool(b) => Ok(VInt(if b then 1 else 0))
       case VInt(_) => Ok(v)
       case VFloat(f) => Ok(VInt(TruncReal(f)))
       case _ => Err(NotModelled))
    case FloatKind =>
      (match v
       case VBool(b) => Ok(VFloat(if b then 1.0 else 0.0))
       case VInt(i) => Ok(VFloat(i as real))
       case VFloat(_) => Ok(v)
       case _ => Err(NotModelled))
    case NumberKind =>
      if mode == AsWritten then Err(NumberNotCallable)
      else if InstanceOf(v, NumberKind) then Ok(v)
      else Err(NotModelled)
    case StrKind => if v.VStr? then Ok(v) else Err(NotModelled)
    case ListKind =>
      (match v
       case VList(items) => Ok(VList(items))
       case VTuple(items) => Ok(VList(items))
       case VSet(items) => Ok(VList(items))
       case VDict(es) => Ok(VList(seq(|es|, i requires 0 <= i < |es| => es[i].key)))
       case VStr(_) => Err(NotModelled)
       case _ => Err(NotIterable))
  }

  /** `load_value(obj, type_)`. */
  function Load(mode: Mode, v: Value, t: TypeDesc, reg: Registry): (r: Result<Value, Error>)
    requires WfRegistry(reg) && RefsBelow(t, |reg|)
    ensures r.Ok? && t.Record? ==> r.value.VObj? && r.value.cls == t.cls && |r.value.vals| == |reg[t.cls].fields|
    // a tuple of the wrong arity raises before any element is loaded
    ensures t.TupleOf? && (v.VList? || v.VTuple?) && |v.items| != |t.elems| ==> r == Err(TupleArityError)
    ensures r.Ok? && t.TupleOf? ==> r.value.VTuple? && |r.value.items| == |t.elems|
    // a list keeps its length
    ensures r.Ok? && t.ListOf? ==> r.value.VList? && (v.VList? || v.VTuple? || v.VSet?) && |r.value.items| == |v.items|
    // a set holds no duplicates, and never more elements than it was given
    ensures r.Ok? && t.SetOf? ==> r.value.VSet? && (v.VList? || v.VTuple? || v.VSet?) && Distinct(r.value.items) && |r.value.items| <= |v.items|
    ensures r.Ok? && t.DictOf? ==> r.value.VDict? && DistinctKeys(r.value.entries)
    decreases v, t, 1
  {
    match t
    case Prim(k) => LoadPrim(mode, v, k)
    case Record(c) => Loads(mode, v, c, reg)
    case Union(_) => LoadAlts(mode, v, t, 0, reg)
    case TupleOf(ds) =>
      if !(v.VList? || v.VTuple?) then Err(NotModelled)
      else if |ds| != |v.items| then Err(TupleArityError)
      else
        var xs :- LoadPositions(mode, v, t, 0, reg);
        Ok(VTuple(xs))
    case ListOf(_) =>
      if !(v.VList? || v.VTuple? || v.VSet?) then Err(NotModelled)
      else
        var xs :- LoadItems(mode, v, t, 0, reg);
        Ok(VList(xs))
    case DictOf(_, _) =>
      if !v.VDict? then Err(NotModelled)
      else
        var es :- LoadEntries(mode, v, t, 0, [], reg);
        Ok(VDict(es))
    case SetOf(_) =>
      if !(v.VList? || v.VTuple? || v.VSet?) then Err(NotModelled)
      else
        var xs :- LoadSetItems(mode, v, t, 0, [], reg);
        Ok(VSet(xs))
  }

  /**
    The loop of `loads` from field `i` on: the keyword arguments it collects.
    A key that is absent raises unless the field has a default, and even then
    `obj[key]` raises; a value must pass `is_type` before it is loaded.
  */
  function LoadFields(mode: Mode, v: Value, c: nat, i: nat, reg: Registry): (r: Result<Kwargs, Error>)
    requires WfRegistry(reg) && c < |reg| && i <= |reg[c].fields|
    ensures r.Ok? ==> |r.value| == |reg[c].fields| - i
    ensures r.Ok? ==> forall m :: 0 <= m < |r.value| ==> r.value[m].0 == reg[c].fields[i + m].name
    decreases v, Record(c), 0, |reg[c].fields| - i
  {
    if i == |reg[c].fields| then Ok([])
    else
      var f := reg[c].fields[i];
      var present :- Contains(v, f.name);
      if !present && !HasDefault(f) then Err(MissingKey(f.name))
      else
        var j :- Subscript(v, f.name);
        match Check(mode, v.entries[j].val, f.ty, reg)
        case Fail => Err(KeyTypeError(f.name))
        case Raise(e) => Err(e)
        case Pass =>
          var x :- Load(mode, v.entries[j].val, f.ty, reg);
          var rest :- LoadFields(mode, v, c, i + 1, reg);
          Ok([(f.name, x)] + rest)
  }

  /** The union loop: load with the first alternative that passes; `None` when none does. */
  function LoadAlts(mode: Mode, v: Value, t: TypeDesc, i: nat, reg: Registry): (r: Result<Value, Error>)
    requires WfRegistry(reg) && RefsBelow(t, |reg|) && t.Union? && i <= |t.alts|
    ensures (forall j :: i <= j < |t.alts| ==> Check(mode, v, t.alts[j], reg) == Fail) ==> r == Ok(VNone)
    ensures r.Err? ==> exists j :: i <= j < |t.alts| && Check(mode, v, t.alts[j], reg) != Fail
    decreases v, t, 0, |t.alts| - i
  {
    if i == |t.alts| then Ok(VNone)
    else match Check(mode, v, t.alts[i], reg)
      case Pass => Load(mode, v, t.alts[i], reg)
      case Fail => LoadAlts(mode, v, t, i + 1, reg)
      case Raise(e) => Err(e)
  }

  /** The tuple comprehension from position `i` on. */
  function LoadPositions(mode: Mode, v: Value, t: TypeDesc, i: nat, reg: Registry): (r: Result<seq<Value>, Error>)
    requires WfRegistry(reg) && RefsBelow(t, |reg|) && t.TupleOf?
    requires (v.VList? || v.VTuple?) && |v.items| == |t.elems| && i <= |v.items|
    ensures r.Ok? ==> |r.value| == |v.items| - i
    ensures r.Ok? ==> forall m :: 0 <= m < |r.value| ==> Load(mode, v.items[i + m], t.elems[i + m], reg) == Ok(r.value[m])
    decreases v, t, 0, |v.items| - i
  {
    if i == |v.items| then Ok([])
    else
      var x :- Load(mode, v.items[i], t.elems[i], reg);
      var rest :- LoadPositions(mode, v, t, i + 1, reg);
      Ok([x] + rest)
  }

  /** The list comprehension from element `i` on: one loaded element per element, in order. */
  function LoadItems(mode: Mode, v: Value, t: TypeDesc, i: nat, reg: Registry): (r: Result<seq<Value>, Error>)
    requires WfRegistry(reg) && RefsBelow(t, |reg|) && t.ListOf?
    requires (v.VList? || v.VTuple? || v.VSet?) && i <= |v.items|
    ensures r.Ok? ==> |r.value| == |v.items| - i
    ensures r.Ok? ==> forall m :: 0 <= m < |r.value| ==> Load(mode, v.items[i + m], t.elem, reg) == Ok(r.value[m])
    decreases v, t, 0, |v.items| - i
  {
    if i == |v.items| then Ok([])
    else
      var x :- Load(mode, v.items[i], t.elem, reg);
      var rest :- LoadItems(mode, v, t, i + 1, reg);
      Ok([x] + rest)
  }

  /** The dict comprehension from entry `i` on: key, then value, then insertion (which hashes the key). */
  function LoadEntries(mode: Mode, v: Value, t: TypeDesc, i: nat, acc: seq<Entry>, reg: Registry)
    : (r: Result<seq<Entry>, Error>)
    requires WfRegistry(reg) && RefsBelow(t, |reg|) && t.DictOf? && v.VDict? && i <= |v.entries|
    requires DistinctKeys(acc)
    ensures r.Ok? ==> DistinctKeys(r.value)
    ensures r.Ok? ==> forall e :: e in r.value ==>
      e in acc ||
      exists m :: i <= m < |v.entries| &&
        Load(mode, v.entries[m].key, t.key, reg) == Ok(e.key) && Load(mode, v.entries[m].val, t.val, reg) == Ok(e.val)
    decreases v, t, 0, |v.entries| - i
  {
    if i == |v.entries| then Ok(acc)
    else
      var k :- Load(mode, v.entries[i].key, t.key, reg);
      var x :- Load(mode, v.entries[i].val, t.val, reg);
      if !Hashable(k) then Err(Unhashable)
      else LoadEntries(mode, v, t, i + 1, Put(acc, k, x), reg)
  }

  /** The set comprehension from element `i` on: each loaded element must hash, and duplicates collapse. */
  function LoadSetItems(mode: Mode, v: Value, t: TypeDesc, i: nat, acc: seq<Value>, reg: Registry)
    : (r: Result<seq<Value>, Error>)
    requires WfRegistry(reg) && RefsBelow(t, |reg|) && t.SetOf?
    requires (v.VList? || v.VTuple? || v.VSet?) && i <= |v.items| && Distinct(acc)
    ensures r.Ok? ==> Distinct(r.value) && |r.value| <= |acc| + |v.items| - i
    decreases v, t, 0, |v.items| - i
  {
    if i == |v.items| then Ok(acc)
    else
      var x :- Load(mode, v.items[i], t.elem, reg);
      if !Hashable(x) then Err(Unhashable)
      else LoadSetItems(mode, v, t, i + 1, AddUnique(acc, x), reg)
  }

  /** `cls.loads(obj)`. */
  function Loads(mode: Mode, v: Value, c: nat, reg: Registry): (r: Result<Value, Error>)
    requires WfRegistry(reg) && c < |reg|
    ensures r.Ok? ==> r.value.VObj? && r.value.cls == c && |r.value.vals| == |reg[c].fields|
    decreases v, Record(c), 0, |reg[c].fields| + 1
  {
    var kw :- LoadFields(mode, v, c, 0, reg);
    KwDistinctNames(reg[c].fields, kw);
    Construct(mode, reg, c, [], kw)
  }

  /** Keyword names copied from distinct field names are distinct. */
  lemma KwDistinctNames(fields: seq<Field>, kw: Kwargs)
    requires DistinctFieldNames(fields) && |kw| == |fields|
    requires forall m :: 0 <= m < |kw| ==> kw[m].0 == fields[m].name
    ensures DistinctNames(kw)
  {
  }

  // ---------------------------------------------------------------------------
  // The rules of `loads` and `load_value`.

  /** `loads` found the key of field `f` in `v`, its value passed, and it loaded as `x`. */
  predicate FieldLoaded(mode: Mode, v: Value, f: Field, x: Value, reg: Registry)
    requires WfRegistry(reg) && RefsBelow(f.ty, |reg|)
  {
    v.VDict? && FindKey(v.entries, VStr(f.name)).Some? &&
    Check(mode, Lookup(v, f.name), f.ty, reg) == Pass &&
    Load(mode, Lookup(v, f.name), f.ty, reg) == Ok(x)
  }

  /** The first entry of a run of the `loads` loop from field `i` is field `i`, loaded. */
  lemma LoadFieldsHead(mode: Mode, v: Value, c: nat, i: nat, reg: Registry)
    requires WfRegistry(reg) && c < |reg| && i < |reg[c].fields|
    requires LoadFields(mode, v, c, i, reg).Ok?
    ensures FieldLoaded(mode, v, reg[c].fields[i], LoadFields(mode, v, c, i, reg).value[0].1, reg)
  {
    var f := reg[c].fields[i];
    var j := Subscript(v, f.name).value;
    assert Lookup(v, f.name) == v.entries[j].val;
  }

  /** Fields `i` on of class `c` were each found, passed and loaded as the matching keyword of `kw`. */
  predicate LoadedRun(mode: Mode, v: Value, c: nat, i: nat, kw: Kwargs, reg: Registry)
    requires WfRegistry(reg) && c < |reg| && i + |kw| <= |reg[c].fields|
    decreases |kw|
  {
    |kw| == 0 || (FieldLoaded(mode, v, reg[c].fields[i], kw[0].1, reg) && LoadedRun(mode, v, c, i + 1, kw[1..], reg))
  }

  /** One turn of the `loads` loop that did not raise: the head is loaded, the rest is the run from `i + 1`. */
  lemma LoadFieldsUncons(mode: Mode, v: Value, c: nat, i: nat, kw: Kwargs, reg: Registry)
    requires WfRegistry(reg) && c < |reg| && i < |reg[c].fields| && LoadFields(mode, v, c, i, reg) == Ok(kw)
    ensures FieldLoaded(mode, v, reg[c].fields[i], kw[0].1, reg) && LoadFields(mode, v, c, i + 1, reg) == Ok(kw[1..])
  {
    LoadFieldsHead(mode, v, c, i, reg);
  }

  /** A successful run of the `loads` loop loaded every field it collected. */
  lemma {:induction false} LoadFieldsRun(mode: Mode, v: Value, c: nat, i: nat, kw: Kwargs, reg: Registry)
    requires WfRegistry(reg) && c < |reg| && i <= |reg[c].fields| && LoadFields(mode, v, c, i, reg) == Ok(kw)
    ensures LoadedRun(mode, v, c, i, kw, reg)
    decreases |reg[c].fields| - i
  {
    if i < |reg[c].fields| {
      LoadFieldsUncons(mode, v, c, i, kw, reg);
      LoadFieldsRun(mode, v, c, i + 1, kw[1..], reg);
    }
  }

  /** Keyword `k - i` of a loaded run from field `i` is field `k`, loaded. */
  lemma {:induction false} LoadedRunAt(mode: Mode, v: Value, c: nat, i: nat, k: nat, kw: Kwargs, reg: Registry)
    requires WfRegistry(reg) && c < |reg| && i <= k < i + |kw| <= |reg[c].fields| && LoadedRun(mode, v, c, i, kw, reg)
    ensures FieldLoaded(mode, v, reg[c].fields[k], kw[k - i].1, reg)
    decreases k - i
  {
    if k > i {
      LoadedRunAt(mode, v, c, i + 1, k, kw[1..], reg);
      assert kw[1..][k - (i + 1)] == kw[k - i];
    }
  }

  /** Keyword `k` collected by a successful `loads` loop is field `k`, loaded. */
  lemma LoadFieldsValue(mode: Mode, v: Value, c: nat, k: nat, reg: Registry)
    requires WfRegistry(reg) && c < |reg| && k < |reg[c].fields| && LoadFields(mode, v, c, 0, reg).Ok?
    ensures FieldLoaded(mode, v, reg[c].fields[k], LoadFields(mode, v, c, 0, reg).value[k].1, reg)
  {
    var kw := LoadFields(mode, v, c, 0, reg).value;
    LoadFieldsRun(mode, v, c, 0, kw, reg);
    LoadedRunAt(mode, v, c, 0, k, kw, reg);
  }

  /**
    `loads` succeeds only on a dict holding every declared key, defaulted or
    not, each value passing its annotation; field `k` of the instance is the
    loaded value of key `k`. Keys that are not fields play no part.
  */
  lemma LoadsRule(mode: Mode, v: Value, c: nat, reg: Registry)
    requires WfRegistry(reg) && c < |reg| && Loads(mode, v, c, reg).Ok?
    ensures forall k :: 0 <= k < |reg[c].fields| ==>
      FieldLoaded(mode, v, reg[c].fields[k], Loads(mode, v, c, reg).value.vals[k], reg)
  {
    var fields := reg[c].fields;
    var kw := LoadFields(mode, v, c, 0, reg).value;
    KwDistinctNames(fields, kw);
    KeywordOnlyValues(mode, reg, c, kw);
    var x := Loads(mode, v, c, reg).value;
    assert x.vals == KwValues(kw);
    forall k | 0 <= k < |fields|
      ensures FieldLoaded(mode, v, fields[k], x.vals[k], reg)
    {
      LoadFieldsValue(mode, v, c, k, reg);
    }
  }

  /**
    The constructor call that ends `loads` re-checks what was loaded: every field of
    an instance `loads` returns passes its annotation.
  */
  lemma LoadsChecked(mode: Mode, v: Value, c: nat, reg: Registry)
    requires WfRegistry(reg) && c < |reg| && Loads(mode, v, c, reg).Ok?
    ensures forall k :: 0 <= k < |reg[c].fields| ==>
      Check(mode, Loads(mode, v, c, reg).value.vals[k], reg[c].fields[k].ty, reg) == Pass
  {
    var fields := reg[c].fields;
    var kw := LoadFields(mode, v, c, 0, reg).value;
    KwDistinctNames(fields, kw);
    KeywordOnlyValues(mode, reg, c, kw);
    ConstructChecks(mode, reg, c, [], kw);
    var x := Loads(mode, v, c, reg).value;
    forall k | 0 <= k < |fields|
      ensures Check(mode, x.vals[k], fields[k].ty, reg) == Pass
    {
      assert FieldIndex(fields, kw[k].0) == Some(k);
      assert KwargFits(mode, reg, c, kw[k]);
      assert x.vals[k] == kw[k].1;
    }
  }

  /** A union loads with its first alternative that passes `is_type`, skipping those that fail. */
  lemma {:induction false} UnionLoadRule(mode: Mode, v: Value, alts: seq<TypeDesc>, k: nat, reg: Registry)
    requires WfRegistry(reg) && RefsBelow(Union(alts), |reg|) && k < |alts|
    requires forall j :: 0 <= j < k ==> Check(mode, v, alts[j], reg) == Fail
    requires Check(mode, v, alts[k], reg) == Pass
    ensures Load(mode, v, Union(alts), reg) == Load(mode, v, alts[k], reg)
  {
    AltsFrom(mode, v, Union(alts), 0, k, reg);
  }

  /** A union none of whose alternatives passes loads as `None`. */
  lemma {:induction false} UnionLoadNone(mode: Mode, v: Value, alts: seq<TypeDesc>, reg: Registry)
    requires WfRegistry(reg) && RefsBelow(Union(alts), |reg|)
    requires forall j :: 0 <= j < |alts| ==> Check(mode, v, alts[j], reg) == Fail
    ensures Load(mode, v, Union(alts), reg) == Ok(VNone)
  {
    AltsNone(mode, v, Union(alts), 0, reg);
  }

  lemma {:induction false} AltsFrom(mode: Mode, v: Value, t: TypeDesc, i: nat, k: nat, reg: Registry)
    requires WfRegistry(reg) && RefsBelow(t, |reg|) && t.Union? && i <= k < |t.alts|
    requires forall j :: i <= j < k ==> Check(mode, v, t.alts[j], reg) == Fail
    requires Check(mode, v, t.alts[k], reg) == Pass
    ensures LoadAlts(mode, v, t, i, reg) == Load(mode, v, t.alts[k], reg)
    decreases k - i
  {
    if i < k {
      AltsFrom(mode, v, t, i + 1, k, reg);
    }
  }

  lemma {:induction false} AltsNone(mode: Mode, v: Value, t: TypeDesc, i: nat, reg: Registry)
    requires WfRegistry(reg) && RefsBelow(t, |reg|) && t.Union? && i <= |t.alts|
    requires forall j :: i <= j < |t.alts| ==> Check(mode, v, t.alts[j], reg) == Fail
    ensures LoadAlts(mode, v, t, i, reg) == Ok(VNone)
    decreases |t.alts| - i
  {
    if i < |t.alts| {
      AltsNone(mode, v, t, i + 1, reg);
    }
  }

  /** A list loads element by element: same length, same order. */
  lemma ListLoadRule(mode: Mode, v: Value, e: TypeDesc, reg: Registry)
    requires WfRegistry(reg) && RefsBelow(ListOf(e), |reg|) && Load(mode, v, ListOf(e), reg).Ok?
    ensures (v.VList? || v.VTuple? || v.VSet?) && Load(mode, v, ListOf(e), reg).value.VList?
    ensures |Load(mode, v, ListOf(e), reg).value.items| == |v.items|
    ensures forall k :: 0 <= k < |v.items| ==>
      Load(mode, v.items[k], e, reg) == Ok(Load(mode, v, ListOf(e), reg).value.items[k])
  {
  }

  /**
    A dict loads entry by entry: every loaded entry is a source entry with its
    key and value loaded, and conversely every source entry loads, its key is
    present, and the last source entry for each key gives that key its value.
  */
  lemma DictLoadRule(mode: Mode, v: Value, kt: TypeDesc, vt: TypeDesc, reg: Registry)
    requires WfRegistry(reg) && RefsBelow(DictOf(kt, vt), |reg|) && Load(mode, v, DictOf(kt, vt), reg).Ok?
    ensures v.VDict? && Load(mode, v, DictOf(kt, vt), reg).value.VDict?
    ensures forall e :: e in Load(mode, v, DictOf(kt, vt), reg).value.entries ==>
      exists m :: 0 <= m < |v.entries| &&
        Load(mode, v.entries[m].key, kt, reg) == Ok(e.key) && Load(mode, v.entries[m].val, vt, reg) == Ok(e.val)
    ensures forall m :: 0 <= m < |v.entries| ==>
      EntryLoads(mode, v, DictOf(kt, vt), m, reg) &&
      HasKey(Load(mode, v, DictOf(kt, vt), reg).value.entries, LoadedEntry(mode, v, DictOf(kt, vt), m, reg).key)
    ensures forall m :: 0 <= m < |v.entries| && LastForKey(mode, v, DictOf(kt, vt), m, reg) ==>
      LoadedEntry(mode, v, DictOf(kt, vt), m, reg) in Load(mode, v, DictOf(kt, vt), reg).value.entries
  {
    DictLoadSound(mode, v, kt, vt, reg);
    DictKeysPresent(mode, v, DictOf(kt, vt), reg);
    DictLastWins(mode, v, DictOf(kt, vt), reg);
  }

  lemma DictLoadSound(mode: Mode, v: Value, kt: TypeDesc, vt: TypeDesc, reg: Registry)
    requires WfRegistry(reg) && RefsBelow(DictOf(kt, vt), |reg|) && Load(mode, v, DictOf(kt, vt), reg).Ok?
    ensures v.VDict? && Load(mode, v, DictOf(kt, vt), reg).value.VDict?
    ensures forall e :: e in Load(mode, v, DictOf(kt, vt), reg).value.entries ==>
      exists m :: 0 <= m < |v.entries| &&
        Load(mode, v.entries[m].key, kt, reg) == Ok(e.key) && Load(mode, v.entries[m].val, vt, reg) == Ok(e.val)
  {
  }

  /** Every source entry of a dict that loads has loaded, and its key is present. */
  lemma DictKeysPresent(mode: Mode, v: Value, t: TypeDesc, reg: Registry)
    requires WfRegistry(reg) && RefsBelow(t, |reg|) && t.DictOf? && Load(mode, v, t, reg).Ok?
    ensures v.VDict? && Load(mode, v, t, reg).value.VDict?
    ensures forall m :: 0 <= m < |v.entries| ==>
      EntryLoads(mode, v, t, m, reg) && HasKey(Load(mode, v, t, reg).value.entries, LoadedEntry(mode, v, t, m, reg).key)
  {
    DictLoadsAsFold(mode, v, t, reg);
    var ds := Oks(EntryResults(mode, v, t, 0, reg));
    forall m | 0 <= m < |v.entries|
      ensures EntryLoads(mode, v, t, m, reg) && HasKey(Load(mode, v, t, reg).value.entries, LoadedEntry(mode, v, t, m, reg).key)
    {
      EntryResultsAt(mode, v, t, 0, m, reg);
      PutAllHasKey([], ds, m);
    }
  }

  /** In a dict that loads, the last source entry for each loaded key is the entry that stays. */
  lemma DictLastWins(mode: Mode, v: Value, t: TypeDesc, reg: Registry)
    requires WfRegistry(reg) && RefsBelow(t, |reg|) && t.DictOf? && Load(mode, v, t, reg).Ok?
    ensures v.VDict? && Load(mode, v, t, reg).value.VDict?
    ensures forall m :: 0 <= m < |v.entries| && LastForKey(mode, v, t, m, reg) ==>
      LoadedEntry(mode, v, t, m, reg) in Load(mode, v, t, reg).value.entries
  {
    DictLoadsAsFold(mode, v, t, reg);
    forall m | 0 <= m < |v.entries| && LastForKey(mode, v, t, m, reg)
      ensures LoadedEntry(mode, v, t, m, reg) in Load(mode, v, t, reg).value.entries
    {
      LastEntryStays(mode, v, t, m, reg);
    }
  }

  /** Source entry `m`, last for its key, is in the dict that loads. */
  lemma LastEntryStays(mode: Mode, v: Value, t: TypeDesc, m: nat, reg: Registry)
    requires WfRegistry(reg) && RefsBelow(t, |reg|) && t.DictOf? && Load(mode, v, t, reg).Ok?
    requires v.VDict? && m < |v.entries| && LastForKey(mode, v, t, m, reg)
    ensures LoadedEntry(mode, v, t, m, reg) in Load(mode, v, t, reg).value.entries
  {
    DictLoadsAsFold(mode, v, t, reg);
    EntryResultsAll(mode, v, t, reg);
    LaterKeysDiffer(mode, v, t, m, reg);
    PutAllLast([], Oks(EntryResults(mode, v, t, 0, reg)), m);
  }

  /** No later entry that loads loads to the key of an entry that is last for its key. */
  lemma LaterKeysDiffer(mode: Mode, v: Value, t: TypeDesc, m: nat, reg: Registry)
    requires WfRegistry(reg) && RefsBelow(t, |reg|) && t.DictOf? && v.VDict?
    requires LastForKey(mode, v, t, m, reg)
    ensures forall n :: m < n < |v.entries| && EntryLoads(mode, v, t, n, reg) ==>
      LoadedEntry(mode, v, t, n, reg).key != LoadedEntry(mode, v, t, m, reg).key
  {
  }

  /** Both the key and the value of source entry `m` load. */
  predicate EntryLoads(mode: Mode, v: Value, t: TypeDesc, m: nat, reg: Registry)
    requires WfRegistry(reg) && RefsBelow(t, |reg|) && t.DictOf? && v.VDict?
  {
    m < |v.entries| && Load(mode, v.entries[m].key, t.key, reg).Ok? && Load(mode, v.entries[m].val, t.val, reg).Ok?
  }

  /** No source entry from `i` on loads to key `k`. */
  predicate NotReloaded(mode: Mode, v: Value, t: TypeDesc, i: nat, k: Value, reg: Registry)
    requires WfRegistry(reg) && RefsBelow(t, |reg|) && t.DictOf? && v.VDict?
  {
    forall n :: i <= n < |v.entries| ==> Load(mode, v.entries[n].key, t.key, reg) != Ok(k)
  }

  /** Source entry `m` loads, and no later entry loads to the same key: its value is the one that stays. */
  predicate LastForKey(mode: Mode, v: Value, t: TypeDesc, m: nat, reg: Registry)
    requires WfRegistry(reg) && RefsBelow(t, |reg|) && t.DictOf? && v.VDict?
  {
    EntryLoads(mode, v, t, m, reg) && NotReloaded(mode, v, t, m + 1, LoadedEntry(mode, v, t, m, reg).key, reg)
  }

  /** The entry that source entry `m` loads to. */
  function LoadedEntry(mode: Mode, v: Value, t: TypeDesc, m: nat, reg: Registry): (e: Entry)
    requires WfRegistry(reg) && RefsBelow(t, |reg|) && t.DictOf? && v.VDict? && EntryLoads(mode, v, t, m, reg)
    ensures Load(mode, v.entries[m].key, t.key, reg) == Ok(e.key) && Load(mode, v.entries[m].val, t.val, reg) == Ok(e.val)
  {
    Entry(Load(mode, v.entries[m].key, t.key, reg).value, Load(mode, v.entries[m].val, t.val, reg).value)
  }

  /** What source entry `m` loads to, or the error that stops the comprehension there. */
  function EntryResult(mode: Mode, v: Value, t: TypeDesc, m: nat, reg: Registry): (r: Result<Entry, Error>)
    requires WfRegistry(reg) && RefsBelow(t, |reg|) && t.DictOf? && v.VDict? && m < |v.entries|
    ensures r.Ok? <==> EntryLoads(mode, v, t, m, reg) && Hashable(Load(mode, v.entries[m].key, t.key, reg).value)
    ensures r.Ok? ==> r.value == LoadedEntry(mode, v, t, m, reg)
  {
    var k :- Load(mode, v.entries[m].key, t.key, reg);
    var x :- Load(mode, v.entries[m].val, t.val, reg);
    if !Hashable(k) then Err(Unhashable) else Ok(Entry(k, x))
  }

  /** The results of source entries `i..`, in order. */
  function EntryResults(mode: Mode, v: Value, t: TypeDesc, i: nat, reg: Registry): (rs: seq<Result<Entry, Error>>)
    requires WfRegistry(reg) && RefsBelow(t, |reg|) && t.DictOf? && v.VDict? && i <= |v.entries|
    ensures |rs| == |v.entries| - i
    decreases |v.entries| - i
  {
    if i == |v.entries| then [] else [EntryResult(mode, v, t, i, reg)] + EntryResults(mode, v, t, i + 1, reg)
  }

  /** Position `n` of the results is the result of source entry `i + n`. */
  lemma {:induction false} EntryResultsAt(mode: Mode, v: Value, t: TypeDesc, i: nat, n: nat, reg: Registry)
    requires WfRegistry(reg) && RefsBelow(t, |reg|) && t.DictOf? && v.VDict? && i + n < |v.entries|
    ensures EntryResults(mode, v, t, i, reg)[n] == EntryResult(mode, v, t, i + n, reg)
    decreases n
  {
    assert EntryResults(mode, v, t, i, reg) == [EntryResult(mode, v, t, i, reg)] + EntryResults(mode, v, t, i + 1, reg);
    if n > 0 {
      EntryResultsAt(mode, v, t, i + 1, n - 1, reg);
    }
  }

  /** The results from the start are the results of the source entries. */
  lemma EntryResultsAll(mode: Mode, v: Value, t: TypeDesc, reg: Registry)
    requires WfRegistry(reg) && RefsBelow(t, |reg|) && t.DictOf? && v.VDict?
    ensures forall n :: 0 <= n < |v.entries| ==> EntryResults(mode, v, t, 0, reg)[n] == EntryResult(mode, v, t, n, reg)
  {
    forall n | 0 <= n < |v.entries| ensures EntryResults(mode, v, t, 0, reg)[n] == EntryResult(mode, v, t, n, reg) {
      EntryResultsAt(mode, v, t, 0, n, reg);
    }
  }

  /** The dict comprehension from entry `i` is the fold of its entries' results. */
  lemma {:induction false} LoadEntriesAsResults(mode: Mode, v: Value, t: TypeDesc, i: nat, acc: seq<Entry>, reg: Registry)
    requires DictLoop(v, t, i, acc, reg)
    ensures LoadEntries(mode, v, t, i, acc, reg) == PutResults(EntryResults(mode, v, t, i, reg), acc)
    decreases |v.entries| - i
  {
    if i < |v.entries| {
      var rs := EntryResults(mode, v, t, i, reg);
      assert rs[1..] == EntryResults(mode, v, t, i + 1, reg);
      var e := EntryResult(mode, v, t, i, reg);
      if e.Ok? {
        LoadEntriesAsResults(mode, v, t, i + 1, Put(acc, e.value.key, e.value.val), reg);
      }
    }
  }

  /** A dict that loads had every source entry load, and is the fold of what they loaded to. */
  lemma DictLoadsAsFold(mode: Mode, v: Value, t: TypeDesc, reg: Registry)
    requires WfRegistry(reg) && RefsBelow(t, |reg|) && t.DictOf? && Load(mode, v, t, reg).Ok?
    ensures v.VDict?
    ensures forall m :: 0 <= m < |v.entries| ==> EntryResults(mode, v, t, 0, reg)[m].Ok?
    ensures Load(mode, v, t, reg).value == VDict(PutAll([], Oks(EntryResults(mode, v, t, 0, reg))))
  {
    LoadEntriesAsResults(mode, v, t, 0, [], reg);
    PutResultsFold(EntryResults(mode, v, t, 0, reg), []);
  }

  /** A dict whose entries all load becomes the dict of what they loaded to. */
  lemma DictLoadsEntries(mode: Mode, v: Value, kt: TypeDesc, vt: TypeDesc, reg: Registry)
    requires WfRegistry(reg) && RefsBelow(DictOf(kt, vt), |reg|) && v.VDict?
    requires LoadEntries(mode, v, DictOf(kt, vt), 0, [], reg).Ok?
    ensures Load(mode, v, DictOf(kt, vt), reg) == Ok(VDict(LoadEntries(mode, v, DictOf(kt, vt), 0, [], reg).value))
  {
  }

  /** A list or tuple whose elements all load becomes the list of what they loaded to. */
  lemma ListLoadsItems(mode: Mode, v: Value, e: TypeDesc, reg: Registry)
    requires WfRegistry(reg) && RefsBelow(ListOf(e), |reg|) && v.VList?
    requires LoadItems(mode, v, ListOf(e), 0, reg).Ok?
    ensures Load(mode, v, ListOf(e), reg) == Ok(VList(LoadItems(mode, v, ListOf(e), 0, reg).value))
  {
  }

  /** A list of the right arity whose positions all load becomes the tuple of what they loaded to. */
  lemma TupleLoadsPositions(mode: Mode, v: Value, ds: seq<TypeDesc>, reg: Registry)
    requires WfRegistry(reg) && RefsBelow(TupleOf(ds), |reg|) && v.VList? && |v.items| == |ds|
    requires LoadPositions(mode, v, TupleOf(ds), 0, reg).Ok?
    ensures Load(mode, v, TupleOf(ds), reg) == Ok(VTuple(LoadPositions(mode, v, TupleOf(ds), 0, reg).value))
  {
  }

  /** A list whose elements all load and hash becomes the set of what they loaded to. */
  lemma SetLoadsItems(mode: Mode, v: Value, e: TypeDesc, reg: Registry)
    requires WfRegistry(reg) && RefsBelow(SetOf(e), |reg|) && v.VList?
    requires LoadSetItems(mode, v, SetOf(e), 0, [], reg).Ok?
    ensures Load(mode, v, SetOf(e), reg) == Ok(VSet(LoadSetItems(mode, v, SetOf(e), 0, [], reg).value))
  {
  }

  /** A tuple loads position by position. */
  lemma TupleLoadRule(mode: Mode, v: Value, ds: seq<TypeDesc>, reg: Registry)
    requires WfRegistry(reg) && RefsBelow(TupleOf(ds), |reg|) && Load(mode, v, TupleOf(ds), reg).Ok?
    ensures (v.VList? || v.VTuple?) && |v.items| == |ds| && Load(mode, v, TupleOf(ds), reg).value.VTuple?
    ensures forall k :: 0 <= k < |ds| ==>
      Load(mode, v.items[k], ds[k], reg) == Ok(Load(mode, v, TupleOf(ds), reg).value.items[k])
  {
  }

  /**
    A set holds exactly the loaded elements, each once: duplicates among the
    loaded values collapse.
  */
  lemma SetLoadRule(mode: Mode, v: Value, e: TypeDesc, reg: Registry)
    requires WfRegistry(reg) && RefsBelow(SetOf(e), |reg|) && Load(mode, v, SetOf(e), reg).Ok?
    ensures (v.VList? || v.VTuple? || v.VSet?) && Load(mode, v, SetOf(e), reg).value.VSet?
    ensures Distinct(Load(mode, v, SetOf(e), reg).value.items)
    ensures forall x :: x in Load(mode, v, SetOf(e), reg).value.items <==>
      exists k :: 0 <= k < |v.items| && Load(mode, v.items[k], e, reg) == Ok(x)
  {
    SetItemsMembers(mode, v, SetOf(e), 0, [], reg);
  }

  /** The state of the set comprehension before element `i`: `acc` holds no duplicates. */
  predicate SetLoop(v: Value, t: TypeDesc, i: nat, acc: seq<Value>, reg: Registry) {
    WfRegistry(reg) && RefsBelow(t, |reg|) && t.SetOf? && (v.VList? || v.VTuple? || v.VSet?) && i <= |v.items| && Distinct(acc)
  }

  /** One turn of the set comprehension that did not raise: the element loaded, hashed and was added. */
  lemma LoadSetItemsStep(mode: Mode, v: Value, t: TypeDesc, i: nat, acc: seq<Value>, reg: Registry)
    requires SetLoop(v, t, i, acc, reg) && i < |v.items|
    requires LoadSetItems(mode, v, t, i, acc, reg).Ok?
    ensures Load(mode, v.items[i], t.elem, reg).Ok? && Hashable(Load(mode, v.items[i], t.elem, reg).value)
    ensures LoadSetItems(mode, v, t, i, acc, reg) ==
      LoadSetItems(mode, v, t, i + 1, AddUnique(acc, Load(mode, v.items[i], t.elem, reg).value), reg)
  {
  }

  /** Some element from `i` on loads to `x`. */
  predicate LoadsFrom(mode: Mode, v: Value, t: TypeDesc, i: nat, x: Value, reg: Registry)
    requires SetLoop(v, t, i, [], reg)
  {
    exists k :: i <= k < |v.items| && Load(mode, v.items[k], t.elem, reg) == Ok(x)
  }

  /** Peeling element `i` off `LoadsFrom`. */
  lemma LoadsFromStep(mode: Mode, v: Value, t: TypeDesc, i: nat, x: Value, reg: Registry)
    requires SetLoop(v, t, i, [], reg) && i < |v.items|
    ensures LoadsFrom(mode, v, t, i, x, reg) <==>
      Load(mode, v.items[i], t.elem, reg) == Ok(x) || LoadsFrom(mode, v, t, i + 1, x, reg)
  {
    if LoadsFrom(mode, v, t, i, x, reg) {
      var k :| i <= k < |v.items| && Load(mode, v.items[k], t.elem, reg) == Ok(x);
      if k > i {
        assert LoadsFrom(mode, v, t, i + 1, x, reg);
      }
    }
  }

  lemma {:induction false} SetItemsMembers(mode: Mode, v: Value, t: TypeDesc, i: nat, acc: seq<Value>, reg: Registry)
    requires SetLoop(v, t, i, acc, reg)
    requires LoadSetItems(mode, v, t, i, acc, reg).Ok?
    ensures forall x :: x in LoadSetItems(mode, v, t, i, acc, reg).value <==> x in acc || LoadsFrom(mode, v, t, i, x, reg)
    decreases |v.items| - i
  {
    if i < |v.items| {
      LoadSetItemsStep(mode, v, t, i, acc, reg);
      var y := Load(mode, v.items[i], t.elem, reg).value;
      SetItemsMembers(mode, v, t, i + 1, AddUnique(acc, y), reg);
      forall x
        ensures LoadsFrom(mode, v, t, i, x, reg) <==> x == y || LoadsFrom(mode, v, t, i + 1, x, reg)
      {
        LoadsFromStep(mode, v, t, i, x, reg);
      }
    }
  }
}
