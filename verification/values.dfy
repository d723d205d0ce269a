/**
  The data model of the typed schema engine: Python runtime values, the closed
  type-descriptor language that record annotations are written in, record
  class declarations, and the Python primitives (`in`, `obj[key]`, hashing,
  dict assignment, set insertion) the engine is built from.
*/
module Values {
  import opened Wrappers

  /** The classes a primitive annotation names; `isinstance` against them is `InstanceOf`. */
  datatype PrimKind = BoolKind | IntKind | FloatKind | NumberKind | StrKind | ListKind

  /**
    A field annotation. `Record(c)` names the record class at index `c` of the
    registry; `Union` is `A | B`; the others are `list[T]`, `tuple[...]`,
    `dict[K, V]` and `set[T]`.
  */
  datatype TypeDesc =
    | Prim(kind: PrimKind)
    | Record(cls: nat)
    | Union(alts: seq<TypeDesc>)
    | ListOf(elem: TypeDesc)
    | TupleOf(elems: seq<TypeDesc>)
    | DictOf(key: TypeDesc, val: TypeDesc)
    | SetOf(elem: TypeDesc)

  /**
    A Python value. JSON produces only `VNone`, `VBool`, `VInt`, `VFloat`,
    `VStr`, `VList` and string-keyed `VDict`; loading adds tuples, sets and
    record instances. A dict is its entries in insertion order; a set is its
    elements without duplicates, in insertion order; an instance holds one
    value per declared field, in declaration order.
  */
  datatype Value =
    | VNone
    | VBool(b: bool)
    | VInt(i: int)
    | VFloat(f: real)
    | VStr(s: string)
    | VList(items: seq<Value>)
    | VTuple(items: seq<Value>)
    | VSet(items: seq<Value>)
    | VDict(entries: seq<Entry>)
    | VObj(cls: nat, vals: seq<Value>)

  datatype Entry = Entry(key: Value, val: Value)

  /**
    One annotated field. `attr` is the class attribute of the same name, if the
    class defines one: its presence makes the field count as optional, but only
    a present value other than `None` is usable as a default.
  */
  datatype Field = Field(name: string, ty: TypeDesc, attr: Option<Value>)

  datatype ClassDef = ClassDef(name: string, fields: seq<Field>)

  /** Every record class of the program; `Record(c)` refers to `reg[c]`. */
  type Registry = seq<ClassDef>

  /**
    `AsWritten` is the engine as the source behaves, except that union
    annotations are checked and loaded as intended in both modes; `Intended`
    repairs the two defects listed under Findings in README.md: an instance of
    a record class passes that class's check, and `Number` values load unchanged.
  */
  datatype Mode = AsWritten | Intended

  /** Why an operation raised, one constructor per raise site of the source. */
  datatype Error =
    | ArityError                    // __init__: 'Invalid number of arguments'
    | ArgumentTypeError(index: nat) // __init__: 'Invalid type for argument i'
    | UnknownKeyword(key: string)   // __init__: 'Invalid keyword argument'
    | KeywordTypeError(key: string) // __init__: 'Invalid type for keyword argument'
    | MissingArgument(key: string)  // __init__: 'Missing keyword argument'
    | MissingKey(key: string)       // loads: 'Missing key'
    | KeyTypeError(key: string)     // loads: 'Invalid type for key'
    | KeyNotFound(key: string)      // obj[key] on a dict without that key
    | TupleArityError               // load_value: tuple length differs from the annotation
    | NotIterable                   // `key in obj` on a value with no membership test
    | NotSubscriptable              // obj[key] on a value that is not a dict
    | Unhashable                    // a list, dict or set used as a set element or dict key
    | NumberNotCallable             // Number(obj): 'Number() takes no arguments'
    | NotModelled                   // a primitive constructor coercing a value of another class
    | BrokenInstance                // an instance lacking a value for some declared field
    | IndexNotTuple                 // Tilemap[key] with a non-tuple key
    | IndexNotPair                  // Tilemap[key] with a tuple of length other than 2
    | RowNotInt                     // Tilemap[key] with a non-int row
    | ColumnNotInt                  // Tilemap[key] with a non-int column
    | IndexOutOfRange               // a list index past the end
    | EmptyIteration                // next() on an empty iterator
    | UnknownLocation(loc: string)  // set_location: 'invalid location'
    | UnknownState(name: string)    // STATES[name] without that name
    | NoProfile                     // attribute assignment on None

  datatype PyException = ValueError | TypeError | KeyError | IndexError | StopIteration | AttributeError

  /** The Python exception class each error is raised as. */
  function ExceptionOf(e: Error): PyException {
    match e
    case ArityError => ValueError
    case MissingKey(_) => ValueError
    case KeyTypeError(_) => ValueError
    case TupleArityError => ValueError
    case UnknownLocation(_) => ValueError
    case KeyNotFound(_) => KeyError
    case UnknownState(_) => KeyError
    case IndexOutOfRange => IndexError
    case EmptyIteration => StopIteration
    case NoProfile => AttributeError
    case BrokenInstance => AttributeError
    case _ => TypeError
  }

  /** `isinstance(v, k)`: bool is a subclass of int, and int, bool and float are Numbers. */
  predicate InstanceOf(v: Value, k: PrimKind) {
    match k
    case BoolKind => v.VBool?
    case IntKind => v.VBool? || v.VInt?
    case FloatKind => v.VFloat?
    case NumberKind => v.VBool? || v.VInt? || v.VFloat?
    case StrKind => v.VStr?
    case ListKind => v.VList?
  }

  /** Python hashability: lists, dicts and sets are not hashable; instances hash by identity. */
  predicate Hashable(v: Value) {
    match v
    case VList(_) => false
    case VDict(_) => false
    case VSet(_) => false
    case VTuple(items) => forall i :: 0 <= i < |items| ==> Hashable(items[i])
    case _ => true
  }

  /** `hasattr(cls, name)`: the field counts as optional when arguments are counted. */
  predicate IsOptional(f: Field) {
    f.attr.Some?
  }

  /** `getattr(cls, name, None) is not None`: the field has a usable default. */
  predicate HasDefault(f: Field) {
    f.attr.Some? && f.attr.value != VNone
  }

  /** The number of fields without a class attribute. */
  function RequiredCount(fields: seq<Field>): (n: nat)
    ensures n <= |fields|
  {
    if |fields| == 0 then 0
    else RequiredCount(fields[..|fields| - 1]) + (if IsOptional(fields[|fields| - 1]) then 0 else 1)
  }

  predicate DistinctFieldNames(fields: seq<Field>) {
    forall i, j :: 0 <= i < j < |fields| ==> fields[i].name != fields[j].name
  }

  /** The position of the field called `name`, if the class declares one. */
  function FieldIndex(fields: seq<Field>, name: string): (r: Option<nat>)
    ensures r.Some? ==> r.value < |fields| && fields[r.value].name == name
    ensures r.None? <==> forall i :: 0 <= i < |fields| ==> fields[i].name != name
    ensures r.Some? ==> forall i :: 0 <= i < r.value ==> fields[i].name != name
  {
    if |fields| == 0 then None
    else if fields[0].name == name then Some(0)
    else match FieldIndex(fields[1..], name)
      case None => None
      case Some(i) => Some(i + 1)
  }

  /** Every record class named in `t` is below `n`. */
  predicate RefsBelow(t: TypeDesc, n: nat) {
    match t
    case Prim(_) => true
    case Record(c) => c < n
    case Union(alts) => forall i :: 0 <= i < |alts| ==> RefsBelow(alts[i], n)
    case ListOf(e) => RefsBelow(e, n)
    case TupleOf(ds) => forall i :: 0 <= i < |ds| ==> RefsBelow(ds[i], n)
    case DictOf(k, x) => RefsBelow(k, n) && RefsBelow(x, n)
    case SetOf(e) => RefsBelow(e, n)
  }

  /** Annotations are dicts (distinct names) and every class they name is declared. */
  predicate WfRegistry(reg: Registry) {
    forall c :: 0 <= c < |reg| ==>
      DistinctFieldNames(reg[c].fields) &&
      forall i :: 0 <= i < |reg[c].fields| ==> RefsBelow(reg[c].fields[i].ty, |reg|)
  }

  /** The first entry whose key equals `k`. */
  function FindKey(es: seq<Entry>, k: Value): (r: Option<nat>)
    ensures r.Some? ==> r.value < |es| && es[r.value].key == k
    ensures r.Some? ==> forall i :: 0 <= i < r.value ==> es[i].key != k
    ensures r.None? <==> forall i :: 0 <= i < |es| ==> es[i].key != k
  {
    if |es| == 0 then None
    else if es[0].key == k then Some(0)
    else match FindKey(es[1..], k)
      case None => None
      case Some(i) => Some(i + 1)
  }

  predicate DistinctKeys(es: seq<Entry>) {
    forall i, j :: 0 <= i < j < |es| ==> es[i].key != es[j].key
  }

  /** `d[k] = x`: an existing key keeps its position and takes the new value. */
  function Put(es: seq<Entry>, k: Value, x: Value): (r: seq<Entry>)
    ensures Entry(k, x) in r
    ensures forall e :: e in r ==> e in es || e == Entry(k, x)
    ensures forall i :: 0 <= i < |es| && es[i].key != k ==> es[i] in r
    ensures (forall i :: 0 <= i < |es| ==> es[i].key != k) ==> r == es + [Entry(k, x)]
    ensures DistinctKeys(es) ==> DistinctKeys(r)
  {
    match FindKey(es, k)
    case Some(j) =>
      var r := es[j := Entry(k, x)];
      assert r[j] == Entry(k, x);
      assert forall i :: 0 <= i < |es| && es[i].key != k ==> r[i] == es[i];
      r
    case None => es + [Entry(k, x)]
  }

  /** The invariant of the dict comprehension's loop at source entry `i`. */
  predicate DictLoop(v: Value, t: TypeDesc, i: nat, acc: seq<Entry>, reg: Registry) {
    WfRegistry(reg) && RefsBelow(t, |reg|) && t.DictOf? && v.VDict? && i <= |v.entries| && DistinctKeys(acc)
  }

  /** Some entry of `es` has key `k`. */
  predicate HasKey(es: seq<Entry>, k: Value) {
    exists e :: e in es && e.key == k
  }

  /** `d[k] = x` for each entry of `ds` in turn. */
  function PutAll(acc: seq<Entry>, ds: seq<Entry>): (r: seq<Entry>)
    ensures DistinctKeys(acc) ==> DistinctKeys(r)
    decreases |ds|
  {
    if |ds| == 0 then acc else PutAll(Put(acc, ds[0].key, ds[0].val), ds[1..])
  }

  lemma PutAllCons(acc: seq<Entry>, d: Entry, ds: seq<Entry>)
    ensures PutAll(acc, [d] + ds) == PutAll(Put(acc, d.key, d.val), ds)
  {
    assert ([d] + ds)[1..] == ds;
  }

  /** An entry whose key none of `ds` assigns survives. */
  lemma {:induction false} PutAllKeeps(acc: seq<Entry>, ds: seq<Entry>, e: Entry)
    requires e in acc && forall n :: 0 <= n < |ds| ==> ds[n].key != e.key
    ensures e in PutAll(acc, ds)
    decreases |ds|
  {
    if |ds| > 0 {
      var j :| 0 <= j < |acc| && acc[j] == e;
      assert e in Put(acc, ds[0].key, ds[0].val);
      PutAllKeeps(Put(acc, ds[0].key, ds[0].val), ds[1..], e);
    }
  }

  /** A key already present stays present. */
  lemma {:induction false} PutAllKeyKept(acc: seq<Entry>, ds: seq<Entry>, k: Value)
    requires HasKey(acc, k)
    ensures HasKey(PutAll(acc, ds), k)
    decreases |ds|
  {
    if |ds| > 0 {
      var acc' := Put(acc, ds[0].key, ds[0].val);
      var e :| e in acc && e.key == k;
      var j :| 0 <= j < |acc| && acc[j] == e;
      if k == ds[0].key {
        assert Entry(ds[0].key, ds[0].val) in acc';
      } else {
        assert e in acc';
      }
      PutAllKeyKept(acc', ds[1..], k);
    }
  }

  /** Every assigned key is present afterwards. */
  lemma {:induction false} PutAllHasKey(acc: seq<Entry>, ds: seq<Entry>, m: nat)
    requires m < |ds|
    ensures HasKey(PutAll(acc, ds), ds[m].key)
    decreases |ds|
  {
    var acc' := Put(acc, ds[0].key, ds[0].val);
    if m == 0 {
      assert Entry(ds[0].key, ds[0].val) in acc';
      PutAllKeyKept(acc', ds[1..], ds[0].key);
    } else {
      assert ds[1..][m - 1] == ds[m];
      PutAllHasKey(acc', ds[1..], m - 1);
    }
  }

  /** The last assignment to a key is the entry that stays. */
  lemma {:induction false} PutAllLast(acc: seq<Entry>, ds: seq<Entry>, m: nat)
    requires m < |ds| && forall n :: m < n < |ds| ==> ds[n].key != ds[m].key
    ensures ds[m] in PutAll(acc, ds)
    decreases |ds|
  {
    var acc' := Put(acc, ds[0].key, ds[0].val);
    if m == 0 {
      assert Entry(ds[0].key, ds[0].val) == ds[0];
      PutAllKeeps(acc', ds[1..], ds[0]);
    } else {
      assert ds[1..][m - 1] == ds[m];
      PutAllLast(acc', ds[1..], m - 1);
    }
  }

  /** The dict comprehension over entries already loaded: the first failure aborts it, otherwise each is assigned in turn. */
  function PutResults(rs: seq<Result<Entry, Error>>, acc: seq<Entry>): (r: Result<seq<Entry>, Error>)
    ensures r.Err? ==> exists m :: 0 <= m < |rs| && rs[m] == Err(r.error)
    decreases |rs|
  {
    if |rs| == 0 then Ok(acc)
    else if rs[0].Err? then Err(rs[0].error)
    else
      var r := PutResults(rs[1..], Put(acc, rs[0].value.key, rs[0].value.val));
      assert r.Err? ==> exists m :: 1 <= m < |rs| && rs[m] == Err(r.error) by {
        if r.Err? {
          var m :| 0 <= m < |rs[1..]| && rs[1..][m] == Err(r.error);
          assert rs[m + 1] == Err(r.error);
        }
      }
      r
  }

  /** The entries of results that all succeeded. */
  function Oks(rs: seq<Result<Entry, Error>>): (ds: seq<Entry>)
    requires forall m :: 0 <= m < |rs| ==> rs[m].Ok?
    ensures |ds| == |rs| && forall m :: 0 <= m < |rs| ==> ds[m] == rs[m].value
    decreases |rs|
  {
    if |rs| == 0 then [] else [rs[0].value] + Oks(rs[1..])
  }

  /** A fold of results that succeeds met no failure, and assigned every entry in order. */
  lemma {:induction false} PutResultsFold(rs: seq<Result<Entry, Error>>, acc: seq<Entry>)
    requires PutResults(rs, acc).Ok?
    ensures forall m :: 0 <= m < |rs| ==> rs[m].Ok?
    ensures PutResults(rs, acc).value == PutAll(acc, Oks(rs))
    decreases |rs|
  {
    if |rs| > 0 {
      var acc' := Put(acc, rs[0].value.key, rs[0].value.val);
      PutResultsFold(rs[1..], acc');
      assert forall m :: 1 <= m < |rs| ==> rs[m] == rs[1..][m - 1];
      PutAllCons(acc, rs[0].value, Oks(rs[1..]));
    }
  }

  /** `s.add(x)`. */
  function AddUnique(items: seq<Value>, x: Value): (r: seq<Value>)
    ensures x in r
    ensures forall y :: y in r <==> y in items || y == x
    ensures x in items ==> r == items
    ensures Distinct(items) ==> Distinct(r)
  {
    if x in items then items else items + [x]
  }

  predicate Distinct(items: seq<Value>) {
    forall i, j :: 0 <= i < j < |items| ==> items[i] != items[j]
  }

  /** `k in s` for strings: `k` occurs as a contiguous substring of `s`. */
  predicate IsSubstring(k: string, s: string) {
    exists i :: 0 <= i <= |s| - |k| && OccursAt(k, s, i)
  }

  predicate OccursAt(k: string, s: string, i: nat) {
    i + |k| <= |s| && s[i..i + |k|] == k
  }

  /**
    `name in obj`, for a field name: a dict tests its keys, a string its
    substrings, a list, tuple or set its elements; anything else raises.
  */
  function Contains(v: Value, name: string): (r: Result<bool, Error>)
    ensures r.Err? <==> !(v.VDict? || v.VStr? || v.VList? || v.VTuple? || v.VSet?)
    ensures v.VDict? ==> r == Ok(FindKey(v.entries, VStr(name)).Some?)
  {
    match v
    case VDict(es) => Ok(FindKey(es, VStr(name)).Some?)
    case VStr(s) => Ok(IsSubstring(name, s))
    case VList(items) => Ok(VStr(name) in items)
    case VTuple(items) => Ok(VStr(name) in items)
    case VSet(items) => Ok(VStr(name) in items)
    case _ => Err(NotIterable)
  }

  /**
    `obj[name]`, for a field name: the position of the entry in a dict that
    has the key; a dict without it raises KeyError and anything else TypeError.
  */
  function Subscript(v: Value, name: string): (r: Result<nat, Error>)
    ensures r.Ok? ==> v.VDict? && r.value < |v.entries| && v.entries[r.value].key == VStr(name)
    ensures r.Ok? ==> r.value == FindKey(v.entries, VStr(name)).value
    ensures v.VDict? && FindKey(v.entries, VStr(name)).None? ==> r == Err(KeyNotFound(name))
    ensures !v.VDict? ==> r == Err(NotSubscriptable)
  {
    match v
    case VDict(es) =>
      (match FindKey(es, VStr(name))
       case Some(j) => Ok(j)
       case None => Err(KeyNotFound(name)))
    case _ => Err(NotSubscriptable)
  }

  /** The value of `obj[name]` in a dict that has the key. */
  function Lookup(v: Value, name: string): Value
    requires v.VDict? && FindKey(v.entries, VStr(name)).Some?
  {
    v.entries[FindKey(v.entries, VStr(name)).value].val
  }

  /** A value as `json.load` can produce it: no tuples, sets or instances; dict keys are distinct strings. */
  predicate IsWire(v: Value) {
    match v
    case VList(items) => forall i :: 0 <= i < |items| ==> IsWire(items[i])
    case VTuple(_) => false
    case VSet(_) => false
    case VObj(_, _) => false
    case VDict(es) =>
      DistinctKeys(es) && forall i :: 0 <= i < |es| ==> es[i].key.VStr? && IsWire(es[i].val)
    case _ => true
  }
}
