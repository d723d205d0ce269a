/**
  `is_type`: the structural check of a value against an annotation, and
  `is_valid`, the record-level check it delegates to. Every loop of the source
  short-circuits, and `in`/`obj[key]` may raise, so the verdict is three-valued.
*/
module TypeCheck {
  import opened Wrappers
  import opened Values

  /** `is_type` returned True, returned False, or raised. */
  datatype Verdict = Pass | Fail | Raise(error: Error)

  /** The only errors `is_type` can raise: from `name in v` and from `v[name]`. */
  predicate CheckError(e: Error) {
    e == NotIterable || e == NotSubscriptable
  }

  /** `is_type(v, t)`. */
  function Check(mode: Mode, v: Value, t: TypeDesc, reg: Registry): (r: Verdict)
    requires WfRegistry(reg) && RefsBelow(t, |reg|)
    ensures t.Prim? ==> (r == Pass <==> InstanceOf(v, t.kind)) && !r.Raise?
    ensures r.Raise? ==> CheckError(r.error)
    decreases v, t, 1
  {
    match t
    case Prim(k) => if InstanceOf(v, k) then Pass else Fail
    case Record(c) =>
      if mode == Intended && v.VObj? then (if v.cls == c then Pass else Fail)
      else CheckFields(mode, v, c, 0, reg)
    case Union(_) => CheckAlts(mode, v, t, 0, reg)
    case TupleOf(ds) =>
      if !(v.VList? || v.VTuple?) then Fail
      else if |ds| != |v.items| then Fail
      else CheckPositions(mode, v, t, 0, reg)
    case ListOf(_) => if v.VList? then CheckItems(mode, v, t, 0, reg) else Fail
    case DictOf(_, _) => if v.VDict? then CheckEntries(mode, v, t, 0, reg) else Fail
    case SetOf(_) => if v.VList? || v.VSet? then CheckItems(mode, v, t, 0, reg) else Fail
  }

  /** `is_valid(cls, v)` from field `i` on: each field name must be `in v` and `v[name]` must pass. */
  function CheckFields(mode: Mode, v: Value, c: nat, i: nat, reg: Registry): (r: Verdict)
    requires WfRegistry(reg) && c < |reg| && i <= |reg[c].fields|
    ensures r.Raise? ==> CheckError(r.error)
    decreases v, Record(c), 0, |reg[c].fields| - i
  {
    if i == |reg[c].fields| then Pass
    else
      var f := reg[c].fields[i];
      match Contains(v, f.name)
      case Err(e) => Raise(e)
      case Ok(present) =>
        if !present then Fail
        else match Subscript(v, f.name)
          case Err(e) => Raise(e)
          case Ok(j) =>
            var r := Check(mode, v.entries[j].val, f.ty, reg);
            if r == Pass then CheckFields(mode, v, c, i + 1, reg) else r
  }

  /** The union loop: the first alternative that passes answers True; a raise propagates. */
  function CheckAlts(mode: Mode, v: Value, t: TypeDesc, i: nat, reg: Registry): (r: Verdict)
    requires WfRegistry(reg) && RefsBelow(t, |reg|) && t.Union? && i <= |t.alts|
    ensures r.Raise? ==> CheckError(r.error)
    decreases v, t, 0, |t.alts| - i
  {
    if i == |t.alts| then Fail
    else match Check(mode, v, t.alts[i], reg)
      case Pass => Pass
      case Fail => CheckAlts(mode, v, t, i + 1, reg)
      case Raise(e) => Raise(e)
  }

  /** The list and set loop: every element from `i` on must pass the element annotation. */
  function CheckItems(mode: Mode, v: Value, t: TypeDesc, i: nat, reg: Registry): (r: Verdict)
    requires WfRegistry(reg) && RefsBelow(t, |reg|) && (t.ListOf? || t.SetOf?)
    requires (v.VList? || v.VTuple? || v.VSet?) && i <= |v.items|
    ensures r.Raise? ==> CheckError(r.error)
    decreases v, t, 0, |v.items| - i
  {
    if i == |v.items| then Pass
    else
      var r := Check(mode, v.items[i], t.elem, reg);
      if r == Pass then CheckItems(mode, v, t, i + 1, reg) else r
  }

  /** The tuple loop: position `k` must pass the `k`-th annotation. */
  function CheckPositions(mode: Mode, v: Value, t: TypeDesc, i: nat, reg: Registry): (r: Verdict)
    requires WfRegistry(reg) && RefsBelow(t, |reg|) && t.TupleOf?
    requires (v.VList? || v.VTuple? || v.VSet?) && |v.items| == |t.elems| && i <= |v.items|
    ensures r.Raise? ==> CheckError(r.error)
    decreases v, t, 0, |v.items| - i
  {
    if i == |v.items| then Pass
    else
      var r := Check(mode, v.items[i], t.elems[i], reg);
      if r == Pass then CheckPositions(mode, v, t, i + 1, reg) else r
  }

  /** The dict loop: the key is checked before the value, and a failing key stops the loop. */
  function CheckEntries(mode: Mode, v: Value, t: TypeDesc, i: nat, reg: Registry): (r: Verdict)
    requires WfRegistry(reg) && RefsBelow(t, |reg|) && t.DictOf? && v.VDict? && i <= |v.entries|
    ensures r.Raise? ==> CheckError(r.error)
    decreases v, t, 0, |v.entries| - i
  {
    if i == |v.entries| then Pass
    else
      var rk := Check(mode, v.entries[i].key, t.key, reg);
      if rk != Pass then rk
      else
        var rv := Check(mode, v.entries[i].val, t.val, reg);
        if rv != Pass then rv else CheckEntries(mode, v, t, i + 1, reg)
  }

  /** `is_type(v, t)` returned True. */
  predicate IsType(mode: Mode, v: Value, t: TypeDesc, reg: Registry)
    requires WfRegistry(reg) && RefsBelow(t, |reg|)
  {
    Check(mode, v, t, reg) == Pass
  }

  /** `is_valid(cls, v)` returned True. */
  predicate IsValid(mode: Mode, v: Value, c: nat, reg: Registry)
    requires WfRegistry(reg) && c < |reg|
  {
    Check(mode, v, Record(c), reg) == Pass
  }

  // ---------------------------------------------------------------------------
  // The loops, stated as quantifiers.

  lemma {:induction false} CheckItemsPass(mode: Mode, v: Value, t: TypeDesc, i: nat, reg: Registry)
    requires WfRegistry(reg) && RefsBelow(t, |reg|) && (t.ListOf? || t.SetOf?)
    requires (v.VList? || v.VTuple? || v.VSet?) && i <= |v.items|
    ensures CheckItems(mode, v, t, i, reg) == Pass <==>
      forall k :: i <= k < |v.items| ==> Check(mode, v.items[k], t.elem, reg) == Pass
    decreases |v.items| - i
  {
    if i < |v.items| {
      CheckItemsPass(mode, v, t, i + 1, reg);
    }
  }

  lemma {:induction false} CheckPositionsPass(mode: Mode, v: Value, t: TypeDesc, i: nat, reg: Registry)
    requires WfRegistry(reg) && RefsBelow(t, |reg|) && t.TupleOf?
    requires (v.VList? || v.VTuple? || v.VSet?) && |v.items| == |t.elems| && i <= |v.items|
    ensures CheckPositions(mode, v, t, i, reg) == Pass <==>
      forall k :: i <= k < |v.items| ==> Check(mode, v.items[k], t.elems[k], reg) == Pass
    decreases |v.items| - i
  {
    if i < |v.items| {
      CheckPositionsPass(mode, v, t, i + 1, reg);
    }
  }

  lemma {:induction false} CheckEntriesPass(mode: Mode, v: Value, t: TypeDesc, i: nat, reg: Registry)
    requires WfRegistry(reg) && RefsBelow(t, |reg|) && t.DictOf? && v.VDict? && i <= |v.entries|
    ensures CheckEntries(mode, v, t, i, reg) == Pass <==>
      forall k :: i <= k < |v.entries| ==>
        Check(mode, v.entries[k].key, t.key, reg) == Pass && Check(mode, v.entries[k].val, t.val, reg) == Pass
    decreases |v.entries| - i
  {
    if i < |v.entries| {
      CheckEntriesPass(mode, v, t, i + 1, reg);
    }
  }

  /** The first alternative that does not fail decides the union. */
  lemma {:induction false} CheckAltsPass(mode: Mode, v: Value, t: TypeDesc, i: nat, reg: Registry)
    requires WfRegistry(reg) && RefsBelow(t, |reg|) && t.Union? && i <= |t.alts|
    ensures CheckAlts(mode, v, t, i, reg) == Pass <==>
      exists k :: i <= k < |t.alts| && Check(mode, v, t.alts[k], reg) == Pass &&
        forall j :: i <= j < k ==> Check(mode, v, t.alts[j], reg) == Fail
    decreases |t.alts| - i
  {
    if i < |t.alts| {
      CheckAltsPass(mode, v, t, i + 1, reg);
      if Check(mode, v, t.alts[i], reg) == Fail && CheckAlts(mode, v, t, i + 1, reg) == Pass {
        var k :| i + 1 <= k < |t.alts| && Check(mode, v, t.alts[k], reg) == Pass &&
          forall j :: i + 1 <= j < k ==> Check(mode, v, t.alts[j], reg) == Fail;
        assert forall j :: i <= j < k ==> Check(mode, v, t.alts[j], reg) == Fail;
      }
    }
  }

  /** A dict passes `is_valid` exactly when every field name is a key whose value passes. */
  lemma {:induction false} CheckFieldsPass(mode: Mode, v: Value, c: nat, i: nat, reg: Registry)
    requires WfRegistry(reg) && c < |reg| && i <= |reg[c].fields| && v.VDict?
    ensures CheckFields(mode, v, c, i, reg) == Pass <==>
      forall k :: i <= k < |reg[c].fields| ==>
        FindKey(v.entries, VStr(reg[c].fields[k].name)).Some? &&
        Check(mode, Lookup(v, reg[c].fields[k].name), reg[c].fields[k].ty, reg) == Pass
    decreases |reg[c].fields| - i
  {
    if i < |reg[c].fields| {
      CheckFieldsPass(mode, v, c, i + 1, reg);
    }
  }

  // ---------------------------------------------------------------------------
  // The rules of `is_type`, one per annotation form.

  /** A union is True iff some alternative is True and every earlier one is False (not raising). */
  lemma UnionRule(mode: Mode, v: Value, alts: seq<TypeDesc>, reg: Registry)
    requires WfRegistry(reg) && RefsBelow(Union(alts), |reg|)
    ensures IsType(mode, v, Union(alts), reg) <==>
      exists k :: 0 <= k < |alts| && Check(mode, v, alts[k], reg) == Pass &&
        forall j :: 0 <= j < k ==> Check(mode, v, alts[j], reg) == Fail
  {
    CheckAltsPass(mode, v, Union(alts), 0, reg);
  }

  /** When no alternative raises, a union is True iff some alternative is True. */
  lemma UnionRuleNoRaise(mode: Mode, v: Value, alts: seq<TypeDesc>, reg: Registry)
    requires WfRegistry(reg) && RefsBelow(Union(alts), |reg|)
    requires forall j :: 0 <= j < |alts| ==> !Check(mode, v, alts[j], reg).Raise?
    ensures IsType(mode, v, Union(alts), reg) <==>
      exists k :: 0 <= k < |alts| && Check(mode, v, alts[k], reg) == Pass
  {
    UnionRule(mode, v, alts, reg);
    if k :| 0 <= k < |alts| && Check(mode, v, alts[k], reg) == Pass {
      FirstPassing(mode, v, alts, k, reg);
    }
  }

  lemma FirstPassing(mode: Mode, v: Value, alts: seq<TypeDesc>, k: nat, reg: Registry)
    requires WfRegistry(reg) && RefsBelow(Union(alts), |reg|)
    requires forall j :: 0 <= j < |alts| ==> !Check(mode, v, alts[j], reg).Raise?
    requires k < |alts| && Check(mode, v, alts[k], reg) == Pass
    ensures exists m :: 0 <= m < |alts| && Check(mode, v, alts[m], reg) == Pass &&
                        forall j :: 0 <= j < m ==> Check(mode, v, alts[j], reg) == Fail
    decreases k
  {
    if exists j :: 0 <= j < k && Check(mode, v, alts[j], reg) == Pass {
      var j :| 0 <= j < k && Check(mode, v, alts[j], reg) == Pass;
      FirstPassing(mode, v, alts, j, reg);
    }
  }

  /** A tuple annotation accepts a list or tuple of exactly its arity, position by position. */
  lemma TupleRule(mode: Mode, v: Value, ds: seq<TypeDesc>, reg: Registry)
    requires WfRegistry(reg) && RefsBelow(TupleOf(ds), |reg|)
    ensures IsType(mode, v, TupleOf(ds), reg) <==>
      (v.VList? || v.VTuple?) && |v.items| == |ds| &&
      forall k :: 0 <= k < |ds| ==> Check(mode, v.items[k], ds[k], reg) == Pass
  {
    if (v.VList? || v.VTuple?) && |v.items| == |ds| {
      CheckPositionsPass(mode, v, TupleOf(ds), 0, reg);
    }
  }

  /** A list annotation accepts only a list, every element of which passes. */
  lemma ListRule(mode: Mode, v: Value, e: TypeDesc, reg: Registry)
    requires WfRegistry(reg) && RefsBelow(ListOf(e), |reg|)
    ensures IsType(mode, v, ListOf(e), reg) <==>
      v.VList? && forall k :: 0 <= k < |v.items| ==> Check(mode, v.items[k], e, reg) == Pass
  {
    if v.VList? {
      CheckItemsPass(mode, v, ListOf(e), 0, reg);
    }
  }

  /** A set annotation accepts a set or a list, every element of which passes. */
  lemma SetRule(mode: Mode, v: Value, e: TypeDesc, reg: Registry)
    requires WfRegistry(reg) && RefsBelow(SetOf(e), |reg|)
    ensures IsType(mode, v, SetOf(e), reg) <==>
      (v.VList? || v.VSet?) && forall k :: 0 <= k < |v.items| ==> Check(mode, v.items[k], e, reg) == Pass
  {
    if v.VList? || v.VSet? {
      CheckItemsPass(mode, v, SetOf(e), 0, reg);
    }
  }

  /** A dict annotation accepts only a dict whose every key and value pass. */
  lemma DictRule(mode: Mode, v: Value, kt: TypeDesc, vt: TypeDesc, reg: Registry)
    requires WfRegistry(reg) && RefsBelow(DictOf(kt, vt), |reg|)
    ensures IsType(mode, v, DictOf(kt, vt), reg) <==>
      v.VDict? && forall k :: 0 <= k < |v.entries| ==>
        Check(mode, v.entries[k].key, kt, reg) == Pass && Check(mode, v.entries[k].val, vt, reg) == Pass
  {
    if v.VDict? {
      CheckEntriesPass(mode, v, DictOf(kt, vt), 0, reg);
    }
  }

  /**
    `is_valid` on a dict: every declared field, defaulted or not, must be a key,
    and its value must pass; keys that are not fields are ignored.
  */
  lemma RecordRule(mode: Mode, v: Value, c: nat, reg: Registry)
    requires WfRegistry(reg) && c < |reg| && v.VDict?
    ensures IsValid(mode, v, c, reg) <==>
      forall k :: 0 <= k < |reg[c].fields| ==>
        FindKey(v.entries, VStr(reg[c].fields[k].name)).Some? &&
        Check(mode, Lookup(v, reg[c].fields[k].name), reg[c].fields[k].ty, reg) == Pass
  {
    CheckFieldsPass(mode, v, c, 0, reg);
  }

  /**
    Source behaviour: an instance of a record class raises TypeError against
    that class's annotation (when it has a field), because `name in instance`
    has no membership test to call.
  */
  lemma InstanceRaisesAsWritten(v: Value, c: nat, reg: Registry)
    requires WfRegistry(reg) && c < |reg| && |reg[c].fields| > 0 && v.VObj?
    ensures Check(AsWritten, v, Record(c), reg) == Raise(NotIterable)
  {
  }

  /** Repaired behaviour: an instance passes exactly the annotation naming its own class. */
  lemma InstancePassesIntended(v: Value, c: nat, reg: Registry)
    requires WfRegistry(reg) && c < |reg| && v.VObj?
    ensures IsValid(Intended, v, c, reg) <==> v.cls == c
  {
  }

  /** The two modes differ only on instances: on a value holding none, they agree. */
  lemma {:induction false} ModesAgreeWithoutInstances(v: Value, t: TypeDesc, reg: Registry)
    requires WfRegistry(reg) && RefsBelow(t, |reg|) && NoInstances(v)
    ensures Check(AsWritten, v, t, reg) == Check(Intended, v, t, reg)
    decreases v, t, 1
  {
    match t
    case Prim(_) =>
    case Record(c) => FieldsAgree(v, c, 0, reg);
    case Union(alts) => AltsAgree(v, t, 0, reg);
    case TupleOf(ds) =>
      if (v.VList? || v.VTuple?) && |ds| == |v.items| {
        PositionsAgree(v, t, 0, reg);
      }
    case ListOf(_) =>
      if v.VList? { ItemsAgree(v, t, 0, reg); }
    case DictOf(_, _) =>
      if v.VDict? { EntriesAgree(v, t, 0, reg); }
    case SetOf(_) =>
      if v.VList? || v.VSet? { ItemsAgree(v, t, 0, reg); }
  }

  /** No record instance occurs anywhere inside `v`. */
  predicate NoInstances(v: Value) {
    match v
    case VObj(_, _) => false
    case VList(items) => forall i :: 0 <= i < |items| ==> NoInstances(items[i])
    case VTuple(items) => forall i :: 0 <= i < |items| ==> NoInstances(items[i])
    case VSet(items) => forall i :: 0 <= i < |items| ==> NoInstances(items[i])
    case VDict(es) => forall i :: 0 <= i < |es| ==> NoInstances(es[i].key) && NoInstances(es[i].val)
    case _ => true
  }

  lemma {:induction false} FieldsAgree(v: Value, c: nat, i: nat, reg: Registry)
    requires WfRegistry(reg) && c < |reg| && i <= |reg[c].fields| && NoInstances(v)
    ensures CheckFields(AsWritten, v, c, i, reg) == CheckFields(Intended, v, c, i, reg)
    decreases v, Record(c), 0, |reg[c].fields| - i
  {
    if i < |reg[c].fields| {
      var f := reg[c].fields[i];
      if Contains(v, f.name) == Ok(true) && Subscript(v, f.name).Ok? {
        var j := Subscript(v, f.name).value;
        ModesAgreeWithoutInstances(v.entries[j].val, f.ty, reg);
        FieldsAgree(v, c, i + 1, reg);
      }
    }
  }

  lemma {:induction false} AltsAgree(v: Value, t: TypeDesc, i: nat, reg: Registry)
    requires WfRegistry(reg) && RefsBelow(t, |reg|) && t.Union? && i <= |t.alts| && NoInstances(v)
    ensures CheckAlts(AsWritten, v, t, i, reg) == CheckAlts(Intended, v, t, i, reg)
    decreases v, t, 0, |t.alts| - i
  {
    if i < |t.alts| {
      ModesAgreeWithoutInstances(v, t.alts[i], reg);
      AltsAgree(v, t, i + 1, reg);
    }
  }

  lemma {:induction false} ItemsAgree(v: Value, t: TypeDesc, i: nat, reg: Registry)
    requires WfRegistry(reg) && RefsBelow(t, |reg|) && (t.ListOf? || t.SetOf?)
    requires (v.VList? || v.VTuple? || v.VSet?) && i <= |v.items| && NoInstances(v)
    ensures CheckItems(AsWritten, v, t, i, reg) == CheckItems(Intended, v, t, i, reg)
    decreases v, t, 0, |v.items| - i
  {
    if i < |v.items| {
      ModesAgreeWithoutInstances(v.items[i], t.elem, reg);
      ItemsAgree(v, t, i + 1, reg);
    }
  }

  lemma {:induction false} PositionsAgree(v: Value, t: TypeDesc, i: nat, reg: Registry)
    requires WfRegistry(reg) && RefsBelow(t, |reg|) && t.TupleOf?
    requires (v.VList? || v.VTuple? || v.VSet?) && |v.items| == |t.elems| && i <= |v.items| && NoInstances(v)
    ensures CheckPositions(AsWritten, v, t, i, reg) == CheckPositions(Intended, v, t, i, reg)
    decreases v, t, 0, |v.items| - i
  {
    if i < |v.items| {
      ModesAgreeWithoutInstances(v.items[i], t.elems[i], reg);
      PositionsAgree(v, t, i + 1, reg);
    }
  }

  lemma {:induction false} EntriesAgree(v: Value, t: TypeDesc, i: nat, reg: Registry)
    requires WfRegistry(reg) && RefsBelow(t, |reg|) && t.DictOf? && v.VDict? && i <= |v.entries| && NoInstances(v)
    ensures CheckEntries(AsWritten, v, t, i, reg) == CheckEntries(Intended, v, t, i, reg)
    decreases v, t, 0, |v.entries| - i
  {
    if i < |v.entries| {
      ModesAgreeWithoutInstances(v.entries[i].key, t.key, reg);
      ModesAgreeWithoutInstances(v.entries[i].val, t.val, reg);
      EntriesAgree(v, t, i + 1, reg);
    }
  }
}
