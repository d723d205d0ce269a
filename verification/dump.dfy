/**
  `dump_value` and `SmartData.dumps`: turning typed values back into a wire
  value. Instances become dicts keyed by their declared field names, lists,
  tuples and sets become lists, dicts are dumped key by key, and every other
  value passes through unchanged.
*/
module DumpValue {
  import opened Wrappers
  import opened Values

  /** `dump_value(obj)`. */
  function Dump(v: Value, reg: Registry): (r: Result<Value, Error>)
    requires WfRegistry(reg)
    ensures r.Ok? && (v.VList? || v.VTuple? || v.VSet?) ==> r.value.VList? && |r.value.items| == |v.items|
    ensures r.Ok? && v.VObj? ==> r.value.VDict? && v.cls < |reg| && |r.value.entries| == |reg[v.cls].fields|
    ensures r.Ok? && v.VDict? ==> r.value.VDict? && DistinctKeys(r.value.entries)
    ensures !(v.VObj? || v.VList? || v.VTuple? || v.VSet? || v.VDict?) ==> r == Ok(v)
    decreases v, 1
  {
    match v
    case VObj(c, vals) => Dumps(v, reg)
    case VList(_) =>
      var ws :- DumpItems(v, 0, reg);
      Ok(VList(ws))
    case VTuple(_) =>
      var ws :- DumpItems(v, 0, reg);
      Ok(VList(ws))
    case VSet(_) =>
      var ws :- DumpItems(v, 0, reg);
      Ok(VList(ws))
    case VDict(_) =>
      var es :- DumpEntries(v, 0, [], reg);
      Ok(VDict(es))
    case _ => Ok(v)
  }

  /**
    `obj.dumps()`: one entry per declared field, keyed by its name, in
    declaration order. An instance lacking a value for some field cannot come
    out of the constructor; dumping one raises.
  */
  function Dumps(v: Value, reg: Registry): (r: Result<Value, Error>)
    requires WfRegistry(reg) && v.VObj?
    ensures r.Ok? ==> r.value.VDict? && v.cls < |reg| && |r.value.entries| == |reg[v.cls].fields|
    ensures r.Ok? ==> forall k :: 0 <= k < |r.value.entries| ==> r.value.entries[k].key == VStr(reg[v.cls].fields[k].name)
    ensures !(v.cls < |reg| && |v.vals| == |reg[v.cls].fields|) ==> r == Err(BrokenInstance)
    decreases v, 0, |v.vals| + 1
  {
    if !(v.cls < |reg| && |v.vals| == |reg[v.cls].fields|) then Err(BrokenInstance)
    else DumpFields(v, 0, [], reg)
  }

  /** The loop of `dumps` from field `i` on; `acc` holds the entries of the fields before `i`. */
  function DumpFields(v: Value, i: nat, acc: seq<Entry>, reg: Registry): (r: Result<Value, Error>)
    requires v.VObj? && v.cls < |reg| && |v.vals| == |reg[v.cls].fields| && i <= |v.vals|
    requires WfRegistry(reg)
    requires |acc| == i && forall k :: 0 <= k < i ==> acc[k].key == VStr(reg[v.cls].fields[k].name)
    ensures r.Ok? ==> r.value.VDict? && |r.value.entries| == |v.vals| && forall k :: 0 <= k < i ==> r.value.entries[k] == acc[k]
    ensures r.Ok? ==> forall k :: 0 <= k < |r.value.entries| ==> r.value.entries[k].key == VStr(reg[v.cls].fields[k].name)
    decreases v, 0, |v.vals| - i
  {
    if i == |v.vals| then Ok(VDict(acc))
    else
      var w :- Dump(v.vals[i], reg);
      PutField(reg[v.cls].fields, i, acc, w);
      DumpFields(v, i + 1, Put(acc, VStr(reg[v.cls].fields[i].name), w), reg)
  }

  /** The list comprehension over a list, tuple or set, from element `i` on. */
  function DumpItems(v: Value, i: nat, reg: Registry): (r: Result<seq<Value>, Error>)
    requires WfRegistry(reg) && (v.VList? || v.VTuple? || v.VSet?) && i <= |v.items|
    ensures r.Ok? ==> |r.value| == |v.items| - i
    ensures r.Ok? ==> forall m :: 0 <= m < |r.value| ==> Dump(v.items[i + m], reg) == Ok(r.value[m])
    decreases v, 0, |v.items| - i
  {
    if i == |v.items| then Ok([])
    else
      var w :- Dump(v.items[i], reg);
      var rest :- DumpItems(v, i + 1, reg);
      Ok([w] + rest)
  }

  /** The dict comprehension from entry `i` on: key, then value, then insertion, which hashes the key. */
  function DumpEntries(v: Value, i: nat, acc: seq<Entry>, reg: Registry): (r: Result<seq<Entry>, Error>)
    requires WfRegistry(reg) && v.VDict? && i <= |v.entries| && DistinctKeys(acc)
    ensures r.Ok? ==> DistinctKeys(r.value)
    ensures r.Ok? ==> forall e :: e in r.value && e !in acc ==> Hashable(e.key)
    decreases v, 0, |v.entries| - i
  {
    if i == |v.entries| then Ok(acc)
    else
      var k :- Dump(v.entries[i].key, reg);
      var w :- Dump(v.entries[i].val, reg);
      if !Hashable(k) then Err(Unhashable)
      else DumpEntries(v, i + 1, Put(acc, k, w), reg)
  }

  /** A dict whose entries all dump becomes the dict of their dumps. */
  lemma DictDumpsEntries(v: Value, reg: Registry)
    requires WfRegistry(reg) && v.VDict? && DumpEntries(v, 0, [], reg).Ok?
    ensures Dump(v, reg) == Ok(VDict(DumpEntries(v, 0, [], reg).value))
  {
  }

  /** The entry of field `i` is new to the entries of the fields before it, so it is appended. */
  lemma PutField(fields: seq<Field>, i: nat, acc: seq<Entry>, w: Value)
    requires DistinctFieldNames(fields) && i < |fields|
    requires |acc| == i && forall j :: 0 <= j < i ==> acc[j].key == VStr(fields[j].name)
    ensures Put(acc, VStr(fields[i].name), w) == acc + [Entry(VStr(fields[i].name), w)]
  {
    assert forall j :: 0 <= j < |acc| ==> acc[j].key != VStr(fields[i].name);
  }

  /** One turn of the `dumps` loop that did not raise: the field's entry is appended. */
  lemma DumpFieldsStep(v: Value, i: nat, acc: seq<Entry>, reg: Registry)
    requires v.VObj? && v.cls < |reg| && |v.vals| == |reg[v.cls].fields| && i < |v.vals|
    requires WfRegistry(reg)
    requires |acc| == i && forall j :: 0 <= j < i ==> acc[j].key == VStr(reg[v.cls].fields[j].name)
    requires DumpFields(v, i, acc, reg).Ok?
    ensures Dump(v.vals[i], reg).Ok?
    ensures DumpFields(v, i, acc, reg) ==
      DumpFields(v, i + 1, acc + [Entry(VStr(reg[v.cls].fields[i].name), Dump(v.vals[i], reg).value)], reg)
  {
    PutField(reg[v.cls].fields, i, acc, Dump(v.vals[i], reg).value);
  }

  /** Entry `k` of a dumped instance holds the dumped value of field `k`. */
  lemma {:induction false} DumpFieldsAt(v: Value, i: nat, acc: seq<Entry>, k: nat, reg: Registry)
    requires v.VObj? && v.cls < |reg| && |v.vals| == |reg[v.cls].fields| && i <= k < |v.vals|
    requires WfRegistry(reg)
    requires |acc| == i && forall j :: 0 <= j < i ==> acc[j].key == VStr(reg[v.cls].fields[j].name)
    requires DumpFields(v, i, acc, reg).Ok?
    ensures Dump(v.vals[k], reg).Ok? && DumpFields(v, i, acc, reg).value.entries[k].val == Dump(v.vals[k], reg).value
    decreases k - i
  {
    DumpFieldsStep(v, i, acc, reg);
    var acc' := acc + [Entry(VStr(reg[v.cls].fields[i].name), Dump(v.vals[i], reg).value)];
    if k > i {
      DumpFieldsAt(v, i + 1, acc', k, reg);
    } else {
      assert DumpFields(v, i + 1, acc', reg).value.entries[i] == acc'[i];
    }
  }

  /** `obj.dumps()` holds, under the name of field `k`, the dumped value of field `k`. */
  lemma DumpsRule(v: Value, reg: Registry)
    requires WfRegistry(reg) && v.VObj? && Dumps(v, reg).Ok?
    ensures forall k :: 0 <= k < |v.vals| ==>
      Dump(v.vals[k], reg).Ok? && Dumps(v, reg).value.entries[k] == Entry(VStr(reg[v.cls].fields[k].name), Dump(v.vals[k], reg).value)
  {
    forall k | 0 <= k < |v.vals|
      ensures Dump(v.vals[k], reg).Ok? && Dumps(v, reg).value.entries[k].val == Dump(v.vals[k], reg).value
    {
      DumpFieldsAt(v, 0, [], k, reg);
    }
  }
}
