/**
  `SmartData.__init__`: reconciles positional and keyword arguments with the
  declared fields, in the source's order of phases: the arity check, the
  positional bindings, the keyword bindings, then the defaults. Each phase
  assigns attributes (`slots`) one at a time, as `setattr` does.
*/
module Init {
  import opened Wrappers
  import opened Values
  import opened TypeCheck

  /** Keyword arguments in call order; a Python call cannot repeat a keyword. */
  type Kwargs = seq<(string, Value)>

  predicate DistinctNames(kw: Kwargs) {
    forall i, j :: 0 <= i < j < |kw| ==> kw[i].0 != kw[j].0
  }

  /** The value passed by keyword for `name`, if any. */
  function KwLookup(kw: Kwargs, name: string): (r: Option<Value>)
    ensures r.None? <==> forall j :: 0 <= j < |kw| ==> kw[j].0 != name
    ensures r.Some? ==> exists j :: 0 <= j < |kw| && kw[j] == (name, r.value)
  {
    if |kw| == 0 then None
    else if kw[0].0 == name then Some(kw[0].1)
    else KwLookup(kw[1..], name)
  }

  /** Some keyword argument from position `j` on is called `name`. */
  predicate NamedFrom(kw: Kwargs, j: nat, name: string)
    decreases |kw| - j
  {
    j < |kw| && (kw[j].0 == name || NamedFrom(kw, j + 1, name))
  }

  /** A name no keyword from `j` on carries is not named from `j` on. */
  lemma {:induction false} NotNamedFrom(kw: Kwargs, j: nat, name: string)
    requires forall m :: j <= m < |kw| ==> kw[m].0 != name
    ensures !NamedFrom(kw, j, name)
    decreases |kw| - j
  {
    if j < |kw| {
      NotNamedFrom(kw, j + 1, name);
    }
  }

  /** The arity rule: at most one positional argument per required field, at most one argument per field. */
  predicate ArityOk(fields: seq<Field>, nargs: nat, nkw: nat) {
    nargs <= RequiredCount(fields) && nargs + nkw <= |fields|
  }

  /**
    Reference definition of the value field `k` ends up with: the keyword
    argument naming it, else the positional argument at its position, else its
    default; `None` when it has none of the three.
  */
  function Bound(fields: seq<Field>, args: seq<Value>, kwargs: Kwargs, k: nat): Option<Value>
    requires k < |fields|
  {
    match KwLookup(kwargs, fields[k].name)
    case Some(a) => Some(a)
    case None =>
      if k < |args| then Some(args[k])
      else if HasDefault(fields[k]) then Some(fields[k].attr.value)
      else None
  }

  /** `cls(*args, **kwargs)`: the instance, or the error the first failing phase raises. */
  function Construct(mode: Mode, reg: Registry, c: nat, args: seq<Value>, kwargs: Kwargs): (r: Result<Value, Error>)
    requires WfRegistry(reg) && c < |reg| && DistinctNames(kwargs)
    ensures r.Ok? ==> r.value.VObj? && r.value.cls == c && |r.value.vals| == |reg[c].fields|
    ensures r == Err(ArityError) <==> !ArityOk(reg[c].fields, |args|, |kwargs|)
    // positional argument k binds the k-th declared field, unless a keyword re-binds it
    ensures r.Ok? ==> forall k :: 0 <= k < |args| && KwLookup(kwargs, reg[c].fields[k].name).None? ==>
      r.value.vals[k] == args[k]
    // every keyword argument binds the field of that name
    ensures r.Ok? ==> forall j :: 0 <= j < |kwargs| ==>
      FieldIndex(reg[c].fields, kwargs[j].0).Some? &&
      r.value.vals[FieldIndex(reg[c].fields, kwargs[j].0).value] == kwargs[j].1
    // every other field takes its default, which must exist
    ensures r.Ok? ==> forall k :: |args| <= k < |reg[c].fields| && KwLookup(kwargs, reg[c].fields[k].name).None? ==>
      HasDefault(reg[c].fields[k]) && r.value.vals[k] == reg[c].fields[k].attr.value
  {
    var fields := reg[c].fields;
    if !ArityOk(fields, |args|, |kwargs|) then Err(ArityError)
    else
      var slots :- Bind(mode, reg, c, args, kwargs);
      var vals := Unwrap(slots);
      KeywordsBind(fields, args, kwargs, vals);
      Ok(VObj(c, vals))
  }

  /** A keyword argument is the value its field is bound to. */
  lemma KeywordsBind(fields: seq<Field>, args: seq<Value>, kwargs: Kwargs, vals: seq<Value>)
    requires DistinctNames(kwargs) && |vals| == |fields|
    requires forall k :: 0 <= k < |fields| ==> Bound(fields, args, kwargs, k) == Some(vals[k])
    requires forall j :: 0 <= j < |kwargs| ==> FieldIndex(fields, kwargs[j].0).Some?
    ensures forall j :: 0 <= j < |kwargs| ==> vals[FieldIndex(fields, kwargs[j].0).value] == kwargs[j].1
  {
    forall j | 0 <= j < |kwargs|
      ensures vals[FieldIndex(fields, kwargs[j].0).value] == kwargs[j].1
    {
      var k := FieldIndex(fields, kwargs[j].0).value;
      KwLookupAt(kwargs, j);
      assert Bound(fields, args, kwargs, k) == Some(kwargs[j].1);
    }
  }

  /** With distinct keywords, looking a keyword up finds its own argument. */
  lemma KwLookupAt(kw: Kwargs, j: nat)
    requires DistinctNames(kw) && j < |kw|
    ensures KwLookup(kw, kw[j].0) == Some(kw[j].1)
  {
    if j > 0 {
      assert kw[1..][j - 1] == kw[j];
      KwLookupAt(kw[1..], j - 1);
    }
  }

  /** The three binding phases; on success every field is bound to its reference value. */
  function Bind(mode: Mode, reg: Registry, c: nat, args: seq<Value>, kwargs: Kwargs): (r: Result<seq<Option<Value>>, Error>)
    requires WfRegistry(reg) && c < |reg| && DistinctNames(kwargs) && ArityOk(reg[c].fields, |args|, |kwargs|)
    ensures r.Ok? ==> |r.value| == |reg[c].fields|
    ensures r.Ok? ==> forall k :: 0 <= k < |reg[c].fields| ==>
      r.value[k].Some? && r.value[k] == Bound(reg[c].fields, args, kwargs, k)
    ensures r.Ok? ==> forall j :: 0 <= j < |kwargs| ==> FieldIndex(reg[c].fields, kwargs[j].0).Some?
    ensures r.Err? ==> r.error != ArityError
  {
    var fields := reg[c].fields;
    var none: seq<Option<Value>> := seq(|fields|, _ => None);
    var afterArgs :- BindPositional(mode, reg, c, args, 0, none);
    var afterKw :- BindKeywords(mode, reg, c, kwargs, 0, afterArgs);
    var full :- FillDefaults(fields, |args|, kwargs, |args|, afterKw);
    BoundAfterPhases(fields, args, kwargs, afterArgs, afterKw, full);
    Ok(full)
  }

  lemma {:induction false} BoundAfterPhases(fields: seq<Field>, args: seq<Value>, kwargs: Kwargs,
                         afterArgs: seq<Option<Value>>, afterKw: seq<Option<Value>>, full: seq<Option<Value>>)
    requires DistinctFieldNames(fields) && DistinctNames(kwargs) && |args| <= |fields|
    requires |afterArgs| == |afterKw| == |full| == |fields|
    requires forall k :: 0 <= k < |fields| ==> afterArgs[k] == if k < |args| then Some(args[k]) else None
    requires forall m :: 0 <= m < |kwargs| ==>
      FieldIndex(fields, kwargs[m].0).Some? && afterKw[FieldIndex(fields, kwargs[m].0).value] == Some(kwargs[m].1)
    requires forall k :: 0 <= k < |fields| && !NamedFrom(kwargs, 0, fields[k].name) ==> afterKw[k] == afterArgs[k]
    requires forall k :: 0 <= k < |fields| ==>
      if |args| <= k && KwLookup(kwargs, fields[k].name).None?
      then HasDefault(fields[k]) && full[k] == Some(fields[k].attr.value)
      else full[k] == afterKw[k]
    ensures forall k :: 0 <= k < |fields| ==> full[k].Some? && full[k] == Bound(fields, args, kwargs, k)
  {
    forall k | 0 <= k < |fields|
      ensures full[k].Some? && full[k] == Bound(fields, args, kwargs, k)
    {
      if KwLookup(kwargs, fields[k].name).Some? {
        var m :| 0 <= m < |kwargs| && kwargs[m] == (fields[k].name, KwLookup(kwargs, fields[k].name).value);
        assert FieldIndex(fields, fields[k].name) == Some(k);
        assert full[k] == afterKw[k] == Some(kwargs[m].1);
      } else {
        NotNamedFrom(kwargs, 0, fields[k].name);
      }
    }
  }

  /** The positional loop from argument `i` on: each must pass its field's annotation. */
  function BindPositional(mode: Mode, reg: Registry, c: nat, args: seq<Value>, i: nat, slots: seq<Option<Value>>)
    : (r: Result<seq<Option<Value>>, Error>)
    requires WfRegistry(reg) && c < |reg| && |args| <= |reg[c].fields| && i <= |args|
    requires |slots| == |reg[c].fields|
    ensures r.Ok? ==> |r.value| == |slots|
    ensures r.Ok? ==> forall k :: 0 <= k < |slots| ==> r.value[k] == if i <= k < |args| then Some(args[k]) else slots[k]
    // every positional argument passes its field's annotation
    ensures r.Ok? ==> forall k :: i <= k < |args| ==> Check(mode, args[k], reg[c].fields[k].ty, reg) == Pass
    ensures r.Err? ==> r.error != ArityError
    decreases |args| - i
  {
    if i == |args| then Ok(slots)
    else match Check(mode, args[i], reg[c].fields[i].ty, reg)
      case Pass => BindPositional(mode, reg, c, args, i + 1, slots[i := Some(args[i])])
      case Fail => Err(ArgumentTypeError(i))
      case Raise(e) => Err(e)
  }

  /** The keyword loop from argument `j` on: each must name a field and pass its annotation. */
  function BindKeywords(mode: Mode, reg: Registry, c: nat, kw: Kwargs, j: nat, slots: seq<Option<Value>>)
    : (r: Result<seq<Option<Value>>, Error>)
    requires WfRegistry(reg) && c < |reg| && DistinctNames(kw) && j <= |kw|
    requires |slots| == |reg[c].fields|
    ensures r.Ok? ==> |r.value| == |slots|
    ensures r.Ok? ==> forall m :: j <= m < |kw| ==>
      KwargFits(mode, reg, c, kw[m]) && r.value[FieldIndex(reg[c].fields, kw[m].0).value] == Some(kw[m].1)
    ensures r.Ok? ==> forall k :: 0 <= k < |slots| && !NamedFrom(kw, j, reg[c].fields[k].name) ==> r.value[k] == slots[k]
    ensures r.Err? ==> r.error != ArityError
    decreases |kw| - j
  {
    if j == |kw| then Ok(slots)
    else
      var (name, a) := kw[j];
      match FieldIndex(reg[c].fields, name)
      case None => Err(UnknownKeyword(name))
      case Some(idx) =>
        match Check(mode, a, reg[c].fields[idx].ty, reg)
        case Pass =>
          // keyword names are distinct, so no later keyword re-binds this field
          NotNamedFrom(kw, j + 1, name);
          BindKeywords(mode, reg, c, kw, j + 1, slots[idx := Some(a)])
        case Fail => Err(KeywordTypeError(name))
        case Raise(e) => Err(e)
  }

  /** The default loop over the fields after the positional prefix that no keyword named. */
  function FillDefaults(fields: seq<Field>, start: nat, kw: Kwargs, i: nat, slots: seq<Option<Value>>)
    : (r: Result<seq<Option<Value>>, Error>)
    requires start <= i <= |fields| && |slots| == |fields|
    ensures r.Ok? ==> |r.value| == |slots|
    ensures r.Ok? ==> forall k :: 0 <= k < |slots| ==>
      if i <= k && KwLookup(kw, fields[k].name).None?
      then HasDefault(fields[k]) && r.value[k] == Some(fields[k].attr.value)
      else r.value[k] == slots[k]
    ensures r.Err? ==> r.error != ArityError
    ensures r.Err? <==> exists k :: i <= k < |fields| && KwLookup(kw, fields[k].name).None? && !HasDefault(fields[k])
    decreases |fields| - i
  {
    if i == |fields| then Ok(slots)
    else if KwLookup(kw, fields[i].name).Some? then FillDefaults(fields, start, kw, i + 1, slots)
    else if !HasDefault(fields[i]) then Err(MissingArgument(fields[i].name))
    else FillDefaults(fields, start, kw, i + 1, slots[i := Some(fields[i].attr.value)])
  }

  /** The attribute values, once every field has been assigned. */
  function Unwrap(slots: seq<Option<Value>>): (vals: seq<Value>)
    requires forall k :: 0 <= k < |slots| ==> slots[k].Some?
    ensures |vals| == |slots| && forall k :: 0 <= k < |slots| ==> slots[k] == Some(vals[k])
  {
    seq(|slots|, k requires 0 <= k < |slots| => slots[k].value)
  }

  /** The values of keyword arguments, in call order. */
  function KwValues(kw: Kwargs): (vals: seq<Value>)
    ensures |vals| == |kw| && forall m :: 0 <= m < |kw| ==> vals[m] == kw[m].1
  {
    seq(|kw|, m requires 0 <= m < |kw| => kw[m].1)
  }

  /**
    `cls(**values)` with one keyword per declared field, in declaration order,
    each passing its annotation: the instance holds exactly those values.
  */
  lemma {:induction false} AllKeywordsConstruct(mode: Mode, reg: Registry, c: nat, kw: Kwargs)
    requires WfRegistry(reg) && c < |reg| && |kw| == |reg[c].fields|
    requires forall m :: 0 <= m < |kw| ==> kw[m].0 == reg[c].fields[m].name
    requires forall m :: 0 <= m < |kw| ==> Check(mode, kw[m].1, reg[c].fields[m].ty, reg) == Pass
    ensures DistinctNames(kw)
    ensures Construct(mode, reg, c, [], kw) == Ok(VObj(c, KwValues(kw)))
  {
    var fields := reg[c].fields;
    assert DistinctNames(kw) by {
      assert DistinctFieldNames(fields);
    }
    BindAllKeywords(mode, reg, c, kw);
    var r := Construct(mode, reg, c, [], kw);
    assert r.Ok?;
    forall m | 0 <= m < |kw|
      ensures r.value.vals[m] == kw[m].1
    {
      assert FieldIndex(fields, kw[m].0) == Some(m);
    }
    assert r.value.vals == KwValues(kw);
  }

  lemma {:induction false} BindAllKeywords(mode: Mode, reg: Registry, c: nat, kw: Kwargs)
    requires WfRegistry(reg) && c < |reg| && |kw| == |reg[c].fields| && DistinctNames(kw)
    requires forall m :: 0 <= m < |kw| ==> kw[m].0 == reg[c].fields[m].name
    requires forall m :: 0 <= m < |kw| ==> Check(mode, kw[m].1, reg[c].fields[m].ty, reg) == Pass
    ensures Bind(mode, reg, c, [], kw).Ok?
  {
    var fields := reg[c].fields;
    var none: seq<Option<Value>> := seq(|fields|, _ => None);
    assert BindPositional(mode, reg, c, [], 0, none) == Ok(none);
    BindKeywordsOk(mode, reg, c, kw, 0, none);
    var afterKw := BindKeywords(mode, reg, c, kw, 0, none).value;
    forall k | 0 <= k < |fields|
      ensures KwLookup(kw, fields[k].name).Some?
    {
      assert kw[k].0 == fields[k].name;
    }
    FillDefaultsFrom(fields, 0, kw, 0, afterKw);
  }

  lemma {:induction false} BindKeywordsOk(mode: Mode, reg: Registry, c: nat, kw: Kwargs, j: nat, slots: seq<Option<Value>>)
    requires WfRegistry(reg) && c < |reg| && |kw| == |reg[c].fields| && j <= |kw|
    requires forall m :: 0 <= m < |kw| ==> kw[m].0 == reg[c].fields[m].name
    requires forall m :: 0 <= m < |kw| ==> Check(mode, kw[m].1, reg[c].fields[m].ty, reg) == Pass
    requires DistinctNames(kw) && |slots| == |reg[c].fields|
    ensures BindKeywords(mode, reg, c, kw, j, slots).Ok?
    decreases |kw| - j
  {
    if j < |kw| {
      assert FieldIndex(reg[c].fields, kw[j].0) == Some(j);
      BindKeywordsOk(mode, reg, c, kw, j + 1, slots[j := Some(kw[j].1)]);
    }
  }

  lemma {:induction false} FillDefaultsFrom(fields: seq<Field>, start: nat, kw: Kwargs, i: nat, slots: seq<Option<Value>>)
    requires start <= i <= |fields| && |slots| == |fields|
    requires forall k :: i <= k < |fields| ==> KwLookup(kw, fields[k].name).Some?
    ensures FillDefaults(fields, start, kw, i, slots) == Ok(slots)
    decreases |fields| - i
  {
    if i < |fields| {
      FillDefaultsFrom(fields, start, kw, i + 1, slots);
    }
  }

  /** An instance built from one keyword per field, in declaration order, holds those values. */
  lemma {:induction false} KeywordOnlyValues(mode: Mode, reg: Registry, c: nat, kw: Kwargs)
    requires WfRegistry(reg) && c < |reg| && |kw| == |reg[c].fields| && DistinctNames(kw)
    requires forall m :: 0 <= m < |kw| ==> kw[m].0 == reg[c].fields[m].name
    requires Construct(mode, reg, c, [], kw).Ok?
    ensures Construct(mode, reg, c, [], kw).value.vals == KwValues(kw)
  {
    var x := Construct(mode, reg, c, [], kw).value;
    forall m | 0 <= m < |kw|
      ensures x.vals[m] == kw[m].1
    {
      assert FieldIndex(reg[c].fields, kw[m].0) == Some(m);
    }
  }

  /**
    `cls(*args, **kwargs)` returns an instance whenever no guard of `__init__`
    fires: the arity is right, every positional argument passes its field's
    annotation, every keyword names a field and passes its annotation, and
    every field left unbound has a default.
  */
  lemma ConstructSucceeds(mode: Mode, reg: Registry, c: nat, args: seq<Value>, kwargs: Kwargs)
    requires WfRegistry(reg) && c < |reg| && DistinctNames(kwargs) && ArityOk(reg[c].fields, |args|, |kwargs|)
    requires forall i :: 0 <= i < |args| ==> Check(mode, args[i], reg[c].fields[i].ty, reg) == Pass
    requires forall j :: 0 <= j < |kwargs| ==> KwargFits(mode, reg, c, kwargs[j])
    requires forall k :: |args| <= k < |reg[c].fields| && KwLookup(kwargs, reg[c].fields[k].name).None? ==>
      HasDefault(reg[c].fields[k])
    ensures Construct(mode, reg, c, args, kwargs).Ok?
  {
    var fields := reg[c].fields;
    var none: seq<Option<Value>> := seq(|fields|, _ => None);
    BindPositionalPasses(mode, reg, c, args, 0, none);
    var afterArgs := BindPositional(mode, reg, c, args, 0, none).value;
    BindKeywordsPass(mode, reg, c, kwargs, 0, afterArgs);
    var afterKw := BindKeywords(mode, reg, c, kwargs, 0, afterArgs).value;
    assert FillDefaults(fields, |args|, kwargs, |args|, afterKw).Ok?;
    assert Bind(mode, reg, c, args, kwargs).Ok?;
  }

  /** A keyword argument that names a field and passes that field's annotation. */
  predicate KwargFits(mode: Mode, reg: Registry, c: nat, kw: (string, Value))
    requires WfRegistry(reg) && c < |reg|
  {
    FieldIndex(reg[c].fields, kw.0).Some? && Check(mode, kw.1, reg[c].fields[FieldIndex(reg[c].fields, kw.0).value].ty, reg) == Pass
  }

  lemma {:induction false} BindPositionalPasses(mode: Mode, reg: Registry, c: nat, args: seq<Value>, i: nat, slots: seq<Option<Value>>)
    requires WfRegistry(reg) && c < |reg| && |args| <= |reg[c].fields| && i <= |args| && |slots| == |reg[c].fields|
    requires forall k :: i <= k < |args| ==> Check(mode, args[k], reg[c].fields[k].ty, reg) == Pass
    ensures BindPositional(mode, reg, c, args, i, slots).Ok?
    decreases |args| - i
  {
    if i < |args| {
      BindPositionalPasses(mode, reg, c, args, i + 1, slots[i := Some(args[i])]);
    }
  }

  lemma {:induction false} BindKeywordsPass(mode: Mode, reg: Registry, c: nat, kw: Kwargs, j: nat, slots: seq<Option<Value>>)
    requires WfRegistry(reg) && c < |reg| && DistinctNames(kw) && j <= |kw| && |slots| == |reg[c].fields|
    requires forall m :: j <= m < |kw| ==> KwargFits(mode, reg, c, kw[m])
    ensures BindKeywords(mode, reg, c, kw, j, slots).Ok?
    decreases |kw| - j
  {
    if j < |kw| {
      assert KwargFits(mode, reg, c, kw[j]);
      var idx := FieldIndex(reg[c].fields, kw[j].0).value;
      BindKeywordsPass(mode, reg, c, kw, j + 1, slots[idx := Some(kw[j].1)]);
    }
  }


  /** The converse of `ConstructSucceeds`: an instance was built only from arguments that passed their annotations. */
  lemma ConstructChecks(mode: Mode, reg: Registry, c: nat, args: seq<Value>, kwargs: Kwargs)
    requires WfRegistry(reg) && c < |reg| && DistinctNames(kwargs) && Construct(mode, reg, c, args, kwargs).Ok?
    ensures ArityOk(reg[c].fields, |args|, |kwargs|)
    ensures forall i :: 0 <= i < |args| ==> Check(mode, args[i], reg[c].fields[i].ty, reg) == Pass
    ensures forall j :: 0 <= j < |kwargs| ==> KwargFits(mode, reg, c, kwargs[j])
  {
    var fields := reg[c].fields;
    var none: seq<Option<Value>> := seq(|fields|, _ => None);
    assert Bind(mode, reg, c, args, kwargs).Ok?;
  }

}
