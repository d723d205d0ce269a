/**
  The game's record classes, declared as the engine sees them: `Ability`,
  `Piece`, `Mob` and `Profile`, with what the engine guarantees about each,
  including the two places where the repaired engine and the engine as
  written part ways.
*/
module Schemas {
  import opened Wrappers
  import opened Values
  import opened TypeCheck
  import opened Init
  import opened LoadValue
  import opened DumpValue
  import opened RoundTrip

  const AbilityClass: nat := 0
  const PieceClass: nat := 1
  const MobClass: nat := 2
  const ProfileClass: nat := 3

  const Str := Prim(StrKind)

  /** `Profile()` with only the required name: every other field at its class default. */
  const NewProfileDefaults: seq<Value> := [VDict([]), VDict([]), VList([]), VInt(0)]

  /** The four classes, in an order where a class only names classes before it. */
  function Game(): (reg: Registry)
    ensures |reg| == 4 && WfRegistry(reg)
  {
    [ ClassDef("Ability", [Field("name", Str, None), Field("effects", ListOf(Str), None)]),
      ClassDef("Piece", [Field("kind", Str, None), Field("abilities", ListOf(Record(AbilityClass)), None)]),
      ClassDef("Mob", [Field("name", Str, None), Field("pieces", ListOf(Record(PieceClass)), None),
                       Field("abilities", ListOf(Str), None), Field("drops", ListOf(Str), None)]),
      ClassDef("Profile", [Field("player_name", Str, None),
                           Field("achievements", DictOf(Str, Prim(BoolKind)), Some(VDict([]))),
                           Field("skills", DictOf(Str, Prim(NumberKind)), Some(VDict([]))),
                           Field("items", Prim(ListKind), Some(VList([]))),
                           Field("last_update", Prim(IntKind), Some(VInt(0)))]) ]
  }

  /** No game annotation is a union, and every dict is keyed by strings. */
  lemma GamePlain()
    ensures PlainRegistry(Game())
  {
  }

  /** Fields whose first `n` are required and the rest optional count `n` required fields. */
  lemma {:induction false} RequiredCountLeading(fields: seq<Field>, n: nat)
    requires n <= |fields|
    requires forall i :: 0 <= i < n ==> !IsOptional(fields[i])
    requires forall i :: n <= i < |fields| ==> IsOptional(fields[i])
    ensures RequiredCount(fields) == n
    decreases |fields|
  {
    if |fields| > 0 {
      var init := fields[..|fields| - 1];
      if n == |fields| {
        RequiredCountLeading(init, n - 1);
      } else {
        RequiredCountLeading(init, n);
      }
    }
  }

  /** How many arguments each class takes positionally: every field of the three game pieces, only the name of a profile. */
  lemma RequiredCounts()
    ensures RequiredCount(Game()[AbilityClass].fields) == 2
    ensures RequiredCount(Game()[PieceClass].fields) == 2
    ensures RequiredCount(Game()[MobClass].fields) == 4
    ensures RequiredCount(Game()[ProfileClass].fields) == 1
  {
    var reg := Game();
    RequiredCountLeading(reg[AbilityClass].fields, 2);
    RequiredCountLeading(reg[PieceClass].fields, 2);
    RequiredCountLeading(reg[MobClass].fields, 4);
    RequiredCountLeading(reg[ProfileClass].fields, 1);
  }

  // ---------------------------------------------------------------------------
  // Construction.

  /** `Profile.new(name)`: a profile with that name and every other field at its default. */
  lemma ProfileNew(mode: Mode, name: string)
    ensures Construct(mode, Game(), ProfileClass, [], [("player_name", VStr(name))]) ==
      Ok(VObj(ProfileClass, [VStr(name)] + NewProfileDefaults))
  {
    var reg := Game();
    var kw: Kwargs := [("player_name", VStr(name))];
    ProfileNewSucceeds(mode, name);
    var vals := Construct(mode, reg, ProfileClass, [], kw).value.vals;
    assert FieldIndex(reg[ProfileClass].fields, "player_name") == Some(0);
    assert vals[0] == VStr(name);
    ProfileOtherFields(name);
    assert vals == [VStr(name)] + NewProfileDefaults;
  }

  /** The fields after the name are not named by `Profile.new`, and their class defaults are the new-profile defaults. */
  lemma ProfileOtherFields(name: string)
    ensures |Game()[ProfileClass].fields| == 5
    ensures forall k :: 1 <= k < 5 ==>
      KwLookup([("player_name", VStr(name))], Game()[ProfileClass].fields[k].name).None? &&
      Game()[ProfileClass].fields[k].attr == Some(NewProfileDefaults[k - 1])
  {
    var kw: Kwargs := [("player_name", VStr(name))];
    var fs := Game()[ProfileClass].fields;
    forall k | 1 <= k < 5 ensures KwLookup(kw, fs[k].name).None? {
      assert fs[k].name != "player_name";
    }
  }

  lemma ProfileNewSucceeds(mode: Mode, name: string)
    ensures Construct(mode, Game(), ProfileClass, [], [("player_name", VStr(name))]).Ok?
  {
    var reg := Game();
    var kw: Kwargs := [("player_name", VStr(name))];
    RequiredCounts();
    assert FieldIndex(reg[ProfileClass].fields, "player_name") == Some(0);
    assert KwargFits(mode, reg, ProfileClass, kw[0]);
    ConstructSucceeds(mode, reg, ProfileClass, [], kw);
  }

  /** `Profile.new(x)` with a name that is not a string raises. */
  lemma ProfileNewRejects(mode: Mode, x: Value)
    requires !x.VStr?
    ensures Construct(mode, Game(), ProfileClass, [], [("player_name", x)]) == Err(KeywordTypeError("player_name"))
  {
    var reg := Game();
    var fields := reg[ProfileClass].fields;
    var none: seq<Option<Value>> := seq(|fields|, _ => None);
    RequiredCounts();
    assert FieldIndex(fields, "player_name") == Some(0);
    assert Check(mode, x, fields[0].ty, reg) == Fail;
    assert BindPositional(mode, reg, ProfileClass, [], 0, none) == Ok(none);
    assert BindKeywords(mode, reg, ProfileClass, [("player_name", x)], 0, none) == Err(KeywordTypeError("player_name"));
  }

  /** A profile takes at most its name positionally, and at most five arguments in all. */
  lemma ProfileArity(mode: Mode, args: seq<Value>, kw: Kwargs)
    requires DistinctNames(kw)
    ensures Construct(mode, Game(), ProfileClass, args, kw) == Err(ArityError) <==> |args| > 1 || |args| + |kw| > 5
  {
    RequiredCounts();
  }

  /** `Ability(name, effects)`: both fields bind positionally, in declaration order. */
  lemma AbilityPositional(mode: Mode, name: string, effects: seq<Value>)
    requires forall i :: 0 <= i < |effects| ==> effects[i].VStr?
    ensures Construct(mode, Game(), AbilityClass, [VStr(name), VList(effects)], []) ==
      Ok(VObj(AbilityClass, [VStr(name), VList(effects)]))
  {
    var reg := Game();
    var args := [VStr(name), VList(effects)];
    RequiredCounts();
    ListRule(mode, VList(effects), Str, reg);
    ConstructSucceeds(mode, reg, AbilityClass, args, []);
    var r := Construct(mode, reg, AbilityClass, args, []);
    assert r.value.vals == args;
  }

  /** An ability is built from a name and a list exactly when every effect is a string. */
  lemma AbilityEffectsText(mode: Mode, name: string, effects: seq<Value>)
    ensures Construct(mode, Game(), AbilityClass, [VStr(name), VList(effects)], []).Ok? <==>
      forall i :: 0 <= i < |effects| ==> effects[i].VStr?
  {
    var reg := Game();
    var args := [VStr(name), VList(effects)];
    ListRule(mode, VList(effects), Str, reg);
    if Construct(mode, reg, AbilityClass, args, []).Ok? {
      ConstructChecks(mode, reg, AbilityClass, args, []);
      assert Check(mode, args[1], reg[AbilityClass].fields[1].ty, reg) == Pass;
    } else if forall i :: 0 <= i < |effects| ==> effects[i].VStr? {
      AbilityPositional(mode, name, effects);
    }
  }

  /** An ability takes no third argument. */
  lemma AbilityArity(mode: Mode, a: Value, b: Value, c: Value)
    ensures Construct(mode, Game(), AbilityClass, [a, b, c], []) == Err(ArityError)
  {
    var reg := Game();
    RequiredCounts();
  }

  // ---------------------------------------------------------------------------
  // Finding: an instance fails its own class's check as written.

  /**
    As written, a piece holding at least one ability cannot be constructed: the
    ability instance is checked against `Ability` by `is_valid`, whose
    `name in instance` raises TypeError.
  */
  lemma PieceWithAbilityRaises(kind: string, abilities: seq<Value>)
    requires |abilities| > 0 && abilities[0].VObj?
    ensures Construct(AsWritten, Game(), PieceClass, [VStr(kind), VList(abilities)], []) == Err(NotIterable)
  {
    var reg := Game();
    var args := [VStr(kind), VList(abilities)];
    RequiredCounts();
    InstanceRaisesAsWritten(abilities[0], AbilityClass, reg);
    assert CheckItems(AsWritten, VList(abilities), ListOf(Record(AbilityClass)), 0, reg) == Raise(NotIterable);
    assert Check(AsWritten, VList(abilities), ListOf(Record(AbilityClass)), reg) == Raise(NotIterable);
    var none: seq<Option<Value>> := seq(2, _ => None);
    assert BindPositional(AsWritten, reg, PieceClass, args, 1, none[0 := Some(VStr(kind))]) == Err(NotIterable);
    assert BindPositional(AsWritten, reg, PieceClass, args, 0, none) == Err(NotIterable);
    assert Bind(AsWritten, reg, PieceClass, args, []) == Err(NotIterable);
  }

  /** Repaired, a piece takes any list of ability instances. */
  lemma PieceWithAbilitiesIntended(kind: string, abilities: seq<Value>)
    requires forall i :: 0 <= i < |abilities| ==> abilities[i].VObj? && abilities[i].cls == AbilityClass
    ensures Construct(Intended, Game(), PieceClass, [VStr(kind), VList(abilities)], []) ==
      Ok(VObj(PieceClass, [VStr(kind), VList(abilities)]))
  {
    var reg := Game();
    var args := [VStr(kind), VList(abilities)];
    RequiredCounts();
    forall i | 0 <= i < |abilities| ensures Check(Intended, abilities[i], Record(AbilityClass), reg) == Pass {
      InstancePassesIntended(abilities[i], AbilityClass, reg);
    }
    ListRule(Intended, VList(abilities), Record(AbilityClass), reg);
    ConstructSucceeds(Intended, reg, PieceClass, args, []);
    var r := Construct(Intended, reg, PieceClass, args, []);
    assert r.value.vals == args;
  }

  /**
    As written, `loads` never returns an instance holding an instance: a field
    annotated `list[R]`, for a record class `R` with fields, comes back empty
    from every `loads` that does not raise, since each loaded `R` would fail
    the constructor's re-check.
  */
  lemma InstanceListsEmptyAsWritten(w: Value, c: nat, k: nat, d: nat, reg: Registry)
    requires WfRegistry(reg) && c < |reg| && k < |reg[c].fields| && reg[c].fields[k].ty == ListOf(Record(d))
    requires d < |reg| && |reg[d].fields| > 0
    requires Loads(AsWritten, w, c, reg).Ok?
    ensures Loads(AsWritten, w, c, reg).value.vals[k] == VList([])
  {
    var x := Loads(AsWritten, w, c, reg).value;
    LoadedInstanceList(AsWritten, w, c, k, d, reg);
    LoadsChecked(AsWritten, w, c, reg);
    var items := x.vals[k].items;
    forall i | 0 <= i < |items| ensures Check(AsWritten, items[i], Record(d), reg) == Raise(NotIterable) {
      InstanceRaisesAsWritten(items[i], d, reg);
    }
    ListRule(AsWritten, x.vals[k], Record(d), reg);
    HasHead(items);
  }

  /** A loaded `list[R]` field holds instances of `R`. */
  lemma LoadedInstanceList(mode: Mode, w: Value, c: nat, k: nat, d: nat, reg: Registry)
    requires WfRegistry(reg) && c < |reg| && k < |reg[c].fields| && reg[c].fields[k].ty == ListOf(Record(d))
    requires Loads(mode, w, c, reg).Ok?
    ensures Loads(mode, w, c, reg).value.vals[k].VList?
    ensures forall i :: 0 <= i < |Loads(mode, w, c, reg).value.vals[k].items| ==>
      Loads(mode, w, c, reg).value.vals[k].items[i].VObj?
  {
    var x := Loads(mode, w, c, reg).value;
    LoadsRule(mode, w, c, reg);
    var lw := Lookup(w, reg[c].fields[k].name);
    assert Load(mode, lw, ListOf(Record(d)), reg) == Ok(x.vals[k]);
    ListLoadRule(mode, lw, Record(d), reg);
  }

  /** Piece and mob instances of the finding: no piece loads with an ability, no mob with a piece. */
  lemma GameInstanceListsEmptyAsWritten(w: Value)
    ensures Loads(AsWritten, w, PieceClass, Game()).Ok? ==> Loads(AsWritten, w, PieceClass, Game()).value.vals[1] == VList([])
    ensures Loads(AsWritten, w, MobClass, Game()).Ok? ==> Loads(AsWritten, w, MobClass, Game()).value.vals[1] == VList([])
  {
    if Loads(AsWritten, w, PieceClass, Game()).Ok? {
      InstanceListsEmptyAsWritten(w, PieceClass, 1, AbilityClass, Game());
    }
    if Loads(AsWritten, w, MobClass, Game()).Ok? {
      InstanceListsEmptyAsWritten(w, MobClass, 1, PieceClass, Game());
    }
  }

  /** A piece with one ability: the repaired engine reloads its dump, the engine as written cannot. */
  lemma PieceWithAbilityReload()
    ensures var x := VObj(PieceClass, [VStr("rook"), VList([VObj(AbilityClass, [VStr("slide"), VList([])])])]);
      Dump(x, Game()).Ok? &&
      Loads(Intended, Dump(x, Game()).value, PieceClass, Game()) == Ok(x) &&
      Loads(AsWritten, Dump(x, Game()).value, PieceClass, Game()) != Ok(x)
  {
    var reg := Game();
    var x := VObj(PieceClass, [VStr("rook"), VList([VObj(AbilityClass, [VStr("slide"), VList([])])])]);
    PieceWithAbilityTyped();
    GameRoundTrip(x, PieceClass);
    GameInstanceListsEmptyAsWritten(Dump(x, reg).value);
  }

  /** The rook with its one ability is a loaded-shape piece. */
  lemma PieceWithAbilityTyped()
    ensures Typed(VObj(PieceClass, [VStr("rook"), VList([VObj(AbilityClass, [VStr("slide"), VList([])])])]), Record(PieceClass), Game())
  {
    var reg := Game();
    var a := VObj(AbilityClass, [VStr("slide"), VList([])]);
    var x := VObj(PieceClass, [VStr("rook"), VList([a])]);
    assert Typed(a, Record(AbilityClass), reg);
    assert Typed(x.vals[1], ListOf(Record(AbilityClass)), reg);
  }

  // ---------------------------------------------------------------------------
  // Finding: `Number(x)` raises.

  /**
    As written, a field annotated `dict[K, Number]` comes back empty from every
    `loads` that does not raise: loading any of its values calls `Number(x)`.
  */
  lemma NumberDictsEmptyAsWritten(w: Value, c: nat, k: nat, kt: TypeDesc, reg: Registry)
    requires WfRegistry(reg) && c < |reg| && k < |reg[c].fields| && reg[c].fields[k].ty == DictOf(kt, Prim(NumberKind))
    requires Loads(AsWritten, w, c, reg).Ok?
    ensures Loads(AsWritten, w, c, reg).value.vals[k] == VDict([])
  {
    var x := Loads(AsWritten, w, c, reg).value;
    LoadsRule(AsWritten, w, c, reg);
    var lw := Lookup(w, reg[c].fields[k].name);
    assert Load(AsWritten, lw, DictOf(kt, Prim(NumberKind)), reg) == Ok(x.vals[k]);
    DictLoadRule(AsWritten, lw, kt, Prim(NumberKind), reg);
    assert forall m :: 0 <= m < |lw.entries| ==>
      Load(AsWritten, lw.entries[m].val, Prim(NumberKind), reg) == Err(NumberNotCallable);
    HasHead(x.vals[k].entries);
  }

  /** A sequence with an element holds its first element. */
  lemma HasHead<T>(s: seq<T>)
    ensures |s| > 0 ==> s[0] in s
  {
  }

  /** As written, every profile that loads has no skills. */
  lemma ProfileSkillsEmptyAsWritten(w: Value)
    ensures Loads(AsWritten, w, ProfileClass, Game()).Ok? ==> Loads(AsWritten, w, ProfileClass, Game()).value.vals[2] == VDict([])
  {
    if Loads(AsWritten, w, ProfileClass, Game()).Ok? {
      NumberDictsEmptyAsWritten(w, ProfileClass, 2, Str, Game());
    }
  }

  /**
    A string-to-number dict with at least one entry: the repaired engine loads
    it unchanged, the engine as written raises on its first value.
  */
  lemma NumberDictLoad(w: Value, reg: Registry)
    requires WfRegistry(reg) && RefsBelow(DictOf(Prim(StrKind), Prim(NumberKind)), |reg|)
    requires w.VDict? && DistinctKeys(w.entries) && |w.entries| > 0
    requires forall i :: 0 <= i < |w.entries| ==> w.entries[i].key.VStr? && InstanceOf(w.entries[i].val, NumberKind)
    ensures Load(Intended, w, DictOf(Prim(StrKind), Prim(NumberKind)), reg) == Ok(w)
    ensures Load(AsWritten, w, DictOf(Prim(StrKind), Prim(NumberKind)), reg) == Err(NumberNotCallable)
  {
    NumberDictLoadsIntended(w, reg);
    NumberDictRaisesAsWritten(w, reg);
  }

  lemma NumberDictLoadsIntended(w: Value, reg: Registry)
    requires WfRegistry(reg) && RefsBelow(DictOf(Prim(StrKind), Prim(NumberKind)), |reg|)
    requires w.VDict? && DistinctKeys(w.entries)
    requires forall i :: 0 <= i < |w.entries| ==> w.entries[i].key.VStr? && InstanceOf(w.entries[i].val, NumberKind)
    ensures Load(Intended, w, DictOf(Prim(StrKind), Prim(NumberKind)), reg) == Ok(w)
  {
    var t := DictOf(Prim(StrKind), Prim(NumberKind));
    LoadEntriesExact(w, t, 0, w.entries, reg);
    assert w.entries[..0] == [];
  }

  lemma NumberDictRaisesAsWritten(w: Value, reg: Registry)
    requires WfRegistry(reg) && RefsBelow(DictOf(Prim(StrKind), Prim(NumberKind)), |reg|)
    requires w.VDict? && |w.entries| > 0 && w.entries[0].key.VStr?
    ensures Load(AsWritten, w, DictOf(Prim(StrKind), Prim(NumberKind)), reg) == Err(NumberNotCallable)
  {
    var t := DictOf(Prim(StrKind), Prim(NumberKind));
    StrLoads(w.entries[0].key, reg);
    assert LoadEntries(AsWritten, w, t, 0, [], reg) == Err(NumberNotCallable);
  }

  // ---------------------------------------------------------------------------
  // Validation, dumping and reloading.

  /** A dict that lacks any of the five profile keys, defaulted or not, is no valid profile. */
  lemma ProfileNeedsEveryKey(mode: Mode, w: Value, k: nat)
    requires w.VDict? && k < 5
    requires FindKey(w.entries, VStr(["player_name", "achievements", "skills", "items", "last_update"][k])).None?
    ensures !IsValid(mode, w, ProfileClass, Game())
  {
    RecordRule(mode, w, ProfileClass, Game());
    assert Game()[ProfileClass].fields[k].name == ["player_name", "achievements", "skills", "items", "last_update"][k];
  }

  /** A dict without a player name is no valid profile, and loading it raises for that key. */
  lemma ProfileMissingName(mode: Mode, w: Value)
    requires w.VDict? && FindKey(w.entries, VStr("player_name")).None?
    ensures !IsValid(mode, w, ProfileClass, Game())
    ensures Loads(mode, w, ProfileClass, Game()) == Err(MissingKey("player_name"))
  {
    var reg := Game();
    assert Contains(w, "player_name") == Ok(false);
    assert CheckFields(mode, w, ProfileClass, 0, reg) == Fail;
  }

  /**
    Source behaviour: a saved profile that lacks a key with a default does not
    fall back to it; `obj[key]` raises KeyError.
  */
  lemma ProfileMissingDefaultedKey(mode: Mode, name: string)
    ensures Loads(mode, VDict([Entry(VStr("player_name"), VStr(name))]), ProfileClass, Game()) ==
      Err(KeyNotFound("achievements"))
  {
    var reg := Game();
    var w := VDict([Entry(VStr("player_name"), VStr(name))]);
    assert Load(mode, VStr(name), Str, reg) == Ok(VStr(name));
    assert Contains(w, "achievements") == Ok(false);
    assert LoadFields(mode, w, ProfileClass, 1, reg) == Err(KeyNotFound("achievements"));
  }

  /** `obj.dumps()` of a profile: its five fields, keyed by name, in declaration order. */
  lemma ProfileDumpKeys(x: Value)
    requires x.VObj? && x.cls == ProfileClass && Dump(x, Game()).Ok?
    ensures |Dump(x, Game()).value.entries| == 5
    ensures forall k :: 0 <= k < 5 ==>
      Dump(x, Game()).value.entries[k].key ==
      VStr(["player_name", "achievements", "skills", "items", "last_update"][k])
  {
    assert Dump(x, Game()) == Dumps(x, Game());
  }

  /** Every instance of a game class dumps to a wire value that reloads to it, with the repaired engine. */
  lemma GameRoundTrip(x: Value, c: nat)
    requires c < 4 && Typed(x, Record(c), Game())
    ensures Reloads(x, Record(c), Game())
  {
    GamePlain();
    DumpThenLoad(x, Record(c), Game());
  }
}
