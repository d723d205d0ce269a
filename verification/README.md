# spiritual — a Dafny model of the schema engine, tilemaps and screens

spiritual is a small pygame game. Its saved data (profiles, abilities, pieces,
mobs, tilemaps) is declared as annotated classes on top of a home-made schema
engine, `SmartData`. The engine checks values against annotations (`is_type`),
builds instances with positional and keyword arguments and defaults
(`__init__`), loads JSON data into typed values (`loads`, `load_value`) and
dumps instances back to JSON data (`dumps`, `dump_value`). On top of it sit:

- the tilemap, built from per-tile boolean maps;
- the UI elements' event handlers;
- the window's priority-ordered drawing and its state switch;
- the profile list's paging;
- the game screen's direction keys and chunked tilemap rendering.

This project models those parts as pure Dafny functions over immutable
datatypes and proves what each operation promises.

Modules, one per concern:

- `Wrappers`: `Option` and `Result`.
- `Values`: Python values, the annotation language and record classes. Also
  the primitives the engine is built from: `in`, `obj[key]`, hashing, dict
  assignment and set insertion.
- `TypeCheck`: `is_type` and `is_valid`.
- `Init`: `SmartData.__init__`.
- `LoadValue`: `load_value` and `loads`.
- `DumpValue`: `dump_value` and `dumps`.
- `RoundTrip`: typing and the dump/load round trip.
- `LoadModes`: where the engine as written already round-trips.
- `Schemas`: the game's four record classes.
- `TileGrid`: `tilemap.py`.
- `Elements`: `element.py`.
- `States`: `state.py`.
- `Window`: `window.py`.

The engine comes in two modes. `AsWritten` keeps the two engine defects
listed under Findings, and `Intended` repairs them. Apart from those two
defects the modes agree, and both follow the source, with one exception:
union annotations. As written, `is_type` and `load_value` both begin with
`issubclass(type_, SmartData)`. On a `types.UnionType` annotation such as
`int | str`, that call raises TypeError (smartdata.py:10 and :59). Both modes
model union checking and union loading as evidently intended, by walking the
alternatives. Every
operation is total: each raise site of the source becomes an `Err` carrying
an `Error` constructor. `Values.ExceptionOf` maps each constructor to the
Python exception class that is raised.

Python dicts are entry sequences in insertion order. Sets are duplicate-free
sequences. Keeping them in insertion order is a modelling choice: Python
iterates a set in hash order. Instances hold one value per declared field,
in declaration order.

Decisions where the model departs from a plain reading:

- A loop that raises part-way leaves its partial effects behind in Python.
  The model returns only the error.
- Files, the JSON codec, pygame surfaces, the module-level `TILEMAPS` and
  `TILES` tables, and the profile list that `ProfilesState.__init__` scans
  from the profile directory become parameters.
- `load_value` coerces through the primitive class, e.g. `int(True)`. The
  model gives the results that JSON data can produce: `bool`, `int` from
  `bool`, and identity on a value that is already an instance of the class.
  Any other coercion is `Err(NotModelled)`, and so is a value of the wrong
  shape for a `list`, `set`, `tuple` or `dict` annotation, which Python
  would iterate, index or call `.items()` on. `is_type` never lets such a
  value reach `load_value`, because `loads` checks every field first.

## Model

| member | source | states |
|---|---|---|
| Values.FindKey | spiritual/smartdata/smartdata.py:141 | Finds a key in a dict. The result is the first entry with that key, and it is absent exactly when no entry has the key. |
| Values.Put | spiritual/smartdata/smartdata.py:168 | `obj[key] = x`: the entry is present afterwards. Entries under other keys survive, and nothing else enters. A new key is appended at the end. Distinct keys stay distinct. |
| Values.PutAllKeeps | spiritual/smartdata/smartdata.py:79-80 | An entry survives any run of `d[k] = x` whose keys all differ from its own. |
| Values.PutAllKeyKept | spiritual/smartdata/smartdata.py:79-80 | A key already present stays present through any run of `d[k] = x`. |
| Values.PutAllHasKey | spiritual/smartdata/smartdata.py:79-80 | After `d[k] = x` for each entry in turn, every assigned key is present. |
| Values.PutAllLast | spiritual/smartdata/smartdata.py:79-80 | After `d[k] = x` for each entry in turn, the last assignment to a key is the entry that stays. |
| Values.PutResults | spiritual/smartdata/smartdata.py:77-80 | The comprehension over entries already loaded. When it raises, the error is the error of one of the entries. |
| Values.PutResultsFold | spiritual/smartdata/smartdata.py:77-80 | When the comprehension over loaded entries succeeds, no entry raised, and the result is every entry assigned in order. |
| Values.AddUnique | spiritual/smartdata/smartdata.py:83 | `set.add`: afterwards the set's members are the old members plus x. Adding a member already present changes nothing, and no duplicate is ever created. |
| Values.Contains | spiritual/smartdata/smartdata.py:141 | `key in obj` raises exactly on values that have no membership test. On a dict it answers whether the key is present. |
| Values.Subscript | spiritual/smartdata/smartdata.py:143 | `obj[key]` succeeds only on a dict that holds the key, and then yields that entry. A dict without the key gives KeyError; any other value gives a not-subscriptable error. |
| Values.RequiredCount | spiritual/smartdata/smartdata.py:104-112 | The positional count of `__init__`: the number of fields without a class attribute, which is at most the number of fields. |
| Values.FieldIndex | spiritual/smartdata/smartdata.py:124-126 | Finds an annotated field by name. It returns the first field with that name, or nothing exactly when no field has it. |
| Values.InstanceOf | spiritual/smartdata/smartdata.py:12-13 | Definition of `isinstance` on a primitive class: `bool` is a subclass of `int`, and `int`, `bool` and `float` are `Number`s. It has no contract of its own; TypeCheck.Check states what it gives. |
| Values.Hashable | spiritual/smartdata/smartdata.py:79-83 | Definition of hashability: lists, dicts and sets are unhashable, a tuple is hashable when its items are. No contract of its own; Values.AddUnique and LoadValue.LoadEntries use it to raise where Python raises. |
| Values.ExceptionOf | spiritual/smartdata/smartdata.py:114-156 | Definition of which Python exception class each modelled error is. No contract of its own; the rows that name an exception rely on it. |
| TypeCheck.Check | spiritual/smartdata/smartdata.py:9-55 | A primitive annotation passes exactly the instances of its class and never raises. Every error `is_type` raises is one the source can raise there. |
| TypeCheck.UnionRule | spiritual/smartdata/smartdata.py:14-18 | `A \| B` passes exactly when some alternative passes before any alternative raises. |
| TypeCheck.UnionRuleNoRaise | spiritual/smartdata/smartdata.py:14-18 | When no alternative can raise, a union passes exactly when some alternative passes. |
| TypeCheck.FirstPassing | spiritual/smartdata/smartdata.py:15-17 | If some alternative passes, there is a first passing alternative, and every earlier one fails without raising. |
| TypeCheck.TupleRule | spiritual/smartdata/smartdata.py:21-33 | `tuple[...]` passes exactly a list or tuple with one item per position, each item passing its position's annotation. |
| TypeCheck.ListRule | spiritual/smartdata/smartdata.py:34-39 | `list[T]` passes exactly a list whose every item passes T. |
| TypeCheck.SetRule | spiritual/smartdata/smartdata.py:46-51 | `set[T]` passes exactly a list or set whose every item passes T. |
| TypeCheck.DictRule | spiritual/smartdata/smartdata.py:40-45 | `dict[K, V]` passes exactly a dict whose every key passes K and whose every value passes V. |
| TypeCheck.RecordRule | spiritual/smartdata/smartdata.py:139-145 | `is_valid` holds exactly for a dict that has every annotated key, each with a value of the annotated type. |
| TypeCheck.CheckItemsPass | spiritual/smartdata/smartdata.py:36-38 | The item loop passes exactly when every remaining item passes the element annotation. |
| TypeCheck.CheckPositionsPass | spiritual/smartdata/smartdata.py:30-32 | The tuple loop passes exactly when every remaining position's item passes its annotation. |
| TypeCheck.CheckEntriesPass | spiritual/smartdata/smartdata.py:42-44 | The dict loop passes exactly when every remaining key and value passes its annotation. |
| TypeCheck.CheckAltsPass | spiritual/smartdata/smartdata.py:15-18 | The union loop passes exactly when a remaining alternative passes and none before it raises. |
| TypeCheck.CheckFieldsPass | spiritual/smartdata/smartdata.py:140-145 | The `is_valid` loop passes exactly when every remaining field's key is present with a value of the field's type. |
| TypeCheck.CheckFields | spiritual/smartdata/smartdata.py:140-145 | The `is_valid` loop. Whatever it raises is an error `is_type` can raise. |
| TypeCheck.CheckAlts | spiritual/smartdata/smartdata.py:15-18 | The union loop. Whatever it raises is an error `is_type` can raise. |
| TypeCheck.CheckItems | spiritual/smartdata/smartdata.py:36-38 | The list and set loop. Whatever it raises is an error `is_type` can raise. |
| TypeCheck.CheckPositions | spiritual/smartdata/smartdata.py:30-32 | The tuple loop. Whatever it raises is an error `is_type` can raise. |
| TypeCheck.CheckEntries | spiritual/smartdata/smartdata.py:42-44 | The dict loop. Whatever it raises is an error `is_type` can raise. |
| TypeCheck.IsValid | spiritual/smartdata/smartdata.py:139-145 | Definition of `is_valid` as a verdict of the field loop. No contract of its own; TypeCheck.RecordRule states it. |
| TypeCheck.InstanceRaisesAsWritten | spiritual/smartdata/smartdata.py:139-141 | As written, checking an instance against its own record annotation raises TypeError from `key not in obj`. |
| TypeCheck.InstancePassesIntended | spiritual/smartdata/smartdata.py:10-11 | Repaired: an instance passes a record annotation exactly when it belongs to that class. |
| TypeCheck.ModesAgreeWithoutInstances | spiritual/smartdata/smartdata.py:9-55 | On values that contain no instance, the repaired `is_type` gives the same verdict as the original. |
| Init.Construct | spiritual/smartdata/smartdata.py:103-136 | Covers all of `__init__`. Arity fails exactly when the positional or total count is exceeded. Success yields an instance of the class with one value per field: positional arguments bind fields in order, each keyword binds its field, and the remaining fields take their defaults. |
| Init.Bind | spiritual/smartdata/smartdata.py:116-136 | After the three binding loops, every field is bound and every keyword names a field. Binding never raises the arity error. |
| Init.BindPositional | spiritual/smartdata/smartdata.py:116-120 | The positional loop binds each argument to the field at its index, and every argument passes that field's type. |
| Init.BindKeywords | spiritual/smartdata/smartdata.py:122-129 | The keyword loop binds each keyword's value to its field. Fields no remaining keyword names keep their slots. |
| Init.FillDefaults | spiritual/smartdata/smartdata.py:131-136 | The default loop fails exactly when some unbound field has no usable default. Otherwise it fills each unbound field with its default. |
| Init.KwLookup | spiritual/smartdata/smartdata.py:132 | `key in used_kwargs`: it finds a keyword by name, or nothing exactly when no keyword has that name. |
| Init.KeywordsBind | spiritual/smartdata/smartdata.py:123-129 | Every keyword argument's value ends up in the field of its name. |
| Init.ConstructSucceeds | spiritual/smartdata/smartdata.py:103-136 | The arity holds, every argument and keyword fits, and every unbound field has a default. Under those conditions construction succeeds. |
| Init.ConstructChecks | spiritual/smartdata/smartdata.py:113-129 | Conversely, a successful construction had a valid arity, well-typed positional arguments and known, well-typed keywords. |
| Init.AllKeywordsConstruct | spiritual/smartdata/smartdata.py:160 | `cls(**values)` with one well-typed keyword per field, in field order, builds the instance holding exactly those values. |
| LoadValue.TruncReal | spiritual/smartdata/smartdata.py:61-62 | `int(x)` on a float truncates toward zero. |
| LoadValue.LoadPrim | spiritual/smartdata/smartdata.py:61-62 | `type_(obj)` for a primitive. As written, `Number(obj)` always raises. Otherwise a value already of the class loads to itself. `int` of a bool is 0 or 1, and `bool` gives truthiness. |
| LoadValue.Load | spiritual/smartdata/smartdata.py:58-87 | The shapes of `load_value`. A record gives an instance of that class. A tuple whose length differs from its annotation raises. A tuple gives one item per position and a list one item per item. A set gives distinct items, no more than the input had. A dict gives distinct keys. |
| LoadValue.Loads | spiritual/smartdata/smartdata.py:152-160 | `loads` gives an instance of the class with one value per field. |
| LoadValue.LoadsRule | spiritual/smartdata/smartdata.py:153-160 | Each field of a loaded instance is the loaded value of its key, which is present in the data. A missing key never reaches a default: it raises ValueError without one and KeyError at `obj[key]` with one. |
| LoadValue.LoadsChecked | spiritual/smartdata/smartdata.py:157-160 | Every field of a successfully loaded instance passes its own annotation. |
| LoadValue.UnionLoadRule | spiritual/smartdata/smartdata.py:63-66 | A union loads as its first alternative that passes the check. |
| LoadValue.UnionLoadNone | spiritual/smartdata/smartdata.py:63-66 | A union none of whose alternatives pass falls off the loop and loads to `None`. |
| LoadValue.ListLoadRule | spiritual/smartdata/smartdata.py:74-76 | A list loads to a list of the same length, each item loaded with the element annotation. |
| LoadValue.TupleLoadRule | spiritual/smartdata/smartdata.py:69-73 | A tuple loads item by item against its position annotations. |
| LoadValue.SetLoadRule | spiritual/smartdata/smartdata.py:81-83 | A set loads to distinct items. Its members are exactly the loaded items. |
| LoadValue.DictLoadRule | spiritual/smartdata/smartdata.py:77-80 | Both directions of the dict comprehension. Every entry of a loaded dict is a loaded key paired with the loaded value of some input entry. Conversely, every input entry loads and its key is present, and the last input entry for each loaded key gives that key its value. |
| LoadValue.LoadItems | spiritual/smartdata/smartdata.py:74-76 | The list loop loads each item, in order. |
| LoadValue.LoadPositions | spiritual/smartdata/smartdata.py:69-73 | The tuple loop loads each position's item with that position's annotation, in order. |
| LoadValue.LoadEntries | spiritual/smartdata/smartdata.py:77-80 | The dict loop yields distinct keys, and each entry either was already assigned or comes from loading some input entry. The converse is stated by DictKeysPresent and DictLastWins. |
| LoadValue.LoadSetItems | spiritual/smartdata/smartdata.py:81-83 | The set loop keeps its items distinct and adds at most one per input item. |
| LoadValue.LoadFields | spiritual/smartdata/smartdata.py:154-159 | The `loads` loop yields one keyword per field, named after it, in field order. |
| LoadValue.SetItemsMembers | spiritual/smartdata/smartdata.py:81-83 | The set loop's members are exactly the members it started with plus every item loaded from the input. |
| LoadValue.LoadAlts | spiritual/smartdata/smartdata.py:63-66 | The union loop. When no remaining alternative passes it falls through to `None`. It raises only when some remaining alternative does not simply fail. |
| LoadValue.Truthy | spiritual/smartdata/smartdata.py:62 | Definition of Python truthiness, which `bool(obj)` returns. No contract of its own; LoadValue.LoadPrim uses it. |
| LoadValue.EntryResult | spiritual/smartdata/smartdata.py:79-80 | One turn of the dict comprehension succeeds exactly when the key and the value load and the loaded key hashes. It then yields the loaded entry; otherwise it yields the error that stops the comprehension. |
| LoadValue.LoadEntriesAsResults | spiritual/smartdata/smartdata.py:77-80 | The comprehension from entry i is the fold of the entries' own results: the first entry that raises stops it with that error, and otherwise each loaded entry is assigned in order. |
| LoadValue.DictLoadsAsFold | spiritual/smartdata/smartdata.py:77-80 | A dict that loads had every source entry load, and its value is the loaded entries assigned in order, starting from an empty dict. |
| LoadValue.DictLoadSound | spiritual/smartdata/smartdata.py:77-80 | Every entry of a loaded dict is a loaded key paired with the loaded value of some input entry. |
| LoadValue.DictKeysPresent | spiritual/smartdata/smartdata.py:77-80 | When a dict loads, every source entry loaded, and its loaded key is in the result. |
| LoadValue.DictLastWins | spiritual/smartdata/smartdata.py:79-80 | The last source entry that loads to a key gives that key its value in the result, as repeated `d[k] = x` does. |
| DumpValue.Dump | spiritual/smartdata/smartdata.py:90-99 | Covers all of `dump_value`. A list, tuple or set dumps to a list of the same length. An instance dumps to a dict with one entry per field. A dict keeps distinct keys. A primitive dumps to itself. |
| DumpValue.Dumps | spiritual/smartdata/smartdata.py:165-169 | `dumps` gives a dict whose keys are the field names, in field order. A broken instance raises. |
| DumpValue.DumpsRule | spiritual/smartdata/smartdata.py:165-169 | Each entry of `dumps` holds the dumped value of its field. |
| DumpValue.DumpItems | spiritual/smartdata/smartdata.py:94-95 | The list comprehension dumps each item, in order. |
| DumpValue.DumpEntries | spiritual/smartdata/smartdata.py:96-97 | The dict comprehension yields distinct keys, each hashable. |
| DumpValue.DumpFields | spiritual/smartdata/smartdata.py:166-169 | The `dumps` loop gives a dict with one entry per field, keyed by the field names in order, keeping the entries already made. |
| RoundTrip.TypedPasses | spiritual/smartdata/smartdata.py:9-55 | Every well-typed value passes the repaired `is_type` against its type. |
| RoundTrip.WireDumpsToItself | spiritual/smartdata/smartdata.py:90-99 | Plain JSON data dumps to itself. |
| RoundTrip.WireLoads | spiritual/smartdata/smartdata.py:58-87 | JSON data that passes the repaired `is_type` loads successfully to a well-typed value. |
| RoundTrip.DumpThenLoad | spiritual/smartdata/smartdata.py:58-99 | Repaired: every loaded-shape value (one `load_value` can produce) that is union-free and has string dict keys dumps to JSON data that passes the check and loads back to the same value. |
| RoundTrip.DumpThenLoadRecord | spiritual/smartdata/smartdata.py:152-169 | Repaired: a loaded-shape instance dumps to a dict that passes `is_valid` and loads back to the same instance. |
| RoundTrip.DumpThenLoadSet | spiritual/smartdata/smartdata.py:81-95 | Repaired: a loaded-shape set dumps to a list that loads back to the same members, in the model's order. |
| RoundTrip.DumpThenLoadDict | spiritual/smartdata/smartdata.py:77-97 | Repaired: a loaded-shape string-keyed dict dumps and loads back to the same dict. |
| RoundTrip.LoadDumpLoad | spiritual/smartdata/smartdata.py:58-99 | Repaired: well-typed JSON data loads, and what it loads to survives a dump and a second load unchanged. |
| RoundTrip.UnionRoundTripFails | spiritual/smartdata/smartdata.py:63-95 | The round trip fails for unions. A set under `tuple[int, int] \| set[int]` dumps to a list, which reloads as a tuple. |
| RoundTrip.ConstructedListReloadsAsTuple | spiritual/smartdata/smartdata.py:22-33 | In both modes, the constructor accepts a list for a `tuple[int, int]` field, because `is_type` lets a list pass a tuple annotation. That instance is not loaded-shape. It dumps to the same list, and reloading gives a tuple, so it does not come back as itself. |
| LoadModes.LoadModesAgree | spiritual/smartdata/smartdata.py:58-87 | `load_value` gives the same result or error in both modes under an annotation that names no record class, no union and no `Number`. |
| LoadModes.FieldsLoadAgree | spiritual/smartdata/smartdata.py:154-159 | On data without instances, the `loads` loop runs the same in both modes when each present field's value loads alike. |
| LoadModes.TypedPassesAsWritten | spiritual/smartdata/smartdata.py:9-55 | A loaded-shape value of an annotation that names no record class passes `is_type` as written. |
| LoadModes.RecordReloadsAsWritten | spiritual/smartdata/smartdata.py:152-169 | As written: a loaded-shape instance whose field annotations name no record class comes back from its own dump, when each field is free of unions and `Number` or reloads alike in both modes. |
| LoadModes.AbilityRoundTripAsWritten | spiritual/ability.py:7-8 | As written: every loaded-shape Ability dumps and loads back to itself. |
| LoadModes.ProfileRoundTripAsWritten | spiritual/profile.py:9-16 | As written: every loaded-shape Profile with an empty `skills` dict dumps and loads back to itself. |
| Schemas.Game | spiritual/profile.py:9-16 | The game's four record classes form a well-formed registry: every annotation refers to a declared class. |
| Schemas.RequiredCounts | spiritual/ability.py:7-8 | Ability and Piece need 2 positional arguments, Mob needs 4, and Profile needs 1. Profile's `player_name` is the only field without a class attribute. |
| Schemas.ProfileNew | spiritual/profile.py:18-20 | `Profile.new(name)` builds a profile with that name, no achievements, no skills, no items and no last update. |
| Schemas.ProfileNewRejects | spiritual/profile.py:18-20 | `Profile.new` with a name that is not a string raises the keyword type error. |
| Schemas.ProfileArity | spiritual/profile.py:9-16 | Profile's constructor rejects more than one positional argument, or more than five arguments in all. These are exactly the cases it rejects. |
| Schemas.AbilityPositional | spiritual/ability.py:7-8 | `Ability(name, effects)` with string effects stores both, in field order. |
| Schemas.AbilityEffectsText | spiritual/ability.py:7-8 | `Ability(name, effects)` succeeds exactly when every effect is a string. |
| Schemas.AbilityArity | spiritual/ability.py:7-8 | Three positional arguments to Ability raise the arity error. |
| Schemas.PieceWithAbilityRaises | spiritual/piece.py:8-9 | As written, a Piece built from a list holding an Ability instance raises TypeError. |
| Schemas.PieceWithAbilitiesIntended | spiritual/piece.py:8-9 | Repaired: a Piece built from a kind and a list of Ability instances holds them. |
| Schemas.GameInstanceListsEmptyAsWritten | spiritual/mob.py:7-11 | As written, a Piece that loads at all has an empty `abilities` list, and a Mob an empty `pieces` list. Any instance in them would make the check raise. |
| Schemas.PieceWithAbilityReload | spiritual/piece.py:8-9 | As written, dumping a Piece that holds an ability gives data that raises on reload. In repaired mode it reloads to the same Piece. |
| Schemas.ProfileSkillsEmptyAsWritten | spiritual/profile.py:13 | As written, any Profile that loads at all has an empty skills dict. Any entry makes `Number(x)` raise. |
| Schemas.NumberDictLoad | spiritual/smartdata/smartdata.py:61-80 | A non-empty `dict[str, Number]` of numbers raises as written. In repaired mode it loads to itself. |
| Schemas.ProfileNeedsEveryKey | spiritual/smartdata/smartdata.py:139-145 | A dict missing any of Profile's five keys is not a valid Profile, even though four of them have defaults. |
| Schemas.ProfileMissingName | spiritual/smartdata/smartdata.py:155-156 | Loading a profile without `player_name` raises 'Missing key'. |
| Schemas.ProfileMissingDefaultedKey | spiritual/smartdata/smartdata.py:155-157 | Loading a profile that has only `player_name` passes the missing-key guard but raises KeyError at `obj[key]`. |
| Schemas.ProfileDumpKeys | spiritual/profile.py:9-16 | A dumped profile has exactly the five annotated keys, in declaration order. |
| Schemas.GameRoundTrip | spiritual/smartdata/smartdata.py:152-169 | Repaired: every well-typed game record dumps and loads back to itself. |
| TileGrid.DataSize | spiritual/tilemap.py:17-19 | `TilemapData.get_size` raises StopIteration exactly when there are no boolmaps, and IndexError exactly when the first map has no rows. Otherwise it gives a positive row count. The value itself, the first map's row count and first-row length, is given by the definition. |
| TileGrid.GridSize | spiritual/tilemap.py:26-27 | `Tilemap.get_size` raises exactly on an empty grid. Otherwise it gives a positive row count. |
| TileGrid.GetItem | spiritual/tilemap.py:29-42 | Each of the four key checks raises its TypeError in order. A pair of ints outside the grid reads 'empty', and one inside reads that cell. |
| TileGrid.LookupRaises | spiritual/tilemap.py:38-42 | An int-pair lookup raises exactly when the row is in range but that row is shorter than the first row, and then the error is IndexError. |
| TileGrid.BoolIndexes | spiritual/tilemap.py:34-37 | A bool index counts as the int 0 or 1, because `bool` is a subclass of `int`. |
| TileGrid.FirstClaim | spiritual/tilemap.py:50-53 | The first boolmap whose cell is truthy claims the cell. Nothing claims it exactly when every map covers the cell without claiming it. A map too short for the cell raises IndexError. |
| TileGrid.TileAt | spiritual/tilemap.py:50-53 | A cell gets the name of the first map that claims it: every map before that one covers the cell without claiming it. A cell every map covers and none claims stays 'empty'. The lookup raises exactly when some map before any claim is too short for the cell, and the error is IndexError. |
| TileGrid.LoadData | spiritual/tilemap.py:44-54 | `loaddata` propagates `get_size`'s error. Otherwise it succeeds exactly when every cell resolves. The result is the transposed claim grid. |
| TileGrid.LoadedLookup | spiritual/tilemap.py:42-52 | Looking up `(j, i)` in a loaded tilemap gives the tile that claimed cell `(i, j)` of the boolmaps. |
| TileGrid.LoadedSize | spiritual/tilemap.py:26-47 | A loaded tilemap's size is the boolmaps' size swapped. |
| Elements.PromptEvent | spiritual/element.py:148-160 | A click focuses the prompt exactly when it is inside the rect. Unfocused, keys change nothing. Backspace drops the last character. Return unfocuses and Escape also clears. Other keys append their text while below the limit. When each key event carries at most one character, a value within the limit stays within it. |
| Elements.PromptStaysBounded | spiritual/element.py:156-160 | Over any event sequence whose key events each carry at most one character, a value within the length limit stays within it. |
| Elements.UnfocusedIgnoresKeys | spiritual/element.py:148-153 | Without a click, an unfocused prompt ignores every event. |
| Elements.TypingAppends | spiritual/element.py:158-160 | Typing a string into a focused prompt with room for it appends exactly that string. |
| Elements.ButtonEvent | spiritual/element.py:226-236 | The action fires exactly on a release inside after a press. Any release clears the pressed flag, and a press inside sets it. |
| Elements.FiresAtMostPresses | spiritual/element.py:226-236 | Over any event sequence, the action fires at most once per press inside, plus once if the button was already pressed. |
| Elements.ClickFiresOnce | spiritual/element.py:226-236 | A press inside followed by a release inside fires exactly once. |
| Elements.Round | spiritual/element.py:80 | Python's `round` gives the nearest integer, with ties going to the even one. |
| Elements.Clamp | spiritual/element.py:81 | The font size always lies within 8..72. Sizes already in range are kept, and others go to the nearer bound. |
| Elements.FontSizeMonotone | spiritual/element.py:78-81 | A larger scaled size never gives a smaller font. A size that rounds into range keeps its rounded value. |
| Elements.NewPrompt | spiritual/element.py:103-125 | A new prompt has an empty value, is unfocused, and keeps its rect and length limit. |
| Elements.FontSize | spiritual/element.py:78-81 | `on_resize`'s font size always lies within 8..72. |
| States.UpdatePage | spiritual/state.py:103-125 | The page shows the five fixed buttons, then one button per profile of the page, at most four. It has one priority-0 entry per element. |
| States.NewProfilesState | spiritual/state.py:74-87 | The profiles screen starts on page 0 with the given profile list, which stands in for the directory scan. |
| States.ProfileButtons | spiritual/state.py:115-124 | From button i on, the loop makes buttons up to index `min(4, len - page*4)`, stopping at the first missing profile. Button k shows the profile at `page*4 + k`, which exists. |
| States.ButtonUp | spiritual/state.py:95-97 | As written, Up moves to the previous page unless on the first. It keeps the buttons as they were, because the page is not redrawn. |
| States.ButtonDown | spiritual/state.py:99-101 | As written, Down moves to the next page while the page is below `len // 4`, and stays otherwise. It keeps the page in range and leaves the buttons as they were. |
| States.ButtonDownIntended | spiritual/state.py:99-101 | Repaired Down moves the page exactly as the source does and keeps the profiles. It keeps the page in range. |
| States.ButtonUpIntended | spiritual/state.py:95-97 | Repaired Up moves the page exactly as the source does and keeps the profiles. It keeps the page in range. |
| States.ChooseProfile | spiritual/state.py:127-137 | Profile button i opens the profile at `page*4 + i`. It raises IndexError exactly when there is none. |
| States.UpdatePageMatches | spiritual/state.py:103-137 | After a redraw, every profile button opens the profile whose name it shows. |
| States.PagingMismatchAsWritten | spiritual/state.py:99-129 | With five profiles, Down leaves button 0 labelled with the first profile while it opens the fifth. Button 1 raises IndexError. |
| States.IntendedPagingMatches | spiritual/state.py:95-125 | Repaired Up and Down redraw the page, so every profile button opens the profile it names. |
| States.NewGameState | spiritual/state.py:199-215 | A new game screen has three elements and three priorities. The third element is the player sprite facing direction 0, and the player's direction is 0. |
| States.TurnPlayer | spiritual/state.py:228-242 | Keys other than w, a, s and d change nothing. Those four set the direction and the sprite's image together. |
| States.WasdTurns | spiritual/state.py:230-240 | w, a, s and d turn the player to directions 0, 1, 2 and 3. No two keys give the same direction. |
| States.TurnKeepsSpriteInStep | spiritual/state.py:240-242 | After a first press of w, a, s or d and then any key, the sprite shows the player's direction. |
| States.ChunkBlits | spiritual/state.py:358-364 | A chunk blits every in-range cell of its 16x16 block exactly once, at its offset. It fails only when some such cell is bad: its lookup raises IndexError (a row shorter than the first) or it names an unknown tile. |
| States.Chunks | spiritual/state.py:353-366 | The chunk loops give one chunk per 16x16 block of the grid. They fail only on a bad cell: a lookup that raises IndexError or a tile that is unknown. |
| States.ChunksCoverGrid | spiritual/state.py:353-366 | Every cell of the grid is drawn by some chunk. |
| States.ChunksStayInGrid | spiritual/state.py:358-364 | No chunk draws a cell outside the grid. |
| States.ChunksDrawOnce | spiritual/state.py:353-366 | No cell is drawn twice. |
| States.ColumnBlits | spiritual/state.py:358-362 | The innermost blit loop gives one blit per cell of the column, in order, each drawing the cell's tile. It fails only on a bad cell of that column. |
| States.ChunkColumn | spiritual/state.py:354-366 | The inner chunk loop gives one whole chunk per remaining block of the column, in order. It fails only on a bad cell inside those blocks. |
| States.GamePriorities | spiritual/state.py:370 | The game screen's priorities are 2, 2 and 1 for its first three elements and 0 for every chunk, one per element when there are at least three. |
| States.FindLocation | spiritual/state.py:346-349 | `TILEMAPS[location]` is found exactly when the location is a key, and it is that key's tilemap. |
| States.SetLocation | spiritual/state.py:345-370 | Covers all of `set_location`. An unknown location raises ValueError. A missing profile raises. Otherwise it records the location and keeps the first three elements, followed by the chunks. |
| States.SetLocationPriorities | spiritual/state.py:367-370 | After `set_location`, priorities and elements have the same count. |
| States.SetLocationDrawsGrid | spiritual/state.py:350-370 | After `set_location`, the chunk sprites cover every cell of the location's grid. |
| Window.Least | spiritual/window.py:50 | The lowest priority present, below or equal to every priority. |
| Window.DrawOrder | spiritual/window.py:38-53 | When the counts differ, elements draw in list order. Otherwise they draw by ascending priority, in list order within a priority. Either way each element is drawn exactly once. |
| Window.DrawOrderIsPermutation | spiritual/window.py:41-52 | The draw order is a permutation of the elements. |
| Window.Group | spiritual/window.py:46-49 | The elements of one priority, from index i on: exactly those indexes, in increasing order. |
| Window.DrawGroups | spiritual/window.py:50-52 | The draw order over a priority range holds exactly the elements in that range, each ordered before the next by priority and then by index. |
| Window.GameDrawOrder | spiritual/state.py:370 | On the game screen, chunks are painted before the player, and the player before the title and the Back button. |
| Window.BuildScreen | spiritual/state.py:373-380 | `STATES[name]()` raises KeyError exactly for names outside the table. Every screen has as many priorities as elements. |
| Window.SetState | spiritual/window.py:55-61 | The state name is always recorded, even before an unknown name raises. Any other state is built fresh. 'game' gets the window's profile and then runs `set_location('spawn')`. |
| Window.SetStatePrioritiesMatch | spiritual/window.py:55-61 | Every screen that `set_state` builds without raising has as many priorities as elements, so it draws by priority. |
| Window.GameNeedsProfile | spiritual/window.py:59-61 | Entering the game without a profile raises AttributeError. |
| Window.GameRecordsLocation | spiritual/window.py:59-61 | Entering the game with a profile sets the profile's location to 'spawn' and keeps the rest of the profile. |

## Left out

- File and JSON I/O is not modelled: `SmartData.load`/`dump`, `Profile.save`,
  the scan of the profile directory, `load_profile`'s file reading, and the
  module-level `TILEMAPS`/`TILES` loading. Their results are parameters.
- pygame rendering is not modelled: surfaces, fonts, blitting, `flip`, and
  the float layout maths of every `on_resize`. A chunk is the list of blits
  it would make.
- `GameState.update`, `test_collision` and the `update(window, 0)` call after
  `init` are not modelled. They are movement and collision physics over
  floats and clock deltas.
- Event dispatch is not modelled: `Window.on_event` (QUIT, VIDEORESIZE) and
  each state's loop handing events to its elements. Each element handler is
  modelled separately.
- The new-profile confirm path, `Title`, `Sprite`, `recipe.py` and
  `assets.py` are not modelled. They are outside the modelled core.
- `is_type`'s and `load_value`'s `issubclass` crash on a union annotation
  is not modelled. `issubclass(int | str, SmartData)` raises TypeError at
  smartdata.py:10 and :59, so as written any union-annotated field fails to
  check and to load. Both modes model unions as evidently intended, by
  walking the alternatives. A generic alias such as `list[int]` passes
  `issubclass` and is modelled as the source handles it.
- The final `NotImplementedError` branches of `is_type` and `load_value` are
  not modelled. The annotation language is closed, so they cannot be
  reached.
- Numeric equality across classes is not modelled. Python has
  `1 == 1.0 == True`, with equal hashes, so `{1, 1.0}` has one member and a
  dict keeps one of the keys `1` and `1.0`. Values.AddUnique and Values.Put
  compare values structurally, so the model keeps both.
- Set iteration order is not modelled. Python iterates a set in hash order,
  and `dump_value` emits that order. The model keeps sets in insertion order,
  so RoundTrip.DumpThenLoadSet's "same order" holds for the model only; the
  members are what the source preserves.
- Floating-point rounding is not modelled. A float is an exact real.
- Object identity, the shared mutable class-attribute defaults, and effects
  left behind by an operation that raises part-way are not modelled. One
  example of the last: `profile.location` already set when a lookup in
  `set_location` raises.
- LoadValue.Load: a value of the wrong shape for a container annotation is
  `Err(NotModelled)`, where Python iterates whatever it is given.
  `load_value("ab", list[str])` gives `['a', 'b']`, `load_value({"a": 1}, set[str])`
  gives `{'a'}`, `load_value("ab", tuple[str, str])` indexes the string,
  `load_value([1], dict[str, int])` raises AttributeError at `.items()`, and
  a number or `None` raises TypeError. So the ensures that a loaded list or
  set came from a list, tuple or set holds for the model only. `loads` and
  union loading never reach these branches: every value passes `is_type`
  first, and TypeCheck.ListRule, SetRule, TupleRule and DictRule show that
  `is_type` passes only shapes the model loads.
- LoadValue.LoadPrim: coercing a value of another class through a primitive
  constructor, e.g. `int("3")` or `str(1)`, is `Err(NotModelled)`. `loads`
  never reaches it, because every field passes the check first.
- TileGrid.LoadData: its final `cls(tilemap, data.sources)` is taken to
  succeed. It does not re-run the constructor's type check on the grid it
  has just built.
- RoundTrip.DumpThenLoad: holds only for union-free types with string dict
  keys. UnionRoundTripFails shows why unions are excluded. Non-string keys
  do not survive JSON. It also holds only for loaded-shape values, the ones
  `load_value` produces, and only in repaired mode. The constructor accepts
  more: a list in a `tuple[...]` or `set[...]` field, a bool in an `int`
  field, and non-JSON items in a bare `list`. Such an instance need not
  reload to itself; ConstructedListReloadsAsTuple shows one that does not.
  For the engine as written, LoadModes.RecordReloadsAsWritten,
  AbilityRoundTripAsWritten and ProfileRoundTripAsWritten give the round
  trip where it holds.
- RoundTrip.DumpThenLoadRecord: the same loaded-shape and repaired-mode
  restriction as DumpThenLoad.
- LoadValue.LoadEntries: its own contract states only that each entry comes
  from the input. The converse, that every input key is present and the last
  input entry for a key wins, is proved separately by DictKeysPresent and
  DictLastWins and collected in DictLoadRule.
- Elements.FontSizeMonotone: relates scaled sizes only. The scale factor
  computed from window dimensions is floating point and is not modelled.
- Values.ExceptionOf: the exception messages are not modelled. Only their
  classes are.

## Findings

| source | as written | input that shows it | evidently intended | confidence | as-written member | corrected member |
|---|---|---|---|---|---|---|
| spiritual/smartdata/smartdata.py:10-11 | A record annotation delegates to `is_valid(obj)`, which runs `key not in obj`. For an instance of the class, this raises TypeError, because instances are not iterable. So `Piece(kind, [Ability(...)])` raises, and `loads` raises for a Piece with any ability or a Mob with any piece. | `Piece("rook", [Ability("slide", [])])` | An instance of the annotated class passes the check. | not executed | TypeCheck.InstanceRaisesAsWritten, Schemas.PieceWithAbilityRaises | TypeCheck.InstancePassesIntended, Schemas.PieceWithAbilitiesIntended, Schemas.GameRoundTrip |
| spiritual/smartdata/smartdata.py:61-62 | `load_value(x, Number)` calls `Number(x)`. `numbers.Number` takes no arguments, so this raises TypeError. Every profile with a skill fails to load. | `Profile.loads` of a dict whose `skills` is `{"run": 1}` | A number loads as itself. | not executed | Schemas.NumberDictRaisesAsWritten, Schemas.ProfileSkillsEmptyAsWritten | Schemas.NumberDictLoadsIntended, LoadValue.LoadPrim |
| spiritual/state.py:95-101 | `button_up` and `button_down` change `page` without calling `update_page`. The profile buttons keep their old labels while opening profiles of the new page. | Five profiles: press Down, then the first profile button. It opens the fifth profile but is labelled with the first. The second button raises IndexError. | Changing the page redraws the buttons. | not executed | States.PagingMismatchAsWritten, States.ButtonDown | States.ButtonDownIntended, States.ButtonUpIntended, States.IntendedPagingMatches |
