# RustymonSpawns: canonical world schema and spawn-data converter

RustymonSpawns describes a location-based monster game's world in a
canonical schema, and converts community spawn data into that schema.

The schema, `common.py`, has three parts:

- Closed code sets (IntEnums): spawn, point-of-interest, street, area, moon,
  time, weather and temperature codes.
- The records of a world: points of interest, streets, areas and the world
  itself. Their constructors coerce every field (`int()` for codes, `float()`
  for coordinates, a canonical UUID text for the world id).
- Helpers:
  - `to_enum`, which resolves a value to a member: first by ordinal, then by
    name, leniently or strictly;
  - `get_any_condition`, meant to be the condition that matches anything.

The converter, `conv_spawn_relations.py`, has three parts:

- It reads one stats file per species.
- For each species whose spawn set file exists, it turns every spawn entry
  into a record with these fields:
  - levels;
  - held items, mapped through an item table;
  - female probability;
  - spawn area;
  - conditions resolved onto the canonical time, temperature and weather
    codes;
  - a probability of `round(rarity / 300, 5)`.
- It sorts species without a spawn set into `no_spawns`, and species in
  650..1023 into `skipped`.

The model has seven files:

- `wrappers.dfy`: `Option` and `Result`.
- `builtins.dfy`: the Python built-ins the core relies on:
  - `int()` on ints, floats, bools, text and None;
  - `in` between a value and a set of ints;
  - `str.replace(p, "")`, `str.strip`, `str.title` on ASCII letters;
  - `round(x, n)` with ties to even;
  - `sorted()` of a set of codes.
- `enums.dfy`: the code sets and `to_enum`.
- `uuid.dfy`: the canonical UUID text and its parser.
- `entities.dfy`: the records, their constructors and `get_any_condition`.
- `conditions.dfy`: the mapping tables and `_get_conditions`.
- `conversion.dfy`: the remaining converter parts:
  - `map_item` and the held-items list;
  - the per-entry record and `convert_spawn_info`;
  - `convert_all`.

How errors and loops are modelled:

- A Python exception is the `Err` case of a `Result`, holding `ValueError`,
  `TypeError` or `KeyError`.
- A value that the source can leave `None` is an `Option`.
- Each loop of the converter is a method with a `while` loop. It is proved
  equal to a recursive specification function, and the properties are proved
  about that function.

An empty inclusive list, such as `"times": []`, gives an empty set for that
axis, as the code does (it starts from `set()` and unions nothing in).
`Conditions.EmptyListAllowsNothing` states what the code does.

## Model

| member | source | states |
|---|---|---|
| Enums.ToEnum | common.py:292-307 | A resolved member is a member of the enum. `None` is only returned in lenient mode. The only errors are `TypeError` for a null value and `ValueError` in strict mode. |
| Enums.ToEnumOrdinal | common.py:294-297 | Every member resolves from its ordinal, in both modes. |
| Enums.ToEnumName | common.py:298-303 | Every member of a well-formed enum resolves from its name, in both modes. |
| Enums.ToEnumOutOfRange | common.py:293-307 | An integer outside 1..len(T) is unresolved: `None` when lenient, `ValueError` when strict. |
| Enums.ToEnumOrdinalWins | common.py:294-297 | A value that `int()` accepts resolves exactly as that integer does; its text is never looked up as a name. |
| Enums.ToEnumStrictness | common.py:304-307 | Strict and lenient results differ exactly where the lenient one is `None`, and the strict one is then `ValueError`. |
| Enums.ToEnumExactly | common.py:292-307 | For a well-formed enum, a value resolves to member k if and only if k is a member and `int()` reads the value as k, or the value is k's name. |
| Enums.DeclarationOrder | common.py:165-191 | Ordinals are 1-based in declaration order: MORNING is 1, NIGHT is 4, FREEZING is 1, HOT is 5. |
| Enums.TimeWellFormed | common.py:165-169 | TimeType's member names are distinct identifiers that no integer literal can spell. |
| Enums.TemperatureWellFormed | common.py:186-191 | The same for TemperatureType. |
| Enums.MoonWellFormed | common.py:155-162 | The same for MoonType. |
| Enums.StreetWellFormed | common.py:133-138 | The same for StreetType. |
| Enums.AreaWellFormed | common.py:141-152 | The same for AreaType. |
| Enums.WeatherWellFormed | common.py:172-183 | The same for WeatherType. |
| Enums.SpawnWellFormed | common.py:46-86 | The same for SpawnType, all forty names. |
| Enums.POIWellFormed | common.py:89-130 | The same for POIType, all thirty-nine names. |
| Enums.SchemaNamesResolve | common.py:298-303 | Every member of every code set of the schema resolves from its exact name, in both modes. |
| Builtins.PyInt | common.py:294 | `int(v)` is `TypeError` for None. An int converts to itself, a bool to 0 or 1, a float to its truncation toward zero, and text to the value of its integer literal. It is `ValueError` exactly for text that is no integer literal. |
| Builtins.ParseIntRejectsLetterStart | common.py:294-300 | Text starting with a letter is never an integer literal, so member names reach the name lookup. |
| Builtins.NumericKeyConverts | conv_spawn_relations.py:95-96 | A value equal to an integer as a set key converts to that integer through `int()`. |
| Builtins.RemoveAll | conv_spawn_relations.py:121 | `s.replace(p, "")` never lengthens the text. |
| Builtins.TitleLowerWord | conv_spawn_relations.py:180 | A lower-case species name becomes its file name stem by upper-casing its first letter only. |
| Builtins.RoundError | conv_spawn_relations.py:150 | `round(x, n)` is within half a unit of the n-th decimal of x. |
| Builtins.RoundMonotone | conv_spawn_relations.py:150 | `round(x, n)` never reverses an order. |
| Builtins.SortedCodesExact | conv_spawn_relations.py:112-115 | Any ascending list holding exactly the codes of a set is the `sorted()` of that set. |
| Builtins.SortedAllCodes | conv_spawn_relations.py:113 | The sorted list of all codes 1..n is [1, ..., n]. |
| Uuids.Format | common.py:256 | `str(UUID)` is 36 characters: lower-case hex digits with hyphens at positions 8, 13, 18 and 23. |
| Uuids.Parse | common.py:256 | `UUID(text)` fails only with `ValueError`. On success, the digits it reads are 32 hex digits whose value is the UUID. |
| Uuids.HexRoundTrip | common.py:256 | Reading back the w hex digits written for n gives n modulo 16^w. |
| Uuids.ParseFormat | common.py:256 | Parsing the canonical text of a UUID gives that UUID back. |
| Uuids.ParseBraced | common.py:256 | The braced spelling `{...}` parses to the same UUID. |
| Uuids.ParseUrn | common.py:256 | The `urn:uuid:` spelling parses to the same UUID. |
| Uuids.ParseCanonical | common.py:256 | A parsed id written canonically and parsed again is unchanged. |
| Entities.IntAllResult | common.py:208 | `[int(s) for s in spawns]` succeeds if and only if every element converts, and holds each element's `int()` in order. Otherwise it raises the error of the first element that fails. |
| Entities.NewPointOfInterest | common.py:194-209 | Type and spawn codes go through `int()` in that order, and the first error wins. The type is not range-checked, and the point is kept. |
| Entities.NewStreet | common.py:212-224 | The street is created if and only if `int(type)` succeeds. It stores that code and the points unchanged. |
| Entities.NewArea | common.py:227-242 | The same as for points of interest, with an outline in place of the point. |
| Entities.ConstructorsKeepCodes | common.py:205-242 | Integer codes, members or not, are stored as given, with every spawn code kept in order. |
| Entities.BadSpawnCodeFails | common.py:205-242 | One null spawn code, which `int()` rejects, makes the whole point of interest or area fail. |
| Entities.WorldId | common.py:256 | The stored id always parses. It is an error if and only if the argument is non-empty text that does not parse, and the error is then `ValueError`. |
| Entities.NewWorld | common.py:254-263 | A world is created if and only if the id and any given timestamp and version convert. The defaults are the rounded current time, `FORMAT_VERSION` and empty contents. |
| Entities.WorldIdKeepsUuid | common.py:256 | A UUID object is stored as its text, and valid text as the canonical text of the same UUID. No id or an empty id takes the drawn `uuid4()`. |
| Entities.WorldIdStable | common.py:256 | Re-creating a world from its stored id keeps that id and never consults the random draw. |
| Entities.NewWorldCanonicalId | common.py:254-263 | Every created world's id is canonical: parsing it and writing it back is the identity. |
| Entities.AnyCondition | common.py:281-289 | `get_any_condition()` has index 1 and modifier 1.0. |
| Entities.AnyAxis | common.py:285-288 | Each axis has len(T) entries. |
| Entities.AnyAxisShape | common.py:281-289 | Each axis starts with `None` and then holds members 1..len(T)-1. The top member len(T) is missing. |
| Entities.AnyConditionMissesTop | common.py:281-289 | The condition as written lacks NIGHT, HOT, moon phase 7 and weather 11. |
| Entities.FullAxis | common.py:281-289 | The corrected axis lists every member and no `None`. |
| Entities.AnyConditionIntended | common.py:281-289 | The corrected condition lists exactly the members of every axis, with index 1 and modifier 1.0. |
| Entities.AnyAxisShift | common.py:285-288 | The written axis is the corrected one shifted by one place, with `None` in front. |
| Conditions.TablesHoldMembers | conv_spawn_relations.py:43-69 | Every code in the time, moon and weather tables is a member of its enum. |
| Conditions.MappedMembers | conv_spawn_relations.py:80-81 | A code is in the union of the buckets' codes if and only if some bucket lists it. |
| Conditions.IncludeIsUnion | conv_spawn_relations.py:79-81 | The inclusive loop adds exactly the listed buckets' codes. It raises `KeyError` if and only if some bucket is no key of the table. |
| Conditions.ExcludeIsDifference | conv_spawn_relations.py:82-86 | The exclusive loop removes exactly the buckets' codes and leaves a subset. It raises `KeyError` if and only if some bucket is unknown. |
| Conditions.IncludeThenExclude | conv_spawn_relations.py:77-86 | Including buckets and then excluding the same buckets leaves nothing. |
| Conditions.ExcludeKeepsUnmapped | conv_spawn_relations.py:82-86 | A code that no excluded bucket maps to is never removed. |
| Conditions.TemperatureIncludeResolves | conv_spawn_relations.py:89-92 | With values that all resolve, the set gains exactly the members they name. With any value that does not resolve, strict `to_enum` raises. |
| Conditions.TemperatureExcludeNumeric | conv_spawn_relations.py:93-96 | On a set of members the exclusive loop never raises. It removes exactly the codes that its numeric values equal. |
| Conditions.TemperatureNamesIgnored | conv_spawn_relations.py:93-96 | An anticondition given only as text (names or numeric strings) changes nothing. |
| Conditions.UnionBuckets | conv_spawn_relations.py:79-81 | The inclusive loop computes the union specification. |
| Conditions.RemoveBuckets | conv_spawn_relations.py:82-86 | The exclusive loop computes the difference specification. |
| Conditions.AddTemperatures | conv_spawn_relations.py:89-92 | The inclusive temperature loop computes its specification. |
| Conditions.RemoveTemperatures | conv_spawn_relations.py:93-96 | The exclusive temperature loop computes its specification. |
| Conditions.ResolveBucketAxis | conv_spawn_relations.py:77-86 | A time or weather axis is resolved as its specification says. |
| Conditions.ResolveTemperatureAxis | conv_spawn_relations.py:88-96 | The temperature axis is resolved as its specification says. |
| Conditions.GetConditions | conv_spawn_relations.py:73-116 | `_get_conditions` returns what `ConditionsOf` specifies. |
| Conditions.TimesMappedMembers | conv_spawn_relations.py:43-52 | Time buckets map only to time members. |
| Conditions.WeatherMapsNothing | conv_spawn_relations.py:65-69 | Known weather buckets map to no code at all. |
| Conditions.BucketAxisIsDifference | conv_spawn_relations.py:77-107 | With no condition key, an axis holds every code 1..n. With one, it holds the union of the listed buckets' codes. In both cases the excluded buckets' codes are then removed, and an unknown bucket on either side is `KeyError`. |
| Conditions.TimeAxis | conv_spawn_relations.py:77-86 | The time set is the included buckets' codes, all four by default, minus the excluded ones. All are time members. |
| Conditions.UnknownBucketRaises | conv_spawn_relations.py:81-105 | An unknown time or weather bucket, in the condition or the anticondition, raises `KeyError`. |
| Conditions.WeatherAxis | conv_spawn_relations.py:98-107 | Any `"weathers"` condition leaves the weather set empty. Without one it holds all 11 codes, and weather anticonditions never change it. |
| Conditions.TemperatureAxisMembers | conv_spawn_relations.py:88-96 | The temperature set holds only temperature members. |
| Conditions.BucketAxesMembers | conv_spawn_relations.py:77-107 | The time and weather sets hold only members of their enums. |
| Conditions.SortedListsSet | conv_spawn_relations.py:112-115 | `sorted()` of a code set is ascending and holds exactly that set. |
| Conditions.MoonPhases | conv_spawn_relations.py:113 | The moons list is [1..7]. |
| Conditions.ConditionsRecord | conv_spawn_relations.py:109-116 | A successful `_get_conditions` returns exactly one record, built from its three resolved axes. |
| Conditions.RecordShape | conv_spawn_relations.py:109-116 | The record has index 1337, modifier 1.0 and every moon phase. Each axis list is ascending, duplicate-free and holds exactly its set. |
| Conditions.NoConstraintsRecord | conv_spawn_relations.py:73-116 | With no condition and no anticondition, the record is built from every code of every axis. |
| Conditions.UnconstrainedBucketAxis | conv_spawn_relations.py:77-98 | An axis that neither side mentions holds every code. |
| Conditions.NoConstraints | conv_spawn_relations.py:73-116 | With no condition and no anticondition, the lists are [1..4], [1..5] and [1..11]. |
| Conditions.DawnExample | conv_spawn_relations.py:43-81 | The DAWN bucket alone resolves the times to [1, 4]. |
| Conditions.EmptyListAllowsNothing | conv_spawn_relations.py:78-81 | An empty inclusive time list leaves the time set empty, whatever the anticondition. |
| Conversion.MapItem | conv_spawn_relations.py:118-125 | An exact key wins. Otherwise the id with every `pixelmon:` removed is looked up. The result is `None` if and only if neither is a key, and a result is always a value of the table. |
| Conversion.MapItemPrefixed | conv_spawn_relations.py:121-122 | `pixelmon:name`, when not itself a key, maps exactly as `name` does. |
| Conversion.MapItemUnknown | conv_spawn_relations.py:118-125 | An unknown id without a colon maps to `None`. |
| Conversion.HeldEntry | conv_spawn_relations.py:142-146 | One entry contributes at most one held item, with a known item and a positive probability. |
| Conversion.HeldItems | conv_spawn_relations.py:142-146 | The list is no longer than the input. Every held item is a value of the item table with a positive probability. |
| Conversion.HeldItemsFail | conv_spawn_relations.py:143-145 | The comprehension raises if and only if some entry lacks `percentChance`, or has a positive chance without an `itemID`. The error is always `KeyError`. |
| Conversion.HeldItemSingle | conv_spawn_relations.py:143-145 | A single entry becomes `{item, percentChance / 100}` if its chance is positive and its item known, and nothing otherwise. |
| Conversion.HeldItemsAppend | conv_spawn_relations.py:142-146 | The comprehension keeps input order: the held items of a + b are a's followed by b's. |
| Conversion.HeldItemsZeroChance | conv_spawn_relations.py:145 | Entries with no positive chance never contribute, whatever their item. |
| Conversion.GenderChances | conv_spawn_relations.py:147 | With the male chance computed as at line 191, the -1 sentinel passes through. For a male percentage in 0..100, the female probability is in 0..1 and the two chances sum to 1. |
| Conversion.SpawnProbabilityBounds | conv_spawn_relations.py:150 | The probability is within 0.000005 of rarity/300, and grows with the rarity. |
| Conversion.SpawnProbabilityRange | conv_spawn_relations.py:150 | A rarity in 0..300 gives a probability in 0..1. Rarities 0, 150 and 300 give exactly 0, 0.5 and 1. |
| Conversion.ConvertSpawnInfo | conv_spawn_relations.py:127-160 | The loop returns what `ConvertedEntries` specifies. |
| Conversion.ConvertedEntriesInOrder | conv_spawn_relations.py:127-160 | `convert_spawn_info` succeeds if and only if every entry converts. It then returns one record per entry, in entry order. |
| Conversion.ConvertEntryFields | conv_spawn_relations.py:138-151 | An entry converts if and only if both levels and the rarity are present and its held items and conditions resolve. The record then has form 0, spawn areas [1337], the entry's levels, held items and conditions, the species' female probability and the rounded probability. |
| Conversion.ConvertEntryErrors | conv_spawn_relations.py:138-151 | Errors follow field order: a missing level comes first (`KeyError`), then a held-items `KeyError`, then a condition error. |
| Conversion.UnknownKeys | conv_spawn_relations.py:129-134 | The reported keys are exactly the keys outside the known set. |
| Conversion.UnknownKeysAppend | conv_spawn_relations.py:129-134 | Reporting keeps key order. |
| Conversion.ConvertAll | conv_spawn_relations.py:163-197 | The loop returns what `ConversionOf` specifies. |
| Conversion.ConversionSkipped | conv_spawn_relations.py:172-174 | `skipped` gains exactly the skipped species' ids, in file order. |
| Conversion.ConversionNoSpawns | conv_spawn_relations.py:179-183 | `no_spawns` gains exactly `{id, name}` for each species whose set file is not listed, in file order. |
| Conversion.ConversionKeys | conv_spawn_relations.py:185-194 | Every converted species gets an entry in `spawns`, and entries are never removed. |
| Conversion.ConversionValues | conv_spawn_relations.py:189-194 | The records under an id are the conversion of the spawn set of a file with that id. |
| Conversion.ConversionOk | conv_spawn_relations.py:192-194 | `convert_all` fails if and only if some converted species' spawn set fails to convert. |
| Conversion.ConvertAllSorts | conv_spawn_relations.py:168-197 | Id 0 appears nowhere. Skipped ids are only under `skipped`. Species without a set file are only under `no_spawns`. Every converted id is in `spawns` with records converted from its set. |
| Conversion.SkippedIdsAreSkipped | conv_spawn_relations.py:172-174 | An id is in the skipped list if and only if it is nonzero, in 650..1023 and the id of some file. |
| Conversion.NoSpawnListNotSkipped | conv_spawn_relations.py:170-183 | Every `no_spawns` entry is neither id 0 nor skipped, and its set file is not listed. |

## Left out

- File I/O, JSON parsing and writing, and directory listing are left out. The
  stats files arrive as a sequence in the order `sorted()` gives them, with
  their ids already read from the file names. The listed set files arrive as
  a set of names, and the readable spawn sets as a map from file name to
  entries.
- The diagnostic `print`s of the converter are left out, including the
  `typeID` check and the spec/tag/multiplier reports. Only the unknown-key
  selection is modelled, as the pure function `Conversion.UnknownKeys`.
- `ALL_CONDITION_KEYS` lists `"temperature"`, while `_get_conditions` reads
  `"temperatures"`. This only affects what is printed, so it is not modelled.
- `uuid4()` and `time.time()` are parameters (`drawn`, `now`) of the World
  constructor.
- `float()` on coordinates and bounding boxes is not modelled. Coordinates
  are reals already, so a text coordinate or a wrong-arity tuple is not
  represented.
- `UUID(text)` is modelled for the hex form with the `urn:` and `uuid:`
  prefixes, braces and hyphens. The `bytes`, `int` and other keyword
  arguments of `uuid.UUID` are not modelled; the World constructor passes
  only text.
- Uuids.Parse: the `uuid` module checks only that 32 characters remain and
  then calls `int(hex, 16)`, which also accepts a `0x` or `0X` prefix, a sign,
  surrounding whitespace and single underscores between digits, such as
  `"0x" + 30 hex digits` or `"+" + 31 hex digits`. The model accepts only 32
  hex digits and reports `ValueError` for those spellings, so through
  `Entities.WorldId` such an id is an error where the World constructor
  accepts it.
- Builtins.Title: only ASCII letters are cased. Python's `str.title` also
  treats non-ASCII letters as cased, so `"flabébé"` gives `"Flabébé"` there
  and `"FlabéBé"` in the model; for such a species name the model may look up
  a different set file, moving the species between `no_spawns` and the
  converted ones.
- Python floats are modelled as exact reals: binary rounding, NaN and
  infinities are not represented. `round(x, n)` and `percentChance / 100` are
  therefore exact in the model.
- A list or dict inside a condition list is not modelled: the model's values
  are ints, floats, bools, text and null. In the program, such an element
  raises `TypeError` when hashed as a bucket key or passed to `int()`.
- An `itemID` that is not text, such as JSON `null` with a positive chance,
  is not modelled; the program raises `AttributeError` on `.replace`. The
  model takes every present item id as text.
- A stats file without `"pokemon"` or `"malePercent"`, or a spawn set file
  without `"spawnInfos"`, is not modelled: the program raises `KeyError` in
  `convert_all`, while the model receives these fields already read.
- Builtins.PyInt accepts ASCII digits, an optional sign, surrounding
  whitespace and underscores between digits. Unicode digits are not modelled.
- A condition or anticondition that is JSON `null` is modelled as a missing
  one, as `_get_conditions` treats it. The unknown-key loop calls `.keys()`
  on it and raises `AttributeError` (conv_spawn_relations.py:132). That
  exception is not represented.
- A constraint value that is not a list is not modelled: the model takes a
  list of values for every key.
- Only the fields of a spawn entry that the converter reads are modelled. A
  held-item chance is a real number.
- `MOON_MAPPING` is a table that the converter never consults, and its use
  is not modelled. Its members are checked by
  `Conditions.TablesHoldMembers`.
- The echo option of `to_enum` is left out because it only prints.
- Conversion.GenderChances relates the two chances only for a male
  percentage of -1 or in 0..100. A percentage of 200 gives a male chance of
  2 and a female probability of -1, which the contract does not describe.
- The `os.path.exists` check after the listing check is modelled as the set
  file being absent from the readable spawn sets. Such a species is dropped
  silently.

## Findings

| source | as written | input that shows it | evidently intended | confidence | as-written member | corrected member |
|---|---|---|---|---|---|---|
| common.py:285-288 | Each axis is `[to_enum(x, T) for x in range(len(T))]`. Ordinal 0 is no member, so the list starts with `None`, and the top member is never produced. | `get_any_condition()`: its times are `[None, MORNING, NOON, EVENING]`, without NIGHT. Its temperatures lack HOT, its moons lack phase 7 and its weathers lack code 11. | Every axis lists all of its members, `range(1, len(T) + 1)`, as the converter does with `int(x) + 1`. | not executed | Entities.AnyConditionMissesTop | Entities.AnyConditionIntended |
