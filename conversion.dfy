/**
 * The spawn-data converter (conv_spawn_relations.py): every spawn entry of
 * a species becomes one spawn record, and every species file is classified
 * as dropped, skipped, without spawn data, or converted.
 */
module Conversion {
  import opened Wrappers
  import opened Builtins
  import opened Conditions

  const MAX_RARITY: real := 300.0
  const RARITY_ROUNDING: nat := 5

  /** Placeholder spawn area every record is assigned to. */
  const SPAWN_AREA := 1337

  const ITEM_PREFIX := "pixelmon:"
  const SET_SUFFIX := ".set.json"

  const ALL_SPAWN_INFO_KEYS: set<string> := {
    "minLevel", "maxLevel", "tags", "spec", "rarityMultipliers", "typeID",
    "stringLocationTypes", "condition", "anticondition", "heldItems", "rarity"}

  const ALL_CONDITION_KEYS: set<string> := {
    "baseBlocks", "dimensions", "maxLightLevel", "stringBiomes", "temperature",
    "minY", "maxY", "neededNearbyBlocks", "weathers", "times"}

  /** The species left out of the conversion: SKIPPED_POKEMON = range(650, 1024). */
  predicate Skipped(id: int) {
    650 <= id < 1024
  }

  // ------------------------------------------------------------- map_item

  /** The item table: source item ids to target item codes. */
  type ItemMapping = map<string, int>

  /** map_item(id): the exact id first, then the id with every "pixelmon:" removed, else None. */
  function MapItem(mapping: ItemMapping, id: string): (r: Option<int>)
    ensures r.Some? ==> r.value in mapping.Values
    ensures r.None? <==> id !in mapping && RemoveAll(id, ITEM_PREFIX) !in mapping
    ensures id in mapping ==> r == Some(mapping[id])
  {
    if id in mapping then Some(mapping[id])
    else
      var stripped := RemoveAll(id, ITEM_PREFIX);
      if stripped in mapping then Some(mapping[stripped]) else None
  }

  /** A prefixed id that is not itself a key maps like its bare name. */
  lemma MapItemPrefixed(mapping: ItemMapping, name: string)
    requires ':' !in name && ITEM_PREFIX + name !in mapping
    ensures MapItem(mapping, ITEM_PREFIX + name) == (if name in mapping then Some(mapping[name]) else None)
  {
    RemoveAllLeading(ITEM_PREFIX, name);
    RemoveAllAbsent(name, ITEM_PREFIX, ':');
  }

  /** An id without a colon that is no key maps to nothing. */
  lemma MapItemUnknown(mapping: ItemMapping, id: string)
    requires ':' !in id && id !in mapping
    ensures MapItem(mapping, id) == None
  {
    RemoveAllAbsent(id, ITEM_PREFIX, ':');
  }

  // ----------------------------------------------------------- held items

  /** A held-item entry: its item id and percent chance, each possibly missing. */
  datatype HeldItem = HeldItem(itemId: Option<string>, percentChance: Option<real>)

  /** A converted held item: the target item code and the probability of holding it. */
  datatype HeldProbability = HeldProbability(item: int, probability: real)

  /** Reading the entry raises KeyError: no percent chance, or a positive chance without an item id. */
  predicate Malformed(it: HeldItem) {
    it.percentChance.None? || (it.percentChance.value > 0.0 && it.itemId.None?)
  }

  /** The entry is kept: a positive chance and an item the mapping knows. */
  predicate Kept(mapping: ItemMapping, it: HeldItem)
    requires !Malformed(it)
  {
    it.percentChance.value > 0.0 && MapItem(mapping, it.itemId.value).Some?
  }

  /** The held item one well-formed entry contributes: {item, percentChance / 100} if kept, else nothing. */
  function HeldEntry(mapping: ItemMapping, it: HeldItem): (r: seq<HeldProbability>)
    requires !Malformed(it)
    ensures |r| <= 1
    ensures forall h :: h in r ==> h.item in mapping.Values && 0.0 < h.probability
  {
    if Kept(mapping, it) then
      [HeldProbability(MapItem(mapping, it.itemId.value).value, it.percentChance.value / 100.0)]
    else []
  }

  /** What one entry of the comprehension yields: KeyError if malformed, else its contribution. */
  function HeldResult(mapping: ItemMapping, it: HeldItem): Result<seq<HeldProbability>, PyError> {
    if Malformed(it) then Err(KeyError) else Ok(HeldEntry(mapping, it))
  }

  /**
   * A comprehension over xs: the pieces produced for the items, concatenated
   * in item order; the first item that raises decides the error.
   */
  function Gather<A, B>(piece: A -> Result<seq<B>, PyError>, xs: seq<A>): Result<seq<B>, PyError>
    decreases |xs|
  {
    if xs == [] then Ok([])
    else match piece(xs[0])
      case Err(e) => Err(e)
      case Ok(y) =>
        match Gather(piece, xs[1..])
        case Err(e) => Err(e)
        case Ok(ys) => Ok(y + ys)
  }

  /** Gathering raises exactly when some item raises, and then with the error of the first one that does. */
  lemma {:induction false} GatherFails<A, B>(piece: A -> Result<seq<B>, PyError>, xs: seq<A>)
    ensures Gather(piece, xs).Err? <==> exists i :: 0 <= i < |xs| && piece(xs[i]).Err?
    ensures Gather(piece, xs).Err? ==> exists i :: (0 <= i < |xs| && piece(xs[i]) == Err(Gather(piece, xs).error) &&
                                                   forall j :: 0 <= j < i ==> piece(xs[j]).Ok?)
    decreases |xs|
  {
    if xs != [] && piece(xs[0]).Ok? {
      var rest := xs[1..];
      GatherFails(piece, rest);
      if exists i :: 0 <= i < |xs| && piece(xs[i]).Err? {
        var i :| 0 <= i < |xs| && piece(xs[i]).Err?;
        assert xs[i] == rest[i - 1];
      }
      if Gather(piece, rest).Err? {
        var i :| 0 <= i < |rest| && piece(rest[i]) == Err(Gather(piece, rest).error) &&
          forall j :: 0 <= j < i ==> piece(rest[j]).Ok?;
        assert xs[i + 1] == rest[i];
        forall j | 0 < j < i + 1 ensures piece(xs[j]).Ok? { assert xs[j] == rest[j - 1]; }
      }
    }
  }

  /** Gathering keeps item order: what a + b gathers is what a gathers followed by what b gathers. */
  lemma {:induction false} GatherAppend<A, B>(piece: A -> Result<seq<B>, PyError>, a: seq<A>, b: seq<A>)
    requires Gather(piece, a).Ok? && Gather(piece, b).Ok?
    ensures Gather(piece, a + b) == Ok(Gather(piece, a).value + Gather(piece, b).value)
    decreases |a|
  {
    var rb := Gather(piece, b).value;
    if a == [] {
      assert a + b == b;
      assert [] + rb == rb;
    } else {
      var x := piece(a[0]).value;
      var ra := Gather(piece, a[1..]).value;
      GatherAppend(piece, a[1..], b);
      assert (a + b)[0] == a[0] && (a + b)[1..] == a[1..] + b;
      assert x + (ra + rb) == (x + ra) + rb;
    }
  }

  /** A property shared by every piece is shared by everything gathered, and pieces of at most one element keep the length. */
  lemma {:induction false} GatherKeeps<A, B>(piece: A -> Result<seq<B>, PyError>, xs: seq<A>, p: B -> bool)
    requires forall x :: x in xs && piece(x).Ok? ==> |piece(x).value| <= 1
    requires forall x :: x in xs && piece(x).Ok? ==> forall y :: y in piece(x).value ==> p(y)
    ensures Gather(piece, xs).Ok? ==> |Gather(piece, xs).value| <= |xs|
    ensures Gather(piece, xs).Ok? ==> forall y :: y in Gather(piece, xs).value ==> p(y)
    decreases |xs|
  {
    if xs != [] {
      assert xs[0] in xs;
      assert forall x :: x in xs[1..] ==> x in xs;
      GatherKeeps(piece, xs[1..], p);
    }
  }

  /**
   * The held_items comprehension: in input order, every entry with a
   * positive chance and a known item becomes {item, percentChance / 100};
   * the first malformed entry raises KeyError.
   */
  function HeldItems(mapping: ItemMapping, items: seq<HeldItem>): (r: Result<seq<HeldProbability>, PyError>)
    ensures r.Ok? ==> |r.value| <= |items|
    ensures r.Ok? ==> forall h :: h in r.value ==> h.item in mapping.Values && 0.0 < h.probability
  {
    GatherKeeps(it => HeldResult(mapping, it), items, (h: HeldProbability) => h.item in mapping.Values && 0.0 < h.probability);
    Gather(it => HeldResult(mapping, it), items)
  }

  /** The comprehension raises exactly when some entry is malformed, always with KeyError. */
  lemma HeldItemsFail(mapping: ItemMapping, items: seq<HeldItem>)
    ensures HeldItems(mapping, items).Err? <==> exists i :: 0 <= i < |items| && Malformed(items[i])
    ensures HeldItems(mapping, items).Err? ==> HeldItems(mapping, items).error == KeyError
  {
    GatherFails(it => HeldResult(mapping, it), items);
  }

  /** One entry on its own: kept as {item, chance / 100}, or dropped. */
  lemma HeldItemSingle(mapping: ItemMapping, it: HeldItem)
    requires !Malformed(it)
    ensures Kept(mapping, it) ==>
      HeldItems(mapping, [it]) == Ok([HeldProbability(MapItem(mapping, it.itemId.value).value, it.percentChance.value / 100.0)])
    ensures !Kept(mapping, it) ==> HeldItems(mapping, [it]) == Ok([])
  {
    var piece := (x: HeldItem) => HeldResult(mapping, x);
    assert [it][1..] == [];
    assert piece([it][0]) == Ok(HeldEntry(mapping, it));
    assert Gather(piece, [it][1..]) == Ok([]);
    assert HeldEntry(mapping, it) + [] == HeldEntry(mapping, it);
  }

  /** The comprehension keeps input order: the items of a + b are the items of a followed by those of b. */
  lemma HeldItemsAppend(mapping: ItemMapping, a: seq<HeldItem>, b: seq<HeldItem>)
    requires HeldItems(mapping, a).Ok? && HeldItems(mapping, b).Ok?
    ensures HeldItems(mapping, a + b) == Ok(HeldItems(mapping, a).value + HeldItems(mapping, b).value)
  {
    GatherAppend(it => HeldResult(mapping, it), a, b);
  }

  /** Entries without a positive chance never contribute, whatever their item. */
  lemma {:induction false} HeldItemsZeroChance(mapping: ItemMapping, items: seq<HeldItem>)
    requires forall i :: 0 <= i < |items| ==> items[i].percentChance.Some? && items[i].percentChance.value <= 0.0
    ensures HeldItems(mapping, items) == Ok([])
    decreases |items|
  {
    if items != [] {
      HeldItemsZeroChance(mapping, items[1..]);
    }
  }

  // ---------------------------------------------------- derived numbers

  /** female_probability: -1 stays the "genderless" sentinel, otherwise 1 - male. */
  function FemaleProbability(male: real): (r: real) {
    if male != -1.0 then 1.0 - male else -1.0
  }

  /** male_percent: malePercent / 100, keeping -1 as the sentinel. */
  function MaleChance(malePercent: real): (r: real) {
    if malePercent != -1.0 then malePercent / 100.0 else -1.0
  }

  /** For the chances a species can have, female and male chances sum to one; the sentinel passes through. */
  lemma GenderChances(malePercent: real)
    ensures malePercent == -1.0 ==> FemaleProbability(MaleChance(malePercent)) == -1.0
    ensures 0.0 <= malePercent <= 100.0 ==>
      0.0 <= FemaleProbability(MaleChance(malePercent)) <= 1.0 &&
      FemaleProbability(MaleChance(malePercent)) + MaleChance(malePercent) == 1.0
  {
  }

  /** probability: round(rarity / 300, 5). */
  function SpawnProbability(rarity: real): real {
    Round(rarity / MAX_RARITY, RARITY_ROUNDING)
  }

  /** The probability is within half a unit of the fifth decimal of rarity / 300, and grows with the rarity. */
  lemma SpawnProbabilityBounds(rarity: real, other: real)
    ensures rarity / MAX_RARITY - 0.5 / Pow10(RARITY_ROUNDING) as real <= SpawnProbability(rarity)
    ensures SpawnProbability(rarity) <= rarity / MAX_RARITY + 0.5 / Pow10(RARITY_ROUNDING) as real
    ensures rarity <= other ==> SpawnProbability(rarity) <= SpawnProbability(other)
  {
    RoundError(rarity / MAX_RARITY, RARITY_ROUNDING);
    if rarity <= other {
      DivideMonotone(rarity, other, MAX_RARITY);
      RoundMonotone(rarity / MAX_RARITY, other / MAX_RARITY, RARITY_ROUNDING);
    }
  }

  /** A rarity in 0..300 gives a probability in 0..1; 0, 150 and 300 map exactly to 0, 0.5 and 1. */
  lemma SpawnProbabilityRange(rarity: real)
    requires 0.0 <= rarity <= MAX_RARITY
    ensures 0.0 <= SpawnProbability(rarity) <= 1.0
    ensures SpawnProbability(0.0) == 0.0 && SpawnProbability(150.0) == 0.5 && SpawnProbability(300.0) == 1.0
  {
    var p := Pow10(RARITY_ROUNDING) as real;
    assert p == 100000.0;
    RoundScaledExact(0.0, p);
    RoundScaledExact(0.5, p);
    RoundScaledExact(1.0, p);
    SpawnProbabilityBounds(0.0, rarity);
    SpawnProbabilityBounds(rarity, MAX_RARITY);
  }

  // -------------------------------------------------------- spawn entries

  /**
   * One spawn entry of a species' spawn set, reduced to the fields the
   * converter reads; a missing key is None (a missing heldItems list is
   * empty).
   */
  datatype SpawnEntry = SpawnEntry(
    minLevel: Option<Value>,
    maxLevel: Option<Value>,
    heldItems: seq<HeldItem>,
    condition: Option<Constraints>,
    anticondition: Option<Constraints>,
    rarity: Option<real>)

  /** One converted spawn record. */
  datatype SpawnRecord = SpawnRecord(
    form: int,
    minLevel: Value,
    maxLevel: Value,
    heldItems: seq<HeldProbability>,
    femaleProbability: real,
    spawnAreas: seq<int>,
    conditions: seq<ConditionRecord>,
    probability: real)

  /**
   * The record of one entry, its fields evaluated in the order of the dict
   * literal: minLevel, maxLevel, held items, conditions, rarity; the first
   * failure is the error.
   */
  function ConvertEntry(mapping: ItemMapping, male: real, e: SpawnEntry): Result<SpawnRecord, PyError> {
    if e.minLevel.None? || e.maxLevel.None? then Err(KeyError)
    else match HeldItems(mapping, e.heldItems)
      case Err(err) => Err(err)
      case Ok(held) =>
        match ConditionsOf(e.condition, e.anticondition)
        case Err(err) => Err(err)
        case Ok(conds) =>
          if e.rarity.None? then Err(KeyError)
          else Ok(SpawnRecord(0, e.minLevel.value, e.maxLevel.value, held, FemaleProbability(male),
            [SPAWN_AREA], conds, SpawnProbability(e.rarity.value)))
  }

  /**
   * Each item converted in order, its result appended to acc; the first
   * failure is the result of the whole.
   */
  function CollectAll<A, B>(convert: A -> Result<B, PyError>, xs: seq<A>, acc: seq<B>): Result<seq<B>, PyError>
    decreases |xs|
  {
    if xs == [] then Ok(acc)
    else match convert(xs[0])
      case Err(err) => Err(err)
      case Ok(y) => CollectAll(convert, xs[1..], acc + [y])
  }

  /** convert_spawn_info: the records of the entries, in order; the first failing entry's error. */
  function ConvertedEntries(mapping: ItemMapping, male: real, entries: seq<SpawnEntry>): Result<seq<SpawnRecord>, PyError> {
    CollectAll(e => ConvertEntry(mapping, male, e), entries, [])
  }

  /** convert_spawn_info(spawn_info, ...): the loop that appends one record per entry. */
  method ConvertSpawnInfo(mapping: ItemMapping, male: real, entries: seq<SpawnEntry>)
    returns (r: Result<seq<SpawnRecord>, PyError>)
    ensures r == ConvertedEntries(mapping, male, entries)
  {
    var result: seq<SpawnRecord> := [];
    var i := 0;
    while i < |entries|
      invariant 0 <= i <= |entries|
      invariant ConvertedEntries(mapping, male, entries) ==
        CollectAll(e => ConvertEntry(mapping, male, e), entries[i..], result)
    {
      assert entries[i..][1..] == entries[i + 1..];
      var e := entries[i];
      if e.minLevel.None? || e.maxLevel.None? {
        return Err(KeyError);
      }
      var held := HeldItems(mapping, e.heldItems);
      if held.Err? {
        return Err(held.error);
      }
      var conds := GetConditions(e.condition, e.anticondition);
      if conds.Err? {
        return Err(conds.error);
      }
      if e.rarity.None? {
        return Err(KeyError);
      }
      result := result + [SpawnRecord(0, e.minLevel.value, e.maxLevel.value, held.value, FemaleProbability(male),
        [SPAWN_AREA], conds.value, SpawnProbability(e.rarity.value))];
      i := i + 1;
    }
    return Ok(result);
  }

  /** Collecting succeeds exactly when every item converts. */
  lemma {:induction false} CollectAllOk<A, B>(convert: A -> Result<B, PyError>, xs: seq<A>, acc: seq<B>)
    ensures CollectAll(convert, xs, acc).Ok? <==> forall i :: 0 <= i < |xs| ==> convert(xs[i]).Ok?
    decreases |xs|
  {
    if xs != [] {
      var first := convert(xs[0]);
      if first.Ok? {
        CollectAllOk(convert, xs[1..], acc + [first.value]);
        forall i | 0 < i < |xs| ensures xs[i] == xs[1..][i - 1] {}
      }
    }
  }

  /** A successful collection holds acc followed by one result per item, in item order. */
  lemma {:induction false} CollectAllInOrder<A, B>(convert: A -> Result<B, PyError>, xs: seq<A>, acc: seq<B>)
    requires CollectAll(convert, xs, acc).Ok?
    ensures |CollectAll(convert, xs, acc).value| == |acc| + |xs|
    ensures CollectAll(convert, xs, acc).value[..|acc|] == acc
    ensures forall i :: 0 <= i < |xs| ==> convert(xs[i]).Ok?
    ensures forall i :: 0 <= i < |xs| ==> CollectAll(convert, xs, acc).value[|acc| + i] == convert(xs[i]).value
    decreases |xs|
  {
    if xs != [] {
      CollectAllOk(convert, xs, acc);
      var acc' := acc + [convert(xs[0]).value];
      var r := CollectAll(convert, xs[1..], acc').value;
      CollectAllInOrder(convert, xs[1..], acc');
      assert r[..|acc|] == r[..|acc'|][..|acc|];
      assert r[|acc|] == r[..|acc'|][|acc|];
      forall i | 0 < i < |xs|
        ensures r[|acc| + i] == convert(xs[i]).value
      {
        assert xs[i] == xs[1..][i - 1];
        assert r[|acc| + i] == r[|acc'| + (i - 1)];
      }
    }
  }

  /**
   * convert_spawn_info succeeds exactly when every entry converts, and then
   * returns one record per entry, in entry order.
   */
  lemma ConvertedEntriesInOrder(mapping: ItemMapping, male: real, entries: seq<SpawnEntry>)
    ensures ConvertedEntries(mapping, male, entries).Ok? <==>
      forall i :: 0 <= i < |entries| ==> ConvertEntry(mapping, male, entries[i]).Ok?
    ensures ConvertedEntries(mapping, male, entries).Ok? ==>
      |ConvertedEntries(mapping, male, entries).value| == |entries| &&
      forall i :: 0 <= i < |entries| ==>
        ConvertedEntries(mapping, male, entries).value[i] == ConvertEntry(mapping, male, entries[i]).value
  {
    var convert := e => ConvertEntry(mapping, male, e);
    CollectAllOk(convert, entries, []);
    if ConvertedEntries(mapping, male, entries).Ok? {
      CollectAllInOrder(convert, entries, []);
    }
  }

  /**
   * An entry converts exactly when it has both levels and a rarity, its held
   * items are well formed and its conditions resolve; the record then has
   * form 0, the placeholder spawn area, the entry's levels, its held items,
   * the species' female probability, its resolved conditions and its
   * rounded probability.
   */
  lemma ConvertEntryFields(mapping: ItemMapping, male: real, e: SpawnEntry)
    ensures ConvertEntry(mapping, male, e).Ok? <==>
      e.minLevel.Some? && e.maxLevel.Some? && e.rarity.Some? &&
      HeldItems(mapping, e.heldItems).Ok? && ConditionsOf(e.condition, e.anticondition).Ok?
    ensures ConvertEntry(mapping, male, e).Ok? ==>
      ConvertEntry(mapping, male, e).value == SpawnRecord(0, e.minLevel.value, e.maxLevel.value,
        HeldItems(mapping, e.heldItems).value, FemaleProbability(male), [SPAWN_AREA],
        ConditionsOf(e.condition, e.anticondition).value, SpawnProbability(e.rarity.value))
  {
  }

  /** A missing level is reported before anything else, and a missing rarity only once the rest converts. */
  lemma ConvertEntryErrors(mapping: ItemMapping, male: real, e: SpawnEntry)
    ensures e.minLevel.None? || e.maxLevel.None? ==> ConvertEntry(mapping, male, e) == Err(KeyError)
    ensures e.minLevel.Some? && e.maxLevel.Some? && HeldItems(mapping, e.heldItems).Err? ==>
      ConvertEntry(mapping, male, e) == Err(KeyError)
    ensures (e.minLevel.Some? && e.maxLevel.Some? && HeldItems(mapping, e.heldItems).Ok? &&
      ConditionsOf(e.condition, e.anticondition).Err?) ==>
      ConvertEntry(mapping, male, e) == Err(ConditionsOf(e.condition, e.anticondition).error)
  {
    HeldItemsFail(mapping, e.heldItems);
  }

  /** Keys of an entry that the converter reports as unknown, in their order. */
  function UnknownKeys(keys: seq<string>, known: set<string>): (r: seq<string>)
    ensures forall k :: k in r <==> k in keys && k !in known
    ensures |r| <= |keys|
  {
    if keys == [] then []
    else (if keys[0] in known then [] else [keys[0]]) + UnknownKeys(keys[1..], known)
  }

  /** Reporting keeps the order of the keys: the report of a + b is that of a followed by that of b. */
  lemma {:induction false} UnknownKeysAppend(a: seq<string>, b: seq<string>, known: set<string>)
    ensures UnknownKeys(a + b, known) == UnknownKeys(a, known) + UnknownKeys(b, known)
    decreases |a|
  {
    if a == [] {
      assert a + b == b;
    } else {
      assert (a + b)[0] == a[0];
      assert (a + b)[1..] == a[1..] + b;
      UnknownKeysAppend(a[1..], b, known);
    }
  }

  // -------------------------------------------------------- convert_all

  /** The fields of a species' stats file that the converter reads. */
  datatype Stats = Stats(name: string, malePercent: real)

  /** A stats file, with the species id its file name starts with. */
  datatype SpeciesFile = SpeciesFile(id: int, stats: Stats)

  /** A species listed under no_spawns. */
  datatype NoSpawn = NoSpawn(id: int, name: string)

  /** The converter's output document. */
  datatype Output = Output(spawns: map<int, seq<SpawnRecord>>, noSpawns: seq<NoSpawn>, skipped: seq<int>)

  /** What convert_all does with one stats file. */
  datatype Outcome =
    | Dropped     // id 0: ignored
    | Skip        // a skipped species: listed under skipped
    | NoData      // no spawn set file listed: listed under no_spawns
    | Vanished    // listed but no longer present: ignored
    | Convert     // converted into the spawns map

  /** The name of a species' spawn set file: name.title() + ".set.json". */
  function SetFileName(name: string): string {
    Title(name) + SET_SUFFIX
  }

  /**
   * The classification of a stats file, given the listed spawn set file
   * names and the spawn sets that can be read (by file name).
   */
  function Classify(f: SpeciesFile, listed: set<string>, sets: map<string, seq<SpawnEntry>>): Outcome {
    if f.id == 0 then Dropped
    else if Skipped(f.id) then Skip
    else if SetFileName(f.stats.name) !in listed then NoData
    else if SetFileName(f.stats.name) !in sets then Vanished
    else Convert
  }

  /** convert_all over the stats files, in order, from the output so far. */
  function ConversionOf(mapping: ItemMapping, files: seq<SpeciesFile>, listed: set<string>,
    sets: map<string, seq<SpawnEntry>>, out: Output): Result<Output, PyError>
    decreases |files|
  {
    if files == [] then Ok(out)
    else
      var f := files[0];
      match Classify(f, listed, sets)
      case Dropped => ConversionOf(mapping, files[1..], listed, sets, out)
      case Vanished => ConversionOf(mapping, files[1..], listed, sets, out)
      case Skip => ConversionOf(mapping, files[1..], listed, sets, out.(skipped := out.skipped + [f.id]))
      case NoData =>
        ConversionOf(mapping, files[1..], listed, sets, out.(noSpawns := out.noSpawns + [NoSpawn(f.id, f.stats.name)]))
      case Convert =>
        match ConvertedEntries(mapping, MaleChance(f.stats.malePercent), sets[SetFileName(f.stats.name)])
        case Err(e) => Err(e)
        case Ok(records) => ConversionOf(mapping, files[1..], listed, sets, out.(spawns := out.spawns[f.id := records]))
  }

  const EMPTY_OUTPUT := Output(map[], [], [])

  /** convert_all(): the loop over the stats files. */
  method ConvertAll(mapping: ItemMapping, files: seq<SpeciesFile>, listed: set<string>, sets: map<string, seq<SpawnEntry>>)
    returns (r: Result<Output, PyError>)
    ensures r == ConversionOf(mapping, files, listed, sets, EMPTY_OUTPUT)
  {
    var spawns: map<int, seq<SpawnRecord>> := map[];
    var skipped: seq<int> := [];
    var withoutSpawn: seq<NoSpawn> := [];
    var i := 0;
    while i < |files|
      invariant 0 <= i <= |files|
      invariant ConversionOf(mapping, files, listed, sets, EMPTY_OUTPUT) ==
        ConversionOf(mapping, files[i..], listed, sets, Output(spawns, withoutSpawn, skipped))
    {
      assert files[i..][1..] == files[i + 1..];
      var f := files[i];
      i := i + 1;
      if f.id == 0 {
        continue;
      }
      if Skipped(f.id) {
        skipped := skipped + [f.id];
        continue;
      }
      var setName := Title(f.stats.name) + SET_SUFFIX;
      if setName !in listed {
        withoutSpawn := withoutSpawn + [NoSpawn(f.id, f.stats.name)];
        continue;
      }
      if setName !in sets {
        continue;
      }
      var records := ConvertSpawnInfo(mapping, MaleChance(f.stats.malePercent), sets[setName]);
      if records.Err? {
        return Err(records.error);
      }
      spawns := spawns[f.id := records.value];
    }
    return Ok(Output(spawns, withoutSpawn, skipped));
  }

  // ----------------------------------------------------------- properties

  /** The ids of the skipped species among the files, in order. */
  function SkippedIds(files: seq<SpeciesFile>): seq<int>
    decreases |files|
  {
    if files == [] then []
    else (if files[0].id != 0 && Skipped(files[0].id) then [files[0].id] else []) + SkippedIds(files[1..])
  }

  /** The species among the files that have no listed spawn set, in order. */
  function NoSpawnList(files: seq<SpeciesFile>, listed: set<string>, sets: map<string, seq<SpawnEntry>>): seq<NoSpawn>
    decreases |files|
  {
    if files == [] then []
    else
      var here := if Classify(files[0], listed, sets) == NoData then [NoSpawn(files[0].id, files[0].stats.name)] else [];
      here + NoSpawnList(files[1..], listed, sets)
  }

  /**
   * The records stored under id k were already in out, or are the
   * conversion of the spawn set of a converted file with that id.
   */
  predicate ConvertedFrom(mapping: ItemMapping, files: seq<SpeciesFile>, listed: set<string>,
    sets: map<string, seq<SpawnEntry>>, out: Output, k: int, records: seq<SpawnRecord>)
  {
    (k in out.spawns && records == out.spawns[k]) ||
    exists f :: f in files && f.id == k && Classify(f, listed, sets) == Convert &&
      ConvertedEntries(mapping, MaleChance(f.stats.malePercent), sets[SetFileName(f.stats.name)]) == Ok(records)
  }

  /** The output after the first file, where the conversion goes on from. */
  function Step(mapping: ItemMapping, f: SpeciesFile, listed: set<string>, sets: map<string, seq<SpawnEntry>>,
    out: Output): Output
    requires Classify(f, listed, sets) == Convert ==>
      ConvertedEntries(mapping, MaleChance(f.stats.malePercent), sets[SetFileName(f.stats.name)]).Ok?
  {
    match Classify(f, listed, sets)
    case Skip => out.(skipped := out.skipped + [f.id])
    case NoData => out.(noSpawns := out.noSpawns + [NoSpawn(f.id, f.stats.name)])
    case Convert =>
      out.(spawns := out.spawns[f.id :=
        ConvertedEntries(mapping, MaleChance(f.stats.malePercent), sets[SetFileName(f.stats.name)]).value])
    case _ => out
  }

  /** A successful conversion goes on from the output after the first file. */
  lemma ConversionStep(mapping: ItemMapping, files: seq<SpeciesFile>, listed: set<string>,
    sets: map<string, seq<SpawnEntry>>, out: Output)
    requires files != [] && ConversionOf(mapping, files, listed, sets, out).Ok?
    ensures Classify(files[0], listed, sets) == Convert ==>
      ConvertedEntries(mapping, MaleChance(files[0].stats.malePercent), sets[SetFileName(files[0].stats.name)]).Ok?
    ensures ConversionOf(mapping, files, listed, sets, out) ==
      ConversionOf(mapping, files[1..], listed, sets, Step(mapping, files[0], listed, sets, out))
  {
  }

  /** The skipped list is the skipped species, in file order. */
  lemma {:induction false} ConversionSkipped(mapping: ItemMapping, files: seq<SpeciesFile>, listed: set<string>,
    sets: map<string, seq<SpawnEntry>>, out: Output)
    requires ConversionOf(mapping, files, listed, sets, out).Ok?
    ensures ConversionOf(mapping, files, listed, sets, out).value.skipped == out.skipped + SkippedIds(files)
    decreases |files|
  {
    if files != [] {
      ConversionStep(mapping, files, listed, sets, out);
      var next := Step(mapping, files[0], listed, sets, out);
      ConversionSkipped(mapping, files[1..], listed, sets, next);
      assert next.skipped == out.skipped + SkippedIds([files[0]]);
      assert SkippedIds(files) == SkippedIds([files[0]]) + SkippedIds(files[1..]);
    }
  }

  /** The no_spawns list is the species without a listed spawn set, in file order. */
  lemma {:induction false} ConversionNoSpawns(mapping: ItemMapping, files: seq<SpeciesFile>, listed: set<string>,
    sets: map<string, seq<SpawnEntry>>, out: Output)
    requires ConversionOf(mapping, files, listed, sets, out).Ok?
    ensures ConversionOf(mapping, files, listed, sets, out).value.noSpawns == out.noSpawns + NoSpawnList(files, listed, sets)
    decreases |files|
  {
    if files != [] {
      ConversionStep(mapping, files, listed, sets, out);
      var next := Step(mapping, files[0], listed, sets, out);
      ConversionNoSpawns(mapping, files[1..], listed, sets, next);
      assert next.noSpawns == out.noSpawns + NoSpawnList([files[0]], listed, sets);
      assert NoSpawnList(files, listed, sets) == NoSpawnList([files[0]], listed, sets) + NoSpawnList(files[1..], listed, sets);
    }
  }

  /** Every converted species gets an entry in the spawns map, and entries are never removed. */
  lemma {:induction false} ConversionKeys(mapping: ItemMapping, files: seq<SpeciesFile>, listed: set<string>,
    sets: map<string, seq<SpawnEntry>>, out: Output)
    requires ConversionOf(mapping, files, listed, sets, out).Ok?
    ensures out.spawns.Keys <= ConversionOf(mapping, files, listed, sets, out).value.spawns.Keys
    ensures forall f :: f in files && Classify(f, listed, sets) == Convert ==>
      f.id in ConversionOf(mapping, files, listed, sets, out).value.spawns
    decreases |files|
  {
    if files != [] {
      assert files == [files[0]] + files[1..];
      ConversionStep(mapping, files, listed, sets, out);
      ConversionKeys(mapping, files[1..], listed, sets, Step(mapping, files[0], listed, sets, out));
    }
  }

  /** The records stored under an id are those converted from a spawn set of a file with that id. */
  lemma {:induction false} ConversionValues(mapping: ItemMapping, files: seq<SpeciesFile>, listed: set<string>,
    sets: map<string, seq<SpawnEntry>>, out: Output)
    requires ConversionOf(mapping, files, listed, sets, out).Ok?
    ensures forall k :: k in ConversionOf(mapping, files, listed, sets, out).value.spawns ==>
      ConvertedFrom(mapping, files, listed, sets, out, k, ConversionOf(mapping, files, listed, sets, out).value.spawns[k])
    decreases |files|
  {
    if files != [] {
      assert files == [files[0]] + files[1..];
      ConversionStep(mapping, files, listed, sets, out);
      ConversionValues(mapping, files[1..], listed, sets, Step(mapping, files[0], listed, sets, out));
    }
  }

  /** convert_all fails exactly when the spawn set of some converted species fails to convert. */
  lemma {:induction false} ConversionOk(mapping: ItemMapping, files: seq<SpeciesFile>, listed: set<string>,
    sets: map<string, seq<SpawnEntry>>, out: Output)
    ensures ConversionOf(mapping, files, listed, sets, out).Ok? <==>
      forall f :: f in files && Classify(f, listed, sets) == Convert ==>
        ConvertedEntries(mapping, MaleChance(f.stats.malePercent), sets[SetFileName(f.stats.name)]).Ok?
    decreases |files|
  {
    if files != [] {
      var f := files[0];
      var rest := files[1..];
      assert files == [f] + rest;
      var convert := Classify(f, listed, sets) == Convert;
      var conv := if convert then ConvertedEntries(mapping, MaleChance(f.stats.malePercent), sets[SetFileName(f.stats.name)])
        else Ok([]);
      if conv.Ok? {
        var next := match Classify(f, listed, sets)
          case Skip => out.(skipped := out.skipped + [f.id])
          case NoData => out.(noSpawns := out.noSpawns + [NoSpawn(f.id, f.stats.name)])
          case Convert => out.(spawns := out.spawns[f.id := conv.value])
          case _ => out;
        assert ConversionOf(mapping, files, listed, sets, out) == ConversionOf(mapping, rest, listed, sets, next);
        ConversionOk(mapping, rest, listed, sets, next);
      }
    }
  }

  /**
   * convert_all sorts the species: id 0 appears nowhere; a skipped id only
   * under skipped; a species without a listed spawn set only under
   * no_spawns, as {id, name}; the spawns map holds every converted id, with
   * the records converted from a spawn set of that id.
   */
  lemma ConvertAllSorts(mapping: ItemMapping, files: seq<SpeciesFile>, listed: set<string>, sets: map<string, seq<SpawnEntry>>)
    requires ConversionOf(mapping, files, listed, sets, EMPTY_OUTPUT).Ok?
    ensures var r := ConversionOf(mapping, files, listed, sets, EMPTY_OUTPUT).value;
      r.skipped == SkippedIds(files) && r.noSpawns == NoSpawnList(files, listed, sets) &&
      (forall k :: k in r.spawns ==> k != 0 && !Skipped(k)) &&
      (forall id :: id in r.skipped ==> id != 0 && Skipped(id)) &&
      (forall n :: n in r.noSpawns ==> n.id != 0 && !Skipped(n.id)) &&
      (forall f :: f in files && Classify(f, listed, sets) == Convert ==> f.id in r.spawns) &&
      (forall k :: k in r.spawns ==> ConvertedFrom(mapping, files, listed, sets, EMPTY_OUTPUT, k, r.spawns[k]))
  {
    ConversionSkipped(mapping, files, listed, sets, EMPTY_OUTPUT);
    ConversionNoSpawns(mapping, files, listed, sets, EMPTY_OUTPUT);
    ConversionKeys(mapping, files, listed, sets, EMPTY_OUTPUT);
    ConversionValues(mapping, files, listed, sets, EMPTY_OUTPUT);
    SkippedIdsAreSkipped(files);
    NoSpawnListNotSkipped(files, listed, sets);
  }

  /** The skipped list holds the skipped ids of the files and nothing else. */
  lemma {:induction false} SkippedIdsAreSkipped(files: seq<SpeciesFile>)
    ensures forall id :: id in SkippedIds(files) <==>
      (id != 0 && Skipped(id) && exists f :: f in files && f.id == id)
    decreases |files|
  {
    if files != [] {
      SkippedIdsAreSkipped(files[1..]);
      assert files == [files[0]] + files[1..];
    }
  }

  /** Every no_spawns entry is a species that is neither dropped nor skipped and has no listed spawn set. */
  lemma {:induction false} NoSpawnListNotSkipped(files: seq<SpeciesFile>, listed: set<string>, sets: map<string, seq<SpawnEntry>>)
    ensures forall n :: n in NoSpawnList(files, listed, sets) ==>
      n.id != 0 && !Skipped(n.id) && SetFileName(n.name) !in listed
    decreases |files|
  {
    if files != [] {
      NoSpawnListNotSkipped(files[1..], listed, sets);
    }
  }
}
