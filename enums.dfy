/**
 * The closed code sets of the canonical schema (the IntEnum classes of
 * common.py) and the resolution of a value against one of them (`to_enum`).
 */
module Enums {
  import opened Wrappers
  import opened Builtins

  /**
   * A closed IntEnum given by its member names in declaration order:
   * member k, for 1 <= k <= |names|, is named names[k - 1]. Ordinals are
   * therefore dense and 1-based, as `enum.auto()` assigns them.
   */
  datatype EnumType = EnumType(names: seq<string>)

  predicate IsMember(t: EnumType, k: int) {
    1 <= k <= |t.names|
  }

  /** Member names are distinct upper-case identifiers, so a name resolves to one member and never reads as a number. */
  predicate WellFormed(t: EnumType) {
    Distinct(t.names) && Capitalised(t.names)
  }

  predicate Distinct(names: seq<string>) {
    forall i, j :: 0 <= i < j < |names| ==> names[i] != names[j]
  }

  predicate Capitalised(names: seq<string>) {
    forall i :: 0 <= i < |names| ==> names[i] != [] && IsUpper(names[i][0])
  }

  /** SpawnType, declared in four runs by first letter: A-D, F-L, M-O and P-W. */
  const SpawnType := EnumType(SPAWN_A_TO_D + SPAWN_F_TO_L + SPAWN_M_TO_O + SPAWN_P_TO_W)
  const SPAWN_A_TO_D := ["ANCIENT", "ARCTIC", "BEACH", "CAVE", "CEMETERY", "COMMERCIAL", "CONSTRUCTION_SITE",
    "CORAL_REEF", "DESERT", "DOCK"]
  const SPAWN_F_TO_L := ["FARMLAND", "FOREST", "GARBAGE", "GLACIER", "GRASS", "HEATH", "HILLS", "INDUSTRIAL",
    "LAKE", "LIBRARY"]
  const SPAWN_M_TO_O := ["MEDICAL", "MILITARY", "MEADOW", "MOUNTAIN", "MOUNTAIN_TOP", "NATURE_RESERVE", "OCEAN"]
  const SPAWN_P_TO_W := ["PARK", "PLAYA", "PLAYGROUND", "POWER", "QUARRY", "RESIDENTIAL", "RIVER", "SAVANNA",
    "SPORTS", "URBAN", "VULCAN", "WETLAND", "WOOD"]

  /** POIType, declared in three runs: the general places, the shops and the arenas. */
  const POIType := EnumType(POI_GENERAL + POI_SHOPS + POI_ARENAS)
  const POI_GENERAL := ["NONE", "POKE_CENTER", "PROFESSOR", "ARCHAEOLOGIST", "ATTACK_TUTOR", "BREEDING", "SAFARI",
    "DOJO", "SMITH", "STADIUM", "THEATRE"]
  const POI_SHOPS := ["SHOP", "SHOP_BALLS", "SHOP_BUILDING", "SHOP_BOOSTS", "SHOP_FOOD", "SHOP_FURNITURE",
    "SHOP_HEALS", "SHOP_LETTERS", "SHOP_TM", "SHOP_TOOLS"]
  const POI_ARENAS := ["ARENA_NORMAL", "ARENA_FIRE", "ARENA_WATER", "ARENA_GRASS", "ARENA_ELECTRIC", "ARENA_ICE",
    "ARENA_FIGHTING", "ARENA_POISON", "ARENA_GROUND", "ARENA_FLYING", "ARENA_PSYCHIC", "ARENA_BUG", "ARENA_ROCK",
    "ARENA_GHOST", "ARENA_DARK", "ARENA_DRAGON", "ARENA_STEEL", "ARENA_FAIRY"]

  const StreetType := EnumType(["HIGHWAY", "STREET", "PATH", "RAILS", "WATER"])

  const AreaType := EnumType([
    "UNDEFINED", "SAND", "STONE", "WATER", "ICE", "FOREST", "FARMLAND", "MEADOW", "URBAN",
    "VULCAN", "MILITARY"])

  const MoonType := EnumType([
    "FULL", "DECREASING", "NEW", "INCREASING", "LUNAR_ECLIPSE", "SUN_ECLIPSE", "BLOODY"])

  const TimeType := EnumType(["MORNING", "NOON", "EVENING", "NIGHT"])

  const WeatherType := EnumType([
    "CLEAR", "PARTY_CLOUDY", "CLOUDY", "WINDY", "FOGGY", "RAINY", "SNOWY", "SANDSTORM",
    "THUNDERSTORM", "VOLCANIC_ERUPTION", "EXTREME_WARNING"])

  const TemperatureType := EnumType(["FREEZING", "COLD", "NORMAL", "WARM", "HOT"])

  // Ordinals of the members the converter's tables name.
  const MORNING := 1
  const NOON := 2
  const EVENING := 3
  const NIGHT := 4

  const FULL := 1
  const DECREASING := 2
  const NEW := 3
  const INCREASING := 4

  /** The position of the first entry equal to s, if any. */
  function IndexOf(names: seq<string>, s: string): (r: Option<nat>)
    ensures r.Some? ==> r.value < |names| && names[r.value] == s
    ensures r.Some? ==> forall j :: 0 <= j < r.value ==> names[j] != s
    ensures r.None? ==> forall j :: 0 <= j < |names| ==> names[j] != s
  {
    if names == [] then None
    else if names[0] == s then Some(0)
    else match IndexOf(names[1..], s)
      case Some(k) => Some(k + 1)
      case None => None
  }

  /** What `to_enum` does once both lookups have failed: raise in strict mode, else return None. */
  function Unresolved(strict: bool): Result<Option<int>, PyError> {
    if strict then Err(ValueError) else Ok(None)
  }

  /**
   * to_enum(v, t, strict): Ok(Some(k)) for member k, Ok(None) where the
   * source returns None, Err(e) where it raises e. The value is first read
   * as an ordinal through int(); only when int() raises ValueError is it
   * looked up as a member name. An ordinal that is no member makes t(i)
   * raise ValueError, and the name lookup t[i] that follows, now with the
   * int, raises KeyError: the value is unresolved. int(None) raises
   * TypeError, which the `except ValueError` does not catch.
   */
  function ToEnum(v: Value, t: EnumType, strict: bool): (r: Result<Option<int>, PyError>)
    ensures r.Ok? && r.value.Some? ==> IsMember(t, r.value.value)
    ensures r == Ok(None) ==> !strict
    ensures r.Err? ==> (r.error == TypeError && v.Null?) || (r.error == ValueError && strict)
  {
    match PyInt(v)
    case Ok(i) => if IsMember(t, i) then Ok(Some(i)) else Unresolved(strict)
    case Err(e) =>
      if e != ValueError then Err(e)
      else if v.Str? && IndexOf(t.names, v.s).Some? then Ok(Some(IndexOf(t.names, v.s).value + 1))
      else Unresolved(strict)
  }

  /** Every member resolves from its ordinal. */
  lemma ToEnumOrdinal(t: EnumType, k: int, strict: bool)
    requires IsMember(t, k)
    ensures ToEnum(Int(k), t, strict) == Ok(Some(k))
  {
  }

  /** Every member resolves from its name. */
  lemma ToEnumName(t: EnumType, k: int, strict: bool)
    requires WellFormed(t) && IsMember(t, k)
    ensures ToEnum(Str(t.names[k - 1]), t, strict) == Ok(Some(k))
  {
    var name := t.names[k - 1];
    ParseIntRejectsLetterStart(name);
    var found := IndexOf(t.names, name);
    assert found.Some? && found.value == k - 1;
  }

  /** An integer outside 1..|T| is unresolved: None, or ValueError in strict mode. */
  lemma ToEnumOutOfRange(i: int, t: EnumType, strict: bool)
    requires !IsMember(t, i)
    ensures ToEnum(Int(i), t, strict) == Unresolved(strict)
  {
  }

  /** A value that int() accepts resolves exactly as that ordinal does; its text is never read as a name. */
  lemma ToEnumOrdinalWins(v: Value, t: EnumType, strict: bool)
    requires PyInt(v).Ok?
    ensures ToEnum(v, t, strict) == ToEnum(Int(PyInt(v).value), t, strict)
  {
  }

  /** Strict and lenient resolution differ only where the lenient one returns None. */
  lemma ToEnumStrictness(v: Value, t: EnumType)
    ensures ToEnum(v, t, false) == Ok(None) <==> ToEnum(v, t, true) == Err(ValueError)
    ensures ToEnum(v, t, false) != Ok(None) ==> ToEnum(v, t, true) == ToEnum(v, t, false)
  {
  }

  /** For a well-formed enum, a value resolves to member k exactly when it is k's ordinal or k's name. */
  lemma ToEnumExactly(v: Value, t: EnumType, strict: bool, k: int)
    requires WellFormed(t)
    ensures ToEnum(v, t, strict) == Ok(Some(k)) <==>
      IsMember(t, k) && (PyInt(v) == Ok(k) || v == Str(t.names[k - 1]))
  {
    if IsMember(t, k) && v == Str(t.names[k - 1]) {
      ToEnumName(t, k, strict);
    }
    if ToEnum(v, t, strict) == Ok(Some(k)) && PyInt(v).Err? {
      var idx := IndexOf(t.names, v.s);
      assert idx.Some? && idx.value + 1 == k;
    }
  }

  /** The code sets of the schema are well formed. */
  lemma TimeWellFormed() ensures WellFormed(TimeType) {}
  lemma TemperatureWellFormed() ensures WellFormed(TemperatureType) {}
  lemma MoonWellFormed() ensures WellFormed(MoonType) {}
  lemma StreetWellFormed() ensures WellFormed(StreetType) {}

  lemma AreaWellFormed() ensures WellFormed(AreaType) {
    AreaNamesDistinct();
    AreaNamesCapitalised();
  }

  lemma AreaNamesDistinct() ensures Distinct(AreaType.names) {}
  lemma AreaNamesCapitalised() ensures Capitalised(AreaType.names) {}

  lemma WeatherWellFormed() ensures WellFormed(WeatherType) {
    WeatherNamesDistinct();
    WeatherNamesCapitalised();
  }

  lemma WeatherNamesDistinct() ensures Distinct(WeatherType.names) {}
  lemma WeatherNamesCapitalised() ensures Capitalised(WeatherType.names) {}

  /** Two runs of distinct names stay distinct when joined if a key holds for every name of the second run and for none of the first. */
  lemma DistinctJoin(a: seq<string>, b: seq<string>, key: string -> bool)
    requires Distinct(a) && Distinct(b)
    requires forall i :: 0 <= i < |a| ==> !key(a[i])
    requires forall j :: 0 <= j < |b| ==> key(b[j])
    ensures Distinct(a + b)
  {
    var ab := a + b;
    forall i, j | 0 <= i < j < |ab| ensures ab[i] != ab[j] {
      if i < |a| <= j {
        assert !key(ab[i]) && key(ab[j]);
      }
    }
  }

  /** Joined runs of capitalised names are capitalised. */
  lemma CapitalisedJoin(a: seq<string>, b: seq<string>)
    requires Capitalised(a) && Capitalised(b)
    ensures Capitalised(a + b)
  {
    forall i | 0 <= i < |a + b| ensures (a + b)[i] != [] && IsUpper((a + b)[i][0]) {
      if i >= |a| {
        assert (a + b)[i] == b[i - |a|];
      }
    }
  }

  /** The first letter is at least c. */
  predicate StartsFrom(c: char, s: string) { s != [] && s[0] >= c }

  lemma SpawnWellFormed() ensures WellFormed(SpawnType) {
    var ad, fl, mo, pw := SPAWN_A_TO_D, SPAWN_F_TO_L, SPAWN_M_TO_O, SPAWN_P_TO_W;
    SpawnRunsDistinct();
    SpawnRunsCapitalised();
    SpawnRunsOrdered();
    assert forall i :: 0 <= i < |ad + fl| ==> !StartsFrom('M', (ad + fl)[i]);
    assert forall i :: 0 <= i < |ad + fl + mo| ==> !StartsFrom('P', (ad + fl + mo)[i]);
    DistinctJoin(ad, fl, s => StartsFrom('F', s));
    DistinctJoin(ad + fl, mo, s => StartsFrom('M', s));
    DistinctJoin(ad + fl + mo, pw, s => StartsFrom('P', s));
    CapitalisedJoin(ad, fl);
    CapitalisedJoin(ad + fl, mo);
    CapitalisedJoin(ad + fl + mo, pw);
  }

  lemma SpawnRunsDistinct()
    ensures Distinct(SPAWN_A_TO_D) && Distinct(SPAWN_F_TO_L) && Distinct(SPAWN_M_TO_O) && Distinct(SPAWN_P_TO_W)
  {
    SpawnRunDistinct1();
    SpawnRunDistinct2();
    SpawnRunDistinct3();
    SpawnRunDistinct4();
  }

  lemma SpawnRunDistinct1() ensures Distinct(SPAWN_A_TO_D) {}
  lemma SpawnRunDistinct2() ensures Distinct(SPAWN_F_TO_L) {}
  lemma SpawnRunDistinct3() ensures Distinct(SPAWN_M_TO_O) {}
  lemma SpawnRunDistinct4() ensures Distinct(SPAWN_P_TO_W) {}

  lemma SpawnRunsCapitalised()
    ensures Capitalised(SPAWN_A_TO_D) && Capitalised(SPAWN_F_TO_L)
    ensures Capitalised(SPAWN_M_TO_O) && Capitalised(SPAWN_P_TO_W)
  {
  }

  /** Each run starts at a later letter than every name before it. */
  lemma SpawnRunsOrdered()
    ensures forall i :: 0 <= i < |SPAWN_A_TO_D| ==> !StartsFrom('F', SPAWN_A_TO_D[i])
    ensures forall i :: 0 <= i < |SPAWN_F_TO_L| ==> StartsFrom('F', SPAWN_F_TO_L[i]) && !StartsFrom('M', SPAWN_F_TO_L[i])
    ensures forall i :: 0 <= i < |SPAWN_M_TO_O| ==> StartsFrom('M', SPAWN_M_TO_O[i]) && !StartsFrom('P', SPAWN_M_TO_O[i])
    ensures forall i :: 0 <= i < |SPAWN_P_TO_W| ==> StartsFrom('P', SPAWN_P_TO_W[i])
  {
  }

  /** A shop's name starts with "SH". */
  predicate IsShop(s: string) { |s| >= 2 && s[0] == 'S' && s[1] == 'H' }

  /** An arena's name starts with 'A' and has '_' at position 5. */
  predicate IsArena(s: string) { |s| >= 6 && s[0] == 'A' && s[5] == '_' }

  lemma POIWellFormed() ensures WellFormed(POIType) {
    var g, sh, ar := POI_GENERAL, POI_SHOPS, POI_ARENAS;
    POIGeneralNames();
    POIShopNames();
    POIArenaNames();
    assert forall i :: 0 <= i < |g + sh| ==> !IsArena((g + sh)[i]);
    DistinctJoin(g, sh, IsShop);
    DistinctJoin(g + sh, ar, IsArena);
    CapitalisedJoin(g, sh);
    CapitalisedJoin(g + sh, ar);
  }

  lemma POIGeneralNames()
    ensures Distinct(POI_GENERAL) && Capitalised(POI_GENERAL)
    ensures forall i :: 0 <= i < |POI_GENERAL| ==> !IsShop(POI_GENERAL[i]) && !IsArena(POI_GENERAL[i])
  {
    POIGeneralDistinct();
  }

  lemma POIGeneralDistinct() ensures Distinct(POI_GENERAL) {}

  lemma POIShopNames()
    ensures Distinct(POI_SHOPS) && Capitalised(POI_SHOPS)
    ensures forall i :: 0 <= i < |POI_SHOPS| ==> IsShop(POI_SHOPS[i]) && !IsArena(POI_SHOPS[i])
  {
    POIShopsDistinct();
  }

  lemma POIShopsDistinct() ensures Distinct(POI_SHOPS) {}

  lemma POIArenaNames()
    ensures Distinct(POI_ARENAS) && Capitalised(POI_ARENAS)
    ensures forall i :: 0 <= i < |POI_ARENAS| ==> IsArena(POI_ARENAS[i])
  {
    POIArenasDistinct();
  }

  lemma POIArenasDistinct() ensures Distinct(POI_ARENAS) {}

  /** Every member of every code set of the schema resolves from its name, in both modes. */
  lemma SchemaNamesResolve(t: EnumType, k: int, strict: bool)
    requires t == SpawnType || t == POIType || t == StreetType || t == AreaType ||
      t == MoonType || t == TimeType || t == WeatherType || t == TemperatureType
    requires IsMember(t, k)
    ensures ToEnum(Str(t.names[k - 1]), t, strict) == Ok(Some(k))
  {
    if t == SpawnType { SpawnWellFormed(); }
    else if t == POIType { POIWellFormed(); }
    else if t == StreetType { StreetWellFormed(); }
    else if t == AreaType { AreaWellFormed(); }
    else if t == MoonType { MoonWellFormed(); }
    else if t == TimeType { TimeWellFormed(); }
    else if t == WeatherType { WeatherWellFormed(); }
    else { TemperatureWellFormed(); }
    ToEnumName(t, k, strict);
  }

  /** Ordinals follow declaration order: MORNING is 1 and NIGHT is 4, FREEZING is 1 and HOT is 5. */
  lemma DeclarationOrder()
    ensures ToEnum(Str("MORNING"), TimeType, true) == Ok(Some(MORNING))
    ensures ToEnum(Str("NIGHT"), TimeType, true) == Ok(Some(NIGHT))
    ensures ToEnum(Str("FREEZING"), TemperatureType, true) == Ok(Some(1))
    ensures ToEnum(Str("HOT"), TemperatureType, true) == Ok(Some(5))
  {
    TimeWellFormed();
    TemperatureWellFormed();
    ToEnumName(TimeType, MORNING, true);
    ToEnumName(TimeType, NIGHT, true);
    ToEnumName(TemperatureType, 1, true);
    ToEnumName(TemperatureType, 5, true);
  }
}
