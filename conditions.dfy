/**
 * Resolution of a spawn entry's condition and anticondition into one
 * condition record (_get_conditions in conv_spawn_relations.py): set algebra
 * over the time, temperature and weather axes, each starting from the full
 * axis or from the union of the buckets listed in the condition, then losing
 * the codes of the buckets listed in the anticondition.
 */
module Conditions {
  import opened Wrappers
  import opened Builtins
  import opened Enums

  /** Source time buckets and the TimeType codes each one covers. */
  const TIMES_MAPPING: map<string, seq<int>> := map[
    "DAWN" := [NIGHT, MORNING],
    "MORNING" := [MORNING],
    "DAY" := [MORNING, NOON],
    "MIDDAY" := [NOON],
    "AFTERNOON" := [NOON, EVENING],
    "DUSK" := [EVENING],
    "NIGHT" := [EVENING, NIGHT],
    "MIDNIGHT" := [NIGHT]]

  /** Source moon phases and the MoonType codes each one covers (a static table the converter does not consult). */
  const MOON_MAPPING: map<int, seq<int>> := map[
    0 := [FULL],
    1 := [FULL, DECREASING],
    2 := [DECREASING],
    3 := [DECREASING, NEW],
    4 := [NEW],
    5 := [NEW, INCREASING],
    6 := [INCREASING],
    7 := [INCREASING, FULL]]

  /** Source weather buckets: none of them is mapped to any WeatherType code yet. */
  const WEATHER_MAPPING: map<string, seq<int>> := map["CLEAR" := [], "RAIN" := [], "STORM" := []]

  const TIME_COUNT := 4
  const TEMPERATURE_COUNT := 5
  const WEATHER_COUNT := 11
  const MOON_COUNT := 7

  /** Placeholder index every converted condition carries. */
  const CONDITION_INDEX := 1337

  /** A condition or anticondition object: each key with the list it holds. */
  type Constraints = map<string, seq<Value>>

  /** One converted condition: the sorted code lists of every axis. */
  datatype ConditionRecord = ConditionRecord(
    index: int,
    modifier: real,
    weathers: seq<int>,
    moons: seq<int>,
    times: seq<int>,
    temperatures: seq<int>)

  function Codes(s: seq<int>): set<int> {
    set x | x in s
  }

  /** The table entries of the buckets are all members of their enum. */
  lemma TablesHoldMembers()
    ensures forall b :: b in TIMES_MAPPING ==> forall c :: c in TIMES_MAPPING[b] ==> IsMember(TimeType, c)
    ensures forall b :: b in WEATHER_MAPPING ==> WEATHER_MAPPING[b] == []
    ensures forall p :: p in MOON_MAPPING ==>
      (1 <= |MOON_MAPPING[p]| <= 2 && forall c :: c in MOON_MAPPING[p] ==> IsMember(MoonType, c))
  {
  }

  // ------------------------------------------------------ bucket tables

  /** Every bucket is text naming a key of the table (anything else is a KeyError when looked up). */
  predicate Known(table: map<string, seq<int>>, buckets: seq<Value>) {
    forall i :: 0 <= i < |buckets| ==> buckets[i].Str? && buckets[i].s in table
  }

  /** The union of the codes of the buckets. */
  function Mapped(table: map<string, seq<int>>, buckets: seq<Value>): set<int>
    requires Known(table, buckets)
    decreases |buckets|
  {
    if buckets == [] then {} else Codes(table[buckets[0].s]) + Mapped(table, buckets[1..])
  }

  /** A code is mapped exactly when one of the buckets lists it. */
  lemma {:induction false} MappedMembers(table: map<string, seq<int>>, buckets: seq<Value>, c: int)
    requires Known(table, buckets)
    ensures c in Mapped(table, buckets) <==> exists i :: 0 <= i < |buckets| && c in table[buckets[i].s]
    decreases |buckets|
  {
    if buckets != [] {
      MappedMembers(table, buckets[1..], c);
      if c in Mapped(table, buckets[1..]) {
        var i :| 0 <= i < |buckets[1..]| && c in table[buckets[1..][i].s];
        assert c in table[buckets[i + 1].s];
      }
      if exists i :: 0 <= i < |buckets| && c in table[buckets[i].s] {
        var i :| 0 <= i < |buckets| && c in table[buckets[i].s];
        if i > 0 {
          assert buckets[1..][i - 1] == buckets[i];
        }
      }
    }
  }

  /** With a known first bucket, the buckets are known exactly when the rest are. */
  lemma KnownTail(table: map<string, seq<int>>, buckets: seq<Value>)
    requires buckets != [] && buckets[0].Str? && buckets[0].s in table
    ensures Known(table, buckets) <==> Known(table, buckets[1..])
  {
    if Known(table, buckets[1..]) {
      forall i | 0 <= i < |buckets| ensures buckets[i].Str? && buckets[i].s in table {
        if i > 0 { assert buckets[i] == buckets[1..][i - 1]; }
      }
    }
  }

  /** `for t in buckets: acc |= set(table[t])`, raising KeyError at the first unknown bucket. */
  function Include(table: map<string, seq<int>>, buckets: seq<Value>, acc: set<int>): Result<set<int>, PyError>
    decreases |buckets|
  {
    if buckets == [] then Ok(acc)
    else if !(buckets[0].Str? && buckets[0].s in table) then Err(KeyError)
    else Include(table, buckets[1..], acc + Codes(table[buckets[0].s]))
  }

  /** `for t in buckets: for e in table[t]: if e in s: s.remove(e)`, raising KeyError at the first unknown bucket. */
  function Exclude(table: map<string, seq<int>>, buckets: seq<Value>, s: set<int>): Result<set<int>, PyError>
    decreases |buckets|
  {
    if buckets == [] then Ok(s)
    else if !(buckets[0].Str? && buckets[0].s in table) then Err(KeyError)
    else Exclude(table, buckets[1..], s - Codes(table[buckets[0].s]))
  }

  /** Including buckets adds exactly their mapped codes; a single unknown bucket makes it raise KeyError. */
  lemma {:induction false} IncludeIsUnion(table: map<string, seq<int>>, buckets: seq<Value>, acc: set<int>)
    ensures Known(table, buckets) ==> Include(table, buckets, acc) == Ok(acc + Mapped(table, buckets))
    ensures !Known(table, buckets) ==> Include(table, buckets, acc) == Err(KeyError)
    decreases |buckets|
  {
    if buckets == [] {
      assert acc + Mapped(table, buckets) == acc;
    } else {
      var b := buckets[0];
      if b.Str? && b.s in table {
        IncludeIsUnion(table, buckets[1..], acc + Codes(table[b.s]));
        KnownTail(table, buckets);
        if Known(table, buckets) {
          assert Mapped(table, buckets) == Codes(table[b.s]) + Mapped(table, buckets[1..]);
          assert acc + Codes(table[b.s]) + Mapped(table, buckets[1..]) == acc + Mapped(table, buckets);
        }
      }
    }
  }

  /** Excluding buckets removes exactly their mapped codes, leaving a subset; a single unknown bucket makes it raise KeyError. */
  lemma {:induction false} ExcludeIsDifference(table: map<string, seq<int>>, buckets: seq<Value>, s: set<int>)
    ensures Known(table, buckets) ==> Exclude(table, buckets, s) == Ok(s - Mapped(table, buckets))
    ensures !Known(table, buckets) ==> Exclude(table, buckets, s) == Err(KeyError)
    ensures Exclude(table, buckets, s).Ok? ==> Exclude(table, buckets, s).value <= s
    decreases |buckets|
  {
    if buckets == [] {
      assert s - Mapped(table, buckets) == s;
    } else {
      var b := buckets[0];
      if b.Str? && b.s in table {
        ExcludeIsDifference(table, buckets[1..], s - Codes(table[b.s]));
        KnownTail(table, buckets);
        if Known(table, buckets) {
          assert Mapped(table, buckets) == Codes(table[b.s]) + Mapped(table, buckets[1..]);
          assert s - Codes(table[b.s]) - Mapped(table, buckets[1..]) == s - Mapped(table, buckets);
        }
      }
    }
  }

  /** Excluding the buckets that were included leaves nothing. */
  lemma IncludeThenExclude(table: map<string, seq<int>>, buckets: seq<Value>)
    requires Known(table, buckets)
    ensures Include(table, buckets, {}).Ok?
    ensures Exclude(table, buckets, Include(table, buckets, {}).value) == Ok({})
  {
    IncludeIsUnion(table, buckets, {});
    assert {} + Mapped(table, buckets) == Mapped(table, buckets);
    ExcludeIsDifference(table, buckets, Mapped(table, buckets));
    assert Mapped(table, buckets) - Mapped(table, buckets) == {};
  }

  /** Codes no bucket maps to are never removed. */
  lemma ExcludeKeepsUnmapped(table: map<string, seq<int>>, buckets: seq<Value>, s: set<int>, c: int)
    requires Known(table, buckets) && c in s
    requires forall i :: 0 <= i < |buckets| ==> c !in table[buckets[i].s]
    ensures Exclude(table, buckets, s).Ok? && c in Exclude(table, buckets, s).value
  {
    ExcludeIsDifference(table, buckets, s);
    MappedMembers(table, buckets, c);
  }

  // -------------------------------------------------------- temperature

  /** `for t in vals: acc.add(to_enum(t, TemperatureType, strict=True))`, raising what to_enum raises. */
  function TemperatureInclude(vals: seq<Value>, acc: set<int>): Result<set<int>, PyError>
    decreases |vals|
  {
    if vals == [] then Ok(acc)
    else match ToEnum(vals[0], TemperatureType, true)
      case Err(e) => Err(e)
      case Ok(m) => TemperatureInclude(vals[1..], if m.Some? then acc + {m.value} else acc)
  }

  /**
   * `for t in vals: if t in s: s.remove(to_enum(t, TemperatureType, strict=True))`:
   * membership is checked on the raw value, so only a number equal to a code
   * in the set triggers the removal.
   */
  function TemperatureExclude(vals: seq<Value>, s: set<int>): Result<set<int>, PyError>
    decreases |vals|
  {
    if vals == [] then Ok(s)
    else if !PyIn(vals[0], s) then TemperatureExclude(vals[1..], s)
    else match ToEnum(vals[0], TemperatureType, true)
      case Err(e) => Err(e)
      case Ok(m) =>
        if m.Some? && m.value in s then TemperatureExclude(vals[1..], s - {m.value}) else Err(KeyError)
  }

  /** Every temperature value names a member, as ordinal or name. */
  predicate Resolvable(vals: seq<Value>) {
    forall i :: 0 <= i < |vals| ==> ToEnum(vals[i], TemperatureType, true).Ok?
  }

  /** The members the values name. */
  function Resolved(vals: seq<Value>): set<int>
    requires Resolvable(vals)
    decreases |vals|
  {
    if vals == [] then {} else {ToEnum(vals[0], TemperatureType, true).value.value} + Resolved(vals[1..])
  }

  /** The codes that the numeric values among vals equal. */
  function NumericKeys(vals: seq<Value>): set<int>
    decreases |vals|
  {
    if vals == [] then {}
    else (if NumericKey(vals[0]).Some? then {NumericKey(vals[0]).value} else {}) + NumericKeys(vals[1..])
  }

  /**
   * Temperature conditions resolve strictly: the set gains exactly the named
   * members, and any value that names no member raises (ValueError, or
   * TypeError for null).
   */
  lemma {:induction false} TemperatureIncludeResolves(vals: seq<Value>, acc: set<int>)
    ensures Resolvable(vals) ==> TemperatureInclude(vals, acc) == Ok(acc + Resolved(vals))
    ensures !Resolvable(vals) ==> TemperatureInclude(vals, acc).Err?
    ensures Resolvable(vals) ==> forall c :: c in Resolved(vals) ==> IsMember(TemperatureType, c)
    decreases |vals|
  {
    if vals == [] {
      assert acc + Resolved(vals) == acc;
    } else {
      var r := ToEnum(vals[0], TemperatureType, true);
      if r.Ok? {
        var k := r.value.value;
        TemperatureIncludeResolves(vals[1..], acc + {k});
        ResolvableTail(vals);
        if Resolvable(vals) {
          assert Resolved(vals) == {k} + Resolved(vals[1..]);
          assert acc + {k} + Resolved(vals[1..]) == acc + Resolved(vals);
        }
      }
    }
  }

  /** With a resolvable first value, the values are resolvable exactly when the rest are. */
  lemma ResolvableTail(vals: seq<Value>)
    requires vals != [] && ToEnum(vals[0], TemperatureType, true).Ok?
    ensures Resolvable(vals) <==> Resolvable(vals[1..])
  {
    var rest := vals[1..];
    if Resolvable(rest) {
      forall i | 0 < i < |vals| ensures ToEnum(vals[i], TemperatureType, true).Ok? {
        assert vals[i] == rest[i - 1];
      }
    }
    if Resolvable(vals) {
      forall i | 0 <= i < |rest| ensures ToEnum(rest[i], TemperatureType, true).Ok? {
        assert rest[i] == vals[i + 1];
      }
    }
  }

  /**
   * A temperature anticondition over a set of members never raises, and it
   * removes exactly the codes that its numeric values equal: names and
   * numeric strings are ignored.
   */
  lemma {:induction false} TemperatureExcludeNumeric(vals: seq<Value>, s: set<int>)
    requires forall c :: c in s ==> IsMember(TemperatureType, c)
    ensures TemperatureExclude(vals, s) == Ok(s - NumericKeys(vals))
    decreases |vals|
  {
    if vals == [] {
      assert s - NumericKeys(vals) == s;
    } else {
      var v := vals[0];
      if PyIn(v, s) {
        var k := NumericKey(v).value;
        NumericKeyConverts(v);
        ToEnumOrdinalWins(v, TemperatureType, true);
        assert ToEnum(v, TemperatureType, true) == Ok(Some(k));
        assert TemperatureExclude(vals, s) == TemperatureExclude(vals[1..], s - {k});
        TemperatureExcludeNumeric(vals[1..], s - {k});
        assert NumericKeys(vals) == {k} + NumericKeys(vals[1..]);
        assert s - {k} - NumericKeys(vals[1..]) == s - NumericKeys(vals);
      } else {
        assert TemperatureExclude(vals, s) == TemperatureExclude(vals[1..], s);
        TemperatureExcludeNumeric(vals[1..], s);
        assert s - NumericKeys(vals[1..]) == s - NumericKeys(vals);
      }
    }
  }

  /** A temperature anticondition given only as names changes nothing. */
  lemma TemperatureNamesIgnored(vals: seq<Value>, s: set<int>)
    requires forall c :: c in s ==> IsMember(TemperatureType, c)
    requires forall i :: 0 <= i < |vals| ==> vals[i].Str?
    ensures TemperatureExclude(vals, s) == Ok(s)
  {
    TemperatureExcludeNumeric(vals, s);
    NoNumericKeys(vals);
  }

  lemma {:induction false} NoNumericKeys(vals: seq<Value>)
    requires forall i :: 0 <= i < |vals| ==> vals[i].Str?
    ensures NumericKeys(vals) == {}
    decreases |vals|
  {
    if vals != [] {
      NoNumericKeys(vals[1..]);
    }
  }

  // --------------------------------------------------------------- axes

  /** The codes of a bucket axis with n members: all of them, or the union of the listed buckets; then minus the excluded ones. */
  function BucketAxis(table: map<string, seq<int>>, n: nat, key: string, cons: Constraints, antis: Constraints)
    : Result<set<int>, PyError>
  {
    var start := if key in cons then Include(table, cons[key], {}) else Ok(AllCodes(n));
    match start
    case Err(e) => Err(e)
    case Ok(s) => if key in antis then Exclude(table, antis[key], s) else Ok(s)
  }

  /** The codes of the temperature axis. */
  function TemperatureAxis(cons: Constraints, antis: Constraints): Result<set<int>, PyError> {
    var start := if "temperatures" in cons then TemperatureInclude(cons["temperatures"], {})
      else Ok(AllCodes(TEMPERATURE_COUNT));
    match start
    case Err(e) => Err(e)
    case Ok(s) => if "temperatures" in antis then TemperatureExclude(antis["temperatures"], s) else Ok(s)
  }

  /** `cons or {}`: a missing (None) or empty section is the empty constraint. */
  function OrEmpty(c: Option<Constraints>): Constraints {
    if c.Some? then c.value else map[]
  }

  /**
   * _get_conditions(cons, antis): the axes are resolved in the order times,
   * temperatures, weathers (the first error wins), and the result is one
   * record with placeholder index 1337, modifier 1.0, every moon phase and
   * each axis sorted.
   */
  function ConditionsOf(cons: Option<Constraints>, antis: Option<Constraints>): Result<seq<ConditionRecord>, PyError> {
    var c, a := OrEmpty(cons), OrEmpty(antis);
    match BucketAxis(TIMES_MAPPING, TIME_COUNT, "times", c, a)
    case Err(e) => Err(e)
    case Ok(times) =>
      match TemperatureAxis(c, a)
      case Err(e) => Err(e)
      case Ok(temperatures) =>
        match BucketAxis(WEATHER_MAPPING, WEATHER_COUNT, "weathers", c, a)
        case Err(e) => Err(e)
        case Ok(weathers) =>
          Ok([ConditionRecord(CONDITION_INDEX, 1.0,
            SortedCodes(weathers, WEATHER_COUNT),
            CodeList(MOON_COUNT),
            SortedCodes(times, TIME_COUNT),
            SortedCodes(temperatures, TEMPERATURE_COUNT))])
  }

  // ------------------------------------------------- the imperative code

  /** The inclusive loop of a bucket axis: `acc = set(); for t in buckets: acc |= set(table[t])`. */
  method UnionBuckets(table: map<string, seq<int>>, buckets: seq<Value>) returns (r: Result<set<int>, PyError>)
    ensures r == Include(table, buckets, {})
  {
    var acc: set<int> := {};
    var i := 0;
    while i < |buckets|
      invariant 0 <= i <= |buckets|
      invariant Include(table, buckets, {}) == Include(table, buckets[i..], acc)
    {
      assert buckets[i..][1..] == buckets[i + 1..];
      var t := buckets[i];
      if !(t.Str? && t.s in table) {
        return Err(KeyError);
      }
      acc := acc + Codes(table[t.s]);
      i := i + 1;
    }
    return Ok(acc);
  }

  /** The exclusive loop of a bucket axis: every code of every bucket is removed when present. */
  method RemoveBuckets(table: map<string, seq<int>>, buckets: seq<Value>, s: set<int>) returns (r: Result<set<int>, PyError>)
    ensures r == Exclude(table, buckets, s)
  {
    var cur := s;
    var i := 0;
    while i < |buckets|
      invariant 0 <= i <= |buckets|
      invariant Exclude(table, buckets, s) == Exclude(table, buckets[i..], cur)
    {
      assert buckets[i..][1..] == buckets[i + 1..];
      var t := buckets[i];
      if !(t.Str? && t.s in table) {
        return Err(KeyError);
      }
      var codes := table[t.s];
      ghost var before := cur;
      var j := 0;
      while j < |codes|
        invariant 0 <= j <= |codes|
        invariant cur == before - Codes(codes[..j])
      {
        assert Codes(codes[..j + 1]) == Codes(codes[..j]) + {codes[j]} by {
          assert codes[..j + 1] == codes[..j] + [codes[j]];
        }
        if codes[j] in cur {
          cur := cur - {codes[j]};
        }
        j := j + 1;
      }
      assert codes[..j] == codes;
      i := i + 1;
    }
    return Ok(cur);
  }

  /** The inclusive temperature loop: `acc = set(); for t in vals: acc.add(to_enum(t, strict=True))`. */
  method AddTemperatures(vals: seq<Value>) returns (r: Result<set<int>, PyError>)
    ensures r == TemperatureInclude(vals, {})
  {
    var acc: set<int> := {};
    var i := 0;
    while i < |vals|
      invariant 0 <= i <= |vals|
      invariant TemperatureInclude(vals, {}) == TemperatureInclude(vals[i..], acc)
    {
      assert vals[i..][1..] == vals[i + 1..];
      var m := ToEnum(vals[i], TemperatureType, true);
      if m.Err? {
        return Err(m.error);
      }
      if m.value.Some? {
        acc := acc + {m.value.value};
      }
      i := i + 1;
    }
    return Ok(acc);
  }

  /** The exclusive temperature loop: `for t in vals: if t in s: s.remove(to_enum(t, strict=True))`. */
  method RemoveTemperatures(vals: seq<Value>, s: set<int>) returns (r: Result<set<int>, PyError>)
    ensures r == TemperatureExclude(vals, s)
  {
    var cur := s;
    var i := 0;
    while i < |vals|
      invariant 0 <= i <= |vals|
      invariant TemperatureExclude(vals, s) == TemperatureExclude(vals[i..], cur)
    {
      assert vals[i..][1..] == vals[i + 1..];
      var t := vals[i];
      if PyIn(t, cur) {
        var m := ToEnum(t, TemperatureType, true);
        if m.Err? {
          return Err(m.error);
        }
        if !(m.value.Some? && m.value.value in cur) {
          return Err(KeyError);
        }
        cur := cur - {m.value.value};
      }
      i := i + 1;
    }
    return Ok(cur);
  }

  /** One bucket axis: start from all n codes or the included buckets, then drop the excluded ones. */
  method ResolveBucketAxis(table: map<string, seq<int>>, n: nat, key: string, cons: Constraints, antis: Constraints)
    returns (r: Result<set<int>, PyError>)
    ensures r == BucketAxis(table, n, key, cons, antis)
  {
    var s := AllCodes(n);
    if key in cons {
      r := UnionBuckets(table, cons[key]);
      if r.Err? {
        return;
      }
      s := r.value;
    }
    if key in antis {
      r := RemoveBuckets(table, antis[key], s);
      return;
    }
    return Ok(s);
  }

  /** The temperature axis: start from all five codes or the included members, then drop the excluded ones. */
  method ResolveTemperatureAxis(cons: Constraints, antis: Constraints) returns (r: Result<set<int>, PyError>)
    ensures r == TemperatureAxis(cons, antis)
  {
    var s := AllCodes(TEMPERATURE_COUNT);
    if "temperatures" in cons {
      r := AddTemperatures(cons["temperatures"]);
      if r.Err? {
        return;
      }
      s := r.value;
    }
    if "temperatures" in antis {
      r := RemoveTemperatures(antis["temperatures"], s);
      return;
    }
    return Ok(s);
  }

  /** _get_conditions as the converter runs it. */
  method GetConditions(cons: Option<Constraints>, antis: Option<Constraints>) returns (r: Result<seq<ConditionRecord>, PyError>)
    ensures r == ConditionsOf(cons, antis)
  {
    var c := if cons.Some? then cons.value else map[];
    var a := if antis.Some? then antis.value else map[];
    var times := ResolveBucketAxis(TIMES_MAPPING, TIME_COUNT, "times", c, a);
    if times.Err? {
      return Err(times.error);
    }
    var temperatures := ResolveTemperatureAxis(c, a);
    if temperatures.Err? {
      return Err(temperatures.error);
    }
    var weathers := ResolveBucketAxis(WEATHER_MAPPING, WEATHER_COUNT, "weathers", c, a);
    if weathers.Err? {
      return Err(weathers.error);
    }
    r := Ok([ConditionRecord(CONDITION_INDEX, 1.0,
      SortedCodes(weathers.value, WEATHER_COUNT),
      CodeList(MOON_COUNT),
      SortedCodes(times.value, TIME_COUNT),
      SortedCodes(temperatures.value, TEMPERATURE_COUNT))]);
  }

  // ----------------------------------------------------------- properties

  /** The time buckets only ever map to time members. */
  lemma TimesMappedMembers(buckets: seq<Value>)
    requires Known(TIMES_MAPPING, buckets)
    ensures forall c :: c in Mapped(TIMES_MAPPING, buckets) ==> IsMember(TimeType, c)
  {
    forall c | c in Mapped(TIMES_MAPPING, buckets) ensures IsMember(TimeType, c) {
      MappedMembers(TIMES_MAPPING, buckets, c);
      TablesHoldMembers();
    }
  }

  /** The weather buckets map to nothing. */
  lemma {:induction false} WeatherMapsNothing(buckets: seq<Value>)
    requires Known(WEATHER_MAPPING, buckets)
    ensures Mapped(WEATHER_MAPPING, buckets) == {}
    decreases |buckets|
  {
    if buckets != [] {
      WeatherMapsNothing(buckets[1..]);
    }
  }

  /** Every bucket named for the axis, on either side, is a key of the table. */
  predicate AxisKnown(table: map<string, seq<int>>, key: string, cons: Constraints, antis: Constraints) {
    (key in cons ==> Known(table, cons[key])) && (key in antis ==> Known(table, antis[key]))
  }

  /**
   * A bucket axis holds every code 1..n without a condition for it, exactly
   * the union of the listed buckets' codes with one, minus the codes of the
   * excluded buckets; an unknown bucket on either side raises KeyError.
   */
  lemma BucketAxisIsDifference(table: map<string, seq<int>>, n: nat, key: string, cons: Constraints, antis: Constraints)
    ensures !AxisKnown(table, key, cons, antis) ==> BucketAxis(table, n, key, cons, antis) == Err(KeyError)
    ensures AxisKnown(table, key, cons, antis) ==>
      (BucketAxis(table, n, key, cons, antis) ==
         Ok((if key in cons then Mapped(table, cons[key]) else AllCodes(n)) -
            (if key in antis then Mapped(table, antis[key]) else {})))
  {
    if key in cons {
      IncludeIsUnion(table, cons[key], {});
      if Known(table, cons[key]) {
        assert {} + Mapped(table, cons[key]) == Mapped(table, cons[key]);
      }
    }
    var start := if key in cons && Known(table, cons[key]) then Mapped(table, cons[key]) else AllCodes(n);
    if key in antis {
      ExcludeIsDifference(table, antis[key], start);
    } else {
      assert start - {} == start;
    }
  }

  /** The time axis is the included buckets' codes (all four by default) minus the excluded ones, all time members. */
  lemma TimeAxis(cons: Constraints, antis: Constraints)
    requires AxisKnown(TIMES_MAPPING, "times", cons, antis)
    ensures var r := BucketAxis(TIMES_MAPPING, TIME_COUNT, "times", cons, antis);
      r.Ok? && (forall c :: c in r.value ==> IsMember(TimeType, c)) &&
      (forall c :: c in r.value <==>
        (if "times" in cons then c in Mapped(TIMES_MAPPING, cons["times"]) else 1 <= c <= 4) &&
        !("times" in antis && c in Mapped(TIMES_MAPPING, antis["times"])))
  {
    BucketAxisIsDifference(TIMES_MAPPING, TIME_COUNT, "times", cons, antis);
    if "times" in cons {
      TimesMappedMembers(cons["times"]);
    }
  }

  /** An unknown time or weather bucket, in the condition or the anticondition, raises KeyError. */
  lemma UnknownBucketRaises(cons: Constraints, antis: Constraints)
    ensures !AxisKnown(TIMES_MAPPING, "times", cons, antis) ==>
      BucketAxis(TIMES_MAPPING, TIME_COUNT, "times", cons, antis) == Err(KeyError)
    ensures !AxisKnown(WEATHER_MAPPING, "weathers", cons, antis) ==>
      BucketAxis(WEATHER_MAPPING, WEATHER_COUNT, "weathers", cons, antis) == Err(KeyError)
  {
    BucketAxisIsDifference(TIMES_MAPPING, TIME_COUNT, "times", cons, antis);
    BucketAxisIsDifference(WEATHER_MAPPING, WEATHER_COUNT, "weathers", cons, antis);
  }

  /**
   * The weather axis: any "weathers" condition of known buckets leaves it
   * empty, without one it holds all eleven codes, and a weather
   * anticondition of known buckets never changes it.
   */
  lemma WeatherAxis(cons: Constraints, antis: Constraints)
    requires AxisKnown(WEATHER_MAPPING, "weathers", cons, antis)
    ensures BucketAxis(WEATHER_MAPPING, WEATHER_COUNT, "weathers", cons, antis) ==
      Ok(if "weathers" in cons then {} else AllCodes(WEATHER_COUNT))
  {
    BucketAxisIsDifference(WEATHER_MAPPING, WEATHER_COUNT, "weathers", cons, antis);
    if "weathers" in cons {
      WeatherMapsNothing(cons["weathers"]);
    }
    if "weathers" in antis {
      WeatherMapsNothing(antis["weathers"]);
    }
    var start := if "weathers" in cons then {} else AllCodes(WEATHER_COUNT);
    assert start - {} == start;
  }

  /** The temperature axis only ever holds temperature members. */
  lemma TemperatureAxisMembers(cons: Constraints, antis: Constraints)
    ensures TemperatureAxis(cons, antis).Ok? ==> forall c :: c in TemperatureAxis(cons, antis).value ==> IsMember(TemperatureType, c)
  {
    var start := if "temperatures" in cons then TemperatureInclude(cons["temperatures"], {})
      else Ok(AllCodes(TEMPERATURE_COUNT));
    if "temperatures" in cons {
      TemperatureIncludeResolves(cons["temperatures"], {});
    }
    if start.Ok? && "temperatures" in antis {
      TemperatureExcludeNumeric(antis["temperatures"], start.value);
    }
  }

  /** The time and weather axes only ever hold members of their enum. */
  lemma BucketAxesMembers(cons: Constraints, antis: Constraints)
    ensures var r := BucketAxis(TIMES_MAPPING, TIME_COUNT, "times", cons, antis);
      r.Ok? ==> forall c :: c in r.value ==> IsMember(TimeType, c)
    ensures var r := BucketAxis(WEATHER_MAPPING, WEATHER_COUNT, "weathers", cons, antis);
      r.Ok? ==> forall c :: c in r.value ==> IsMember(WeatherType, c)
  {
    UnknownBucketRaises(cons, antis);
    if AxisKnown(TIMES_MAPPING, "times", cons, antis) {
      TimeAxis(cons, antis);
    }
    if AxisKnown(WEATHER_MAPPING, "weathers", cons, antis) {
      WeatherAxis(cons, antis);
    }
  }

  /** A code set within 1..n is listed in ascending order, each code once. */
  lemma SortedListsSet(s: set<int>, n: int)
    requires forall c :: c in s ==> 1 <= c <= n
    ensures Ascending(SortedCodes(s, n)) && forall x :: x in SortedCodes(s, n) <==> x in s
  {
  }

  /** The record _get_conditions builds from the three resolved axes. */
  function Record(times: set<int>, temperatures: set<int>, weathers: set<int>): ConditionRecord {
    ConditionRecord(CONDITION_INDEX, 1.0,
      SortedCodes(weathers, WEATHER_COUNT),
      CodeList(MOON_COUNT),
      SortedCodes(times, TIME_COUNT),
      SortedCodes(temperatures, TEMPERATURE_COUNT))
  }

  lemma MoonPhases()
    ensures CodeList(MOON_COUNT) == [1, 2, 3, 4, 5, 6, 7]
  {
  }

  /** A successful _get_conditions yields exactly one record: the record of its three resolved axes. */
  lemma ConditionsRecord(cons: Option<Constraints>, antis: Option<Constraints>)
    requires ConditionsOf(cons, antis).Ok?
    ensures var c, a := OrEmpty(cons), OrEmpty(antis);
      var times := BucketAxis(TIMES_MAPPING, TIME_COUNT, "times", c, a);
      var temperatures := TemperatureAxis(c, a);
      var weathers := BucketAxis(WEATHER_MAPPING, WEATHER_COUNT, "weathers", c, a);
      times.Ok? && temperatures.Ok? && weathers.Ok? &&
      ConditionsOf(cons, antis).value == [Record(times.value, temperatures.value, weathers.value)]
  {
  }

  /** The record of member sets: index 1337, modifier 1.0, every moon phase, and each axis listed ascending, exactly once per code. */
  lemma RecordShape(times: set<int>, temperatures: set<int>, weathers: set<int>)
    requires forall c :: c in times ==> IsMember(TimeType, c)
    requires forall c :: c in temperatures ==> IsMember(TemperatureType, c)
    requires forall c :: c in weathers ==> IsMember(WeatherType, c)
    ensures var r := Record(times, temperatures, weathers);
      r.index == 1337 && r.modifier == 1.0 && r.moons == [1, 2, 3, 4, 5, 6, 7] &&
      Ascending(r.times) && Ascending(r.temperatures) && Ascending(r.weathers) &&
      (forall x :: x in r.times <==> x in times) &&
      (forall x :: x in r.temperatures <==> x in temperatures) &&
      (forall x :: x in r.weathers <==> x in weathers)
  {
    SortedListsSet(times, TIME_COUNT);
    SortedListsSet(temperatures, TEMPERATURE_COUNT);
    SortedListsSet(weathers, WEATHER_COUNT);
    MoonPhases();
  }

  lemma NoConstraintsRecord()
    ensures ConditionsOf(None, None) == Ok([Record(AllCodes(TIME_COUNT), AllCodes(TEMPERATURE_COUNT), AllCodes(WEATHER_COUNT))])
  {
    var e: Constraints := map[];
    UnconstrainedBucketAxis(TIMES_MAPPING, TIME_COUNT, "times");
    UnconstrainedBucketAxis(WEATHER_MAPPING, WEATHER_COUNT, "weathers");
    assert TemperatureAxis(e, e) == Ok(AllCodes(TEMPERATURE_COUNT));
  }

  /** An axis that neither constraint mentions allows every member. */
  lemma UnconstrainedBucketAxis(table: map<string, seq<int>>, n: nat, key: string)
    ensures BucketAxis(table, n, key, map[], map[]) == Ok(AllCodes(n))
  {
  }

  lemma FullLists()
    ensures CodeList(11) == [1, 2, 3, 4, 5, 6, 7, 8, 9, 10, 11]
    ensures CodeList(5) == [1, 2, 3, 4, 5]
    ensures CodeList(4) == [1, 2, 3, 4]
  {
  }

  /** A spawn entry without condition or anticondition may spawn under every time, temperature and weather. */
  lemma NoConstraints()
    ensures ConditionsOf(None, None) == Ok([ConditionRecord(1337, 1.0,
      [1, 2, 3, 4, 5, 6, 7, 8, 9, 10, 11], [1, 2, 3, 4, 5, 6, 7], [1, 2, 3, 4], [1, 2, 3, 4, 5])])
  {
    NoConstraintsRecord();
    SortedAllCodes(WEATHER_COUNT);
    SortedAllCodes(TIME_COUNT);
    SortedAllCodes(TEMPERATURE_COUNT);
    MoonPhases();
    FullLists();
  }

  /** The DAWN bucket alone resolves to morning and night, listed as [1, 4]. */
  lemma DawnExample()
    ensures var rs := ConditionsOf(Some(map["times" := [Str("DAWN")]]), None);
      rs.Ok? && rs.value[0].times == [MORNING, NIGHT]
  {
    var c: Constraints := map["times" := [Str("DAWN")]];
    assert TIMES_MAPPING["DAWN"] == [4, 1];
    assert Codes([4, 1]) == {1, 4};
    assert Mapped(TIMES_MAPPING, [Str("DAWN")]) == {1, 4} + Mapped(TIMES_MAPPING, []);
    BucketAxisIsDifference(TIMES_MAPPING, TIME_COUNT, "times", c, map[]);
    assert {1, 4} - {} == {1, 4};
    assert BucketAxis(TIMES_MAPPING, TIME_COUNT, "times", c, map[]) == Ok({1, 4});
    WeatherAxis(c, map[]);
    SortedCodesExact({1, 4}, TIME_COUNT, [1, 4]);
  }

  /** An empty inclusive list is an empty union: that axis allows nothing. */
  lemma EmptyListAllowsNothing(antis: Constraints)
    ensures BucketAxis(TIMES_MAPPING, TIME_COUNT, "times", map["times" := []], antis).Ok? ==>
      BucketAxis(TIMES_MAPPING, TIME_COUNT, "times", map["times" := []], antis).value == {}
  {
    ExcludeIsDifference(TIMES_MAPPING, if "times" in antis then antis["times"] else [], {});
  }
}
