/**
 * The canonical records of the world format (the _Base subclasses of
 * common.py) and the coercions their constructors apply, plus the
 * "match anything" condition.
 */
module Entities {
  import opened Wrappers
  import opened Builtins
  import opened Enums
  import opened Uuids

  const FORMAT_VERSION := 1

  /** A point of interest: its code (a POIType ordinal, unchecked), a coordinate pair and the spawn codes it offers. */
  datatype PointOfInterest = PointOfInterest(kind: int, point: seq<real>, spawns: seq<int>)

  /** A street: its code (a StreetType ordinal, unchecked) and its polyline. */
  datatype Street = Street(kind: int, points: seq<seq<real>>)

  /** An area: its code (an AreaType ordinal, unchecked), its outline and the spawn codes it offers. */
  datatype Area = Area(kind: int, points: seq<seq<real>>, spawns: seq<int>)

  /** A world: canonical UUID text, bounding box, creation time, format version and its contents. */
  datatype World = World(
    uuid: string,
    bbox: seq<real>,
    timestamp: int,
    version: int,
    points: seq<PointOfInterest>,
    streets: seq<Street>,
    areas: seq<Area>)

  /**
   * A spawn condition. Each axis lists the codes under which the condition
   * holds; an entry is None where the list was built by a lenient to_enum
   * that did not resolve.
   */
  datatype Condition = Condition(
    index: int,
    modifier: real,
    weathers: seq<Option<int>>,
    moons: seq<Option<int>>,
    times: seq<Option<int>>,
    temperatures: seq<Option<int>>)

  /** The spawn conditions of one spawn area with its base probability. */
  datatype SpawnRelation = SpawnRelation(spawnArea: int, probability: real, conditions: seq<Condition>)

  // ------------------------------------------------------------ coercions

  /** [int(v) for v in vs]: every element through int(), stopping at the first that raises. */
  function IntAll(vs: seq<Value>): (r: Result<seq<int>, PyError>)
    ensures r.Ok? ==> |r.value| == |vs|
  {
    if vs == [] then Ok([])
    else match PyInt(vs[0])
      case Err(e) => Err(e)
      case Ok(k) =>
        match IntAll(vs[1..])
        case Err(e) => Err(e)
        case Ok(ks) => Ok([k] + ks)
  }

  /**
   * The list comprehension succeeds exactly when int() accepts every value,
   * and then holds each value's int() in order; otherwise it raises the
   * error of the first value int() rejects.
   */
  lemma {:induction false} IntAllResult(vs: seq<Value>)
    ensures IntAll(vs).Ok? <==> forall i :: 0 <= i < |vs| ==> PyInt(vs[i]).Ok?
    ensures IntAll(vs).Ok? ==> forall i :: 0 <= i < |vs| ==> IntAll(vs).value[i] == PyInt(vs[i]).value
    ensures IntAll(vs).Err? ==> exists i :: (0 <= i < |vs| && PyInt(vs[i]) == Err(IntAll(vs).error) &&
                                            forall j :: 0 <= j < i ==> PyInt(vs[j]).Ok?)
  {
    if vs != [] {
      var rest := vs[1..];
      IntAllResult(rest);
      forall i | 0 < i < |vs| ensures vs[i] == rest[i - 1] {}
      if PyInt(vs[0]).Ok? && IntAll(rest).Err? {
        var i :| 0 <= i < |rest| && PyInt(rest[i]) == Err(IntAll(rest).error) &&
          forall j :: 0 <= j < i ==> PyInt(rest[j]).Ok?;
        assert PyInt(vs[i + 1]) == Err(IntAll(vs).error);
        assert forall j :: 0 <= j < i + 1 ==> PyInt(vs[j]).Ok? by {
          forall j | 0 < j < i + 1 ensures PyInt(vs[j]).Ok? { assert vs[j] == rest[j - 1]; }
        }
      }
    }
  }

  /** PointOfInterest(type, point, spawns): type and spawns through int(), in that order; no range check. */
  function NewPointOfInterest(kind: Value, point: seq<real>, spawns: seq<Value>): (r: Result<PointOfInterest, PyError>)
    ensures PyInt(kind).Err? ==> r == Err(PyInt(kind).error)
    ensures PyInt(kind).Ok? ==> match IntAll(spawns)
      case Ok(ks) => r == Ok(PointOfInterest(PyInt(kind).value, point, ks))
      case Err(e) => r == Err(e)
  {
    match PyInt(kind)
    case Err(e) => Err(e)
    case Ok(k) =>
      match IntAll(spawns)
      case Err(e) => Err(e)
      case Ok(ks) => Ok(PointOfInterest(k, point, ks))
  }

  /** Street(type, points): type through int(); no range check. */
  function NewStreet(kind: Value, points: seq<seq<real>>): (r: Result<Street, PyError>)
    ensures r.Ok? <==> PyInt(kind).Ok?
    ensures r.Ok? ==> r.value.kind == PyInt(kind).value && r.value.points == points
    ensures r.Err? ==> r.error == PyInt(kind).error
  {
    match PyInt(kind)
    case Err(e) => Err(e)
    case Ok(k) => Ok(Street(k, points))
  }

  /** Area(type, points, spawns): type and spawns through int(), in that order; no range check. */
  function NewArea(kind: Value, points: seq<seq<real>>, spawns: seq<Value>): (r: Result<Area, PyError>)
    ensures PyInt(kind).Err? ==> r == Err(PyInt(kind).error)
    ensures PyInt(kind).Ok? ==> match IntAll(spawns)
      case Ok(ks) => r == Ok(Area(PyInt(kind).value, points, ks))
      case Err(e) => r == Err(e)
  {
    match PyInt(kind)
    case Err(e) => Err(e)
    case Ok(k) =>
      match IntAll(spawns)
      case Err(e) => Err(e)
      case Ok(ks) => Ok(Area(k, points, ks))
  }

  /** The constructors store any integer code, member of its enum or not, and keep every spawn code in order. */
  lemma ConstructorsKeepCodes(kind: int, point: seq<real>, points: seq<seq<real>>, spawns: seq<int>)
    ensures NewPointOfInterest(Int(kind), point, IntValues(spawns)) == Ok(PointOfInterest(kind, point, spawns))
    ensures NewStreet(Int(kind), points) == Ok(Street(kind, points))
    ensures NewArea(Int(kind), points, IntValues(spawns)) == Ok(Area(kind, points, spawns))
  {
    var vs := IntValues(spawns);
    IntAllResult(vs);
    var r := IntAll(vs);
    assert r.Ok? && r.value == spawns;
  }

  function IntValues(ks: seq<int>): (vs: seq<Value>)
    ensures |vs| == |ks| && forall i :: 0 <= i < |ks| ==> vs[i] == Int(ks[i])
  {
    seq(|ks|, i requires 0 <= i < |ks| => Int(ks[i]))
  }

  /** A single spawn code that int() rejects makes the whole record fail with that error. */
  lemma BadSpawnCodeFails(kind: int, point: seq<real>, spawns: seq<Value>, i: int)
    requires 0 <= i < |spawns| && spawns[i].Null?
    ensures NewPointOfInterest(Int(kind), point, spawns).Err?
    ensures NewArea(Int(kind), [], spawns).Err?
  {
    IntAllResult(spawns);
  }

  // ---------------------------------------------------------------- World

  /** The uuid argument of World: absent (None), a UUID object, or text. */
  datatype UuidArg = NoUuid | UuidObject(id: Uuid) | UuidText(text: string)

  /**
   * The stored id: a UUID object as its canonical text; non-empty text
   * parsed and re-written canonically (ValueError if it does not parse);
   * an absent or empty argument replaced by the canonical text of `drawn`,
   * the UUID that uuid4() draws.
   */
  function WorldId(arg: UuidArg, drawn: Uuid): (r: Result<string, PyError>)
    ensures r.Ok? ==> Parse(r.value).Ok?
    ensures r.Err? <==> arg.UuidText? && arg.text != [] && Parse(arg.text).Err?
    ensures r.Err? ==> r.error == ValueError
  {
    match arg
    case NoUuid => ParseFormat(drawn); Ok(Format(drawn))
    case UuidObject(u) => ParseFormat(u); Ok(Format(u))
    case UuidText(s) =>
      if s == [] then ParseFormat(drawn); Ok(Format(drawn))
      else match Parse(s)
        case Err(e) => Err(e)
        case Ok(u) => ParseFormat(u); Ok(Format(u))
  }

  /**
   * World(bbox, uuid, **kwargs): the keyword arguments are evaluated in the
   * order uuid, bbox, timestamp, version. A missing timestamp is the current
   * time `now` rounded to an integer; a missing version is FORMAT_VERSION;
   * missing contents are empty lists.
   */
  function NewWorld(
    bbox: seq<real>, uuid: UuidArg,
    timestamp: Option<Value>, version: Option<Value>,
    points: Option<seq<PointOfInterest>>, streets: Option<seq<Street>>, areas: Option<seq<Area>>,
    drawn: Uuid, now: real): (r: Result<World, PyError>)
    ensures r.Ok? <==> (WorldId(uuid, drawn).Ok? &&
                        (timestamp.Some? ==> PyInt(timestamp.value).Ok?) &&
                        (version.Some? ==> PyInt(version.value).Ok?))
    ensures r.Ok? ==> r.value.uuid == WorldId(uuid, drawn).value && r.value.bbox == bbox
    ensures r.Ok? ==> r.value.timestamp == (if timestamp.Some? then PyInt(timestamp.value).value else RoundHalfEven(now))
    ensures r.Ok? ==> r.value.version == (if version.Some? then PyInt(version.value).value else FORMAT_VERSION)
    ensures r.Ok? ==> r.value.points == (if points.Some? then points.value else [])
    ensures r.Ok? ==> r.value.streets == (if streets.Some? then streets.value else [])
    ensures r.Ok? ==> r.value.areas == (if areas.Some? then areas.value else [])
    ensures WorldId(uuid, drawn).Err? ==> r == Err(ValueError)
  {
    match WorldId(uuid, drawn)
    case Err(e) => Err(e)
    case Ok(id) =>
      match PyInt(if timestamp.Some? then timestamp.value else Int(RoundHalfEven(now)))
      case Err(e) => Err(e)
      case Ok(ts) =>
        match PyInt(if version.Some? then version.value else Int(FORMAT_VERSION))
        case Err(e) => Err(e)
        case Ok(v) =>
          Ok(World(id, bbox, ts, v,
            if points.Some? then points.value else [],
            if streets.Some? then streets.value else [],
            if areas.Some? then areas.value else []))
  }

  /** A UUID given as text is stored canonically and denotes the same UUID; a UUID object is stored as its text. */
  lemma WorldIdKeepsUuid(arg: UuidArg, drawn: Uuid)
    ensures arg.UuidObject? ==> WorldId(arg, drawn) == Ok(Format(arg.id))
    ensures arg.UuidText? && arg.text != [] && Parse(arg.text).Ok? ==>
      WorldId(arg, drawn) == Ok(Format(Parse(arg.text).value)) &&
      Parse(WorldId(arg, drawn).value) == Parse(arg.text)
    ensures arg.NoUuid? || arg == UuidText([]) ==> WorldId(arg, drawn) == Ok(Format(drawn))
  {
    if arg.UuidText? && arg.text != [] && Parse(arg.text).Ok? {
      ParseFormat(Parse(arg.text).value);
    }
  }

  /** Re-creating a world from its stored id keeps the id, and the drawn id is never consulted. */
  lemma WorldIdStable(w: World, drawn: Uuid, other: Uuid)
    requires Parse(w.uuid).Ok? && w.uuid == Format(Parse(w.uuid).value)
    ensures WorldId(UuidText(w.uuid), drawn) == Ok(w.uuid)
    ensures WorldId(UuidText(w.uuid), drawn) == WorldId(UuidText(w.uuid), other)
  {
    ParseFormat(Parse(w.uuid).value);
  }

  /** Every successfully created world carries an id in canonical form: re-reading it and writing it back is the identity. */
  lemma NewWorldCanonicalId(
    bbox: seq<real>, uuid: UuidArg, timestamp: Option<Value>, version: Option<Value>,
    points: Option<seq<PointOfInterest>>, streets: Option<seq<Street>>, areas: Option<seq<Area>>,
    drawn: Uuid, now: real)
    requires NewWorld(bbox, uuid, timestamp, version, points, streets, areas, drawn, now).Ok?
    ensures var w := NewWorld(bbox, uuid, timestamp, version, points, streets, areas, drawn, now).value;
      Parse(w.uuid).Ok? && Format(Parse(w.uuid).value) == w.uuid
  {
    match uuid
    case NoUuid => ParseFormat(drawn);
    case UuidObject(u) => ParseFormat(u);
    case UuidText(s) =>
      if s == [] { ParseFormat(drawn); } else { ParseFormat(Parse(s).value); }
  }

  // ------------------------------------------------------- any condition

  /** [to_enum(x, T) for x in range(len(T))], lenient: one entry per ordinal 0..|T|-1. */
  function AnyAxis(t: EnumType): (r: seq<Option<int>>)
    ensures |r| == |t.names|
  {
    seq(|t.names|, x => Lenient(ToEnum(Int(x), t, false)))
  }

  /** The value of a lenient to_enum call, which an integer argument never makes raise. */
  function Lenient(r: Result<Option<int>, PyError>): Option<int> {
    match r
    case Ok(m) => m
    case Err(_) => None
  }

  /** get_any_condition() as written: index 1, modifier 1.0 and every axis built with AnyAxis. */
  function AnyCondition(): (c: Condition)
    ensures c.index == 1 && c.modifier == 1.0
  {
    Condition(1, 1.0, AnyAxis(WeatherType), AnyAxis(MoonType), AnyAxis(TimeType), AnyAxis(TemperatureType))
  }

  /**
   * Each axis of get_any_condition() has |T| entries: the first is None
   * (ordinal 0 is no member), then members 1..|T|-1; the top member |T|
   * is missing.
   */
  lemma AnyAxisShape(t: EnumType)
    requires |t.names| >= 1
    ensures AnyAxis(t)[0] == None
    ensures forall i :: 1 <= i < |t.names| ==> AnyAxis(t)[i] == Some(i)
    ensures Some(|t.names|) !in AnyAxis(t)
  {
    var r := AnyAxis(t);
    forall i | 0 <= i < |r| ensures r[i] == (if i == 0 then None else Some(i)) {
      ToEnumOutOfRange(0, t, false);
      if i > 0 { ToEnumOrdinal(t, i, false); }
    }
  }

  /** The condition as get_any_condition() builds it: the night, hot, bloody-moon and extreme-warning members are missing. */
  lemma AnyConditionMissesTop()
    ensures |AnyCondition().times| == 4 && AnyCondition().times[0] == None && Some(NIGHT) !in AnyCondition().times
    ensures Some(5) !in AnyCondition().temperatures
    ensures Some(7) !in AnyCondition().moons
    ensures Some(11) !in AnyCondition().weathers
  {
    AnyAxisShape(TimeType);
    AnyAxisShape(TemperatureType);
    AnyAxisShape(MoonType);
    AnyAxisShape(WeatherType);
  }

  /** The axis that lists every member of T: [T(x + 1) for x in range(len(T))]. */
  function FullAxis(t: EnumType): (r: seq<Option<int>>)
    ensures |r| == |t.names|
    ensures forall k :: Some(k) in r <==> IsMember(t, k)
    ensures None !in r
  {
    var r := seq(|t.names|, x => Some(x + 1));
    assert forall k :: IsMember(t, k) ==> r[k - 1] == Some(k);
    r
  }

  /** The evidently intended "match anything" condition: every axis lists all of its members. */
  function AnyConditionIntended(): (c: Condition)
    ensures c.index == 1 && c.modifier == 1.0
    ensures forall k :: Some(k) in c.times <==> IsMember(TimeType, k)
    ensures forall k :: Some(k) in c.temperatures <==> IsMember(TemperatureType, k)
    ensures forall k :: Some(k) in c.moons <==> IsMember(MoonType, k)
    ensures forall k :: Some(k) in c.weathers <==> IsMember(WeatherType, k)
  {
    Condition(1, 1.0, FullAxis(WeatherType), FullAxis(MoonType), FullAxis(TimeType), FullAxis(TemperatureType))
  }

  /** The intended condition agrees with the written one on every entry but the first, which it shifts up by one. */
  lemma AnyAxisShift(t: EnumType)
    requires |t.names| >= 1
    ensures forall i :: 1 <= i < |t.names| ==> AnyAxis(t)[i] == FullAxis(t)[i - 1]
    ensures AnyAxis(t)[0] == None && FullAxis(t)[|t.names| - 1] == Some(|t.names|)
  {
    AnyAxisShape(t);
  }
}
