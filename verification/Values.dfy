/** JSON documents and the field-consuming parser helpers (components/taxonomy/src/parse.rs). */
module Json {
  import opened Common
  import opened Octets

  datatype JSON =
    | Null
    | Bool(b: bool)
    | I64(i: int)
    | U64(u: nat)
    | F64(f: real)
    | String(s: string)
    | Array(items: seq<JSON>)
    | Object(fields: map<string, JSON>)

  /** What went wrong; the path into the document that the source reports with it is not part of the model. */
  datatype ParseError = TypeError | MissingField(name: string) | UnknownConstant(constant: string)

  type Parsed<+T> = Result<T, ParseError>

  /** Parse the field `name` and remove it from the object. */
  function Take<T>(source: JSON, name: string, parse: JSON -> Parsed<T>): Parsed<(T, JSON)> {
    if !source.Object? then Err(TypeError)
    else if name !in source.fields then Err(MissingField(name))
    else
      var v :- parse(source.fields[name]);
      Ok((v, Object(source.fields - {name})))
  }

  function ParseF64(source: JSON): Parsed<real> {
    match source
    case I64(i) => Ok(i as real)
    case F64(f) => Ok(f)
    case U64(u) => Ok(u as real)
    case _ => Err(TypeError)
  }

  function ParseBool(source: JSON): Parsed<bool> {
    match source
    case Bool(b) => Ok(b)
    case U64(u) => if u == 0 then Ok(false) else if u == 1 then Ok(true) else Err(TypeError)
    case I64(i) => if i == 0 then Ok(false) else if i == 1 then Ok(true) else Err(TypeError)
    case String(s) => if s == "true" then Ok(true) else if s == "false" then Ok(false) else Err(TypeError)
    case _ => Err(TypeError)
  }

  function ParseByte(source: JSON): Parsed<byte> {
    match source
    case U64(u) => if u > 255 then Err(TypeError) else Ok(u)
    case I64(i) => if i < 0 || i > 255 then Err(TypeError) else Ok(i)
    case _ => Err(TypeError)
  }

  function ParseString(source: JSON): Parsed<string> {
    if source.String? then Ok(source.s) else Err(TypeError)
  }

  /** An array; `null` stands for the empty one, and any other value is promoted to an array of one. */
  function ParseVec<T>(source: JSON, parse: JSON -> Parsed<T>): Parsed<seq<T>> {
    match source
    case Array(items) => MapAll(items, parse)
    case Null => Ok([])
    case _ =>
      var single :- parse(source);
      Ok([single])
  }
}

/** Values, ranges, and their JSON form (components/taxonomy/src/values.rs). */
module Values {
  import opened Common
  import opened Json
  import opened Octets

  datatype Type =
    | Unit | OnOff | OpenClosed | DoorLocked | Duration | TimeStamp | Temperature | ThinkerbellRule
    | WebPushNotify | Color | String | Json | Binary | ExtBool | ExtNumeric | Range

  datatype OnOffState = On | Off
  datatype OpenClosedState = Open | Closed
  datatype DoorState = Locked | Unlocked
  datatype Degrees = F(f: real) | C(c: real)

  /** Where an extension value comes from. */
  datatype Origin = Origin(vendor: string, adapter: string, kind: string)

  datatype Value =
    | Unit
    | OnOff(onOff: OnOffState)
    | OpenClosed(openClosed: OpenClosedState)
    | DoorLocked(door: DoorState)
    | Duration(milliseconds: int)
    | TimeStamp(instant: int)
    | Temperature(degrees: Degrees)
    | ThinkerbellRule(name: string, source: string)
    | WebPushNotify(resource: string, message: string)
    | Color(h: real, s: real, v: real)
    | String(text: string)
    | Json(json: JSON)
    | ExtBool(flag: bool, origin: Origin)
    | ExtNumeric(number: real, origin: Origin)
    | Binary(data: seq<byte>, mimetype: string)
    | Range(range: Range)

  datatype Range =
    | Leq(bound: Value)
    | Geq(bound: Value)
    | BetweenEq(min: Value, max: Value)
    | OutOfStrict(min: Value, max: Value)
    | Eq(bound: Value)

  function TypeOf(v: Value): Type {
    match v
    case Unit => Type.Unit
    case OnOff(_) => Type.OnOff
    case OpenClosed(_) => Type.OpenClosed
    case DoorLocked(_) => Type.DoorLocked
    case Duration(_) => Type.Duration
    case TimeStamp(_) => Type.TimeStamp
    case Temperature(_) => Type.Temperature
    case ThinkerbellRule(_, _) => Type.ThinkerbellRule
    case WebPushNotify(_, _) => Type.WebPushNotify
    case Color(_, _, _) => Type.Color
    case String(_) => Type.String
    case Json(_) => Type.Json
    case ExtBool(_, _) => Type.ExtBool
    case ExtNumeric(_, _) => Type.ExtNumeric
    case Binary(_, _) => Type.Binary
    case Range(_) => Type.Range
  }

  /** The type of a range; ranges whose two bounds differ in type have none. */
  function RangeType(r: Range): Option<Type> {
    match r
    case Leq(v) => Some(TypeOf(v))
    case Geq(v) => Some(TypeOf(v))
    case Eq(v) => Some(TypeOf(v))
    case BetweenEq(min, max) => if TypeOf(min) == TypeOf(max) then Some(TypeOf(min)) else None
    case OutOfStrict(min, max) => if TypeOf(min) == TypeOf(max) then Some(TypeOf(min)) else None
  }

  function Bounds(r: Range): seq<Value> {
    match r
    case Leq(v) => [v]
    case Geq(v) => [v]
    case Eq(v) => [v]
    case BetweenEq(min, max) => [min, max]
    case OutOfStrict(min, max) => [min, max]
  }

  /** A range has a type exactly if all its bounds have it. */
  lemma RangeTypeExactly(r: Range, typ: Type)
    ensures RangeType(r) == Some(typ) <==> forall v :: v in Bounds(r) ==> TypeOf(v) == typ
  {
    assert forall v: Value :: v in [v];
    if r.BetweenEq? || r.OutOfStrict? {
      assert r.min in Bounds(r) && r.max in Bounds(r);
    } else {
      assert r.bound in Bounds(r);
    }
  }

  /** The calendar conversions the source leaves to floating point and to its date library. */
  datatype Calendar = Calendar(
    durationToFloat: int -> real,
    floatToDuration: real -> int,
    showTime: int -> string,
    readTime: string -> Option<int>)

  // ---------------------------------------------------------------- printing

  function Fields(name: string, value: JSON): JSON {
    Object(map[name := value])
  }

  function OriginFields(o: Origin, value: JSON): JSON {
    Object(map["value" := value, "vendor" := JSON.String(o.vendor),
               "adapter" := JSON.String(o.adapter), "kind" := JSON.String(o.kind)])
  }

  function BytesToJson(data: seq<byte>): (r: seq<JSON>)
    ensures |r| == |data|
  {
    if data == [] then [] else [U64(data[0])] + BytesToJson(data[1..])
  }

  function ToJson(v: Value, cal: Calendar): JSON {
    match v
    case Unit => Fields("Unit", Null)
    case OnOff(on) => Fields("OnOff", JSON.String(if on == On then "On" else "Off"))
    case OpenClosed(o) => Fields("OpenClosed", JSON.String(if o == Open then "Open" else "Closed"))
    case DoorLocked(d) => Fields("DoorLocked", JSON.String(if d == Locked then "Locked" else "Unlocked"))
    case Duration(ms) => Fields("Duration", F64(cal.durationToFloat(ms)))
    case TimeStamp(t) => Fields("TimeStamp", JSON.String(cal.showTime(t)))
    case Temperature(d) => Fields("Temperature", if d.C? then Fields("C", F64(d.c)) else Fields("F", F64(d.f)))
    case ThinkerbellRule(name, source) =>
      Fields("ThinkerbellRule", Object(map["name" := JSON.String(name), "source" := JSON.String(source)]))
    case WebPushNotify(resource, message) =>
      Fields("WebPushNotify", Object(map["resource" := JSON.String(resource), "message" := JSON.String(message)]))
    case Color(h, s, val) => Fields("Color", Object(map["h" := F64(h), "s" := F64(s), "v" := F64(val)]))
    case String(text) => Fields("String", JSON.String(text))
    case Json(j) => Fields("Json", j)
    case ExtBool(flag, o) => Fields("ExtBool", OriginFields(o, Bool(flag)))
    case ExtNumeric(number, o) => Fields("ExtNumeric", OriginFields(o, F64(number)))
    case Binary(data, mimetype) =>
      Fields("Binary", Object(map["data" := Array(BytesToJson(data)), "mimetype" := JSON.String(mimetype)]))
    case Range(r) => Fields("Range", RangeToJson(r, cal))
  }

  function RangeToJson(r: Range, cal: Calendar): JSON {
    match r
    case Eq(v) => Fields("Eq", ToJson(v, cal))
    case Geq(v) => Fields("Geq", ToJson(v, cal))
    case Leq(v) => Fields("Leq", ToJson(v, cal))
    case BetweenEq(min, max) => Fields("BetweenEq", Array([ToJson(min, cal), ToJson(max, cal)]))
    case OutOfStrict(min, max) => Fields("OutOfStrict", Array([ToJson(min, cal), ToJson(max, cal)]))
  }

  // ---------------------------------------------------------------- parsing

  function ParseOnOff(source: JSON): Parsed<Value> {
    if !source.String? then Err(TypeError)
    else if source.s == "On" then Ok(Value.OnOff(On))
    else if source.s == "Off" then Ok(Value.OnOff(Off))
    else Err(UnknownConstant(source.s))
  }

  function ParseOpenClosed(source: JSON): Parsed<Value> {
    if !source.String? then Err(TypeError)
    else if source.s == "Open" then Ok(Value.OpenClosed(Open))
    else if source.s == "Closed" then Ok(Value.OpenClosed(Closed))
    else Err(UnknownConstant(source.s))
  }

  function ParseDoorLocked(source: JSON): Parsed<Value> {
    if !source.String? then Err(TypeError)
    else if source.s == "Locked" then Ok(Value.DoorLocked(Locked))
    else if source.s == "Unlocked" then Ok(Value.DoorLocked(Unlocked))
    else Err(UnknownConstant(source.s))
  }

  function ParseDuration(source: JSON, cal: Calendar): Parsed<Value> {
    var val :- ParseF64(source);
    Ok(Value.Duration(cal.floatToDuration(val)))
  }

  function ParseTimeStamp(source: JSON, cal: Calendar): Parsed<Value> {
    if !source.String? then Err(TypeError)
    else match cal.readTime(source.s)
      case Some(t) => Ok(Value.TimeStamp(t))
      case None => Err(TypeError)
  }

  function ParseTemperature(source: JSON): Parsed<Value> {
    if !source.Object? then Err(TypeError)
    else if "F" in source.fields then
      var (f, _) :- Take(source, "F", ParseF64);
      Ok(Value.Temperature(F(f)))
    else if "C" in source.fields then
      var (c, _) :- Take(source, "C", ParseF64);
      Ok(Value.Temperature(C(c)))
    else Err(MissingField("C|F"))
  }

  function ParseColor(source: JSON): Parsed<Value> {
    var (h, source1) :- Take(source, "h", ParseF64);
    var (s, source2) :- Take(source1, "s", ParseF64);
    var (v, source3) :- Take(source2, "v", ParseF64);
    if s < 0.0 || s > 1.0 || v < 0.0 || v > 1.0 then Err(TypeError) else Ok(Value.Color(h, s, v))
  }

  function ParseThinkerbellRule(source: JSON): Parsed<Value> {
    var (name, source1) :- Take(source, "name", ParseString);
    var (script, source2) :- Take(source1, "source", ParseString);
    Ok(Value.ThinkerbellRule(name, script))
  }

  function ParseWebPushNotify(source: JSON): Parsed<Value> {
    var (resource, source1) :- Take(source, "resource", ParseString);
    var (message, source2) :- Take(source1, "message", ParseString);
    Ok(Value.WebPushNotify(resource, message))
  }

  function ParseText(source: JSON): Parsed<Value> {
    var text :- ParseString(source);
    Ok(Value.String(text))
  }

  function ParseExt<T>(source: JSON, parse: JSON -> Parsed<T>): Parsed<(T, Origin)> {
    var (vendor, source1) :- Take(source, "vendor", ParseString);
    var (adapter, source2) :- Take(source1, "adapter", ParseString);
    var (kind, source3) :- Take(source2, "kind", ParseString);
    var (value, source4) :- Take(source3, "value", parse);
    Ok((value, Origin(vendor, adapter, kind)))
  }

  function ParseExtBool(source: JSON): Parsed<Value> {
    var (flag, o) :- ParseExt(source, ParseBool);
    Ok(Value.ExtBool(flag, o))
  }

  function ParseExtNumeric(source: JSON): Parsed<Value> {
    var (number, o) :- ParseExt(source, ParseF64);
    Ok(Value.ExtNumeric(number, o))
  }

  function ParseBinary(source: JSON): Parsed<Value> {
    var (data, source1) :- Take(source, "data", j => ParseVec(j, ParseByte));
    var (mimetype, source2) :- Take(source1, "mimetype", ParseString);
    Ok(Value.Binary(data, mimetype))
  }

  lemma OnlyOneKey(m: map<string, JSON>, a: string, b: string)
    requires |m| == 1 && a in m && b in m
    ensures a == b
  {
    var rest := m.Keys - {a};
    assert |rest| == 0;
    assert b !in rest;
  }

  lemma OnlyKeys(m: map<string, JSON>)
    requires |m| == 1
    ensures exists k :: k in m
    ensures forall a, b :: a in m && b in m ==> a == b
  {
    assert m.Keys != {};
    var k :| k in m.Keys;
    forall a, b | a in m && b in m ensures a == b {
      OnlyOneKey(m, a, b);
    }
  }

  function ParseValue(source: JSON, cal: Calendar): Parsed<Value>
    decreases source, 0
  {
    match source
    case Null => Ok(Value.Unit)
    case String(s) => if s == "Unit" then Ok(Value.Unit) else Err(TypeError)
    case Object(obj) =>
      if |obj| != 1 then Err(TypeError)
      else
        OnlyKeys(obj);
        var k :| k in obj;
        ParseKeyed(k, obj[k], cal)
    case _ => Err(TypeError)
  }

  /** The type of the values that a field of this name holds. */
  function TypeNamed(k: string): Option<Type> {
    if k == "Unit" then Some(Type.Unit)
    else if k == "OnOff" then Some(Type.OnOff)
    else if k == "OpenClosed" then Some(Type.OpenClosed)
    else if k == "DoorLocked" then Some(Type.DoorLocked)
    else if k == "Duration" then Some(Type.Duration)
    else if k == "TimeStamp" then Some(Type.TimeStamp)
    else if k == "Temperature" then Some(Type.Temperature)
    else if k == "ThinkerbellRule" then Some(Type.ThinkerbellRule)
    else if k == "WebPushNotify" then Some(Type.WebPushNotify)
    else if k == "Color" then Some(Type.Color)
    else if k == "String" then Some(Type.String)
    else if k == "Json" then Some(Type.Json)
    else if k == "ExtBool" then Some(Type.ExtBool)
    else if k == "ExtNumeric" then Some(Type.ExtNumeric)
    else if k == "Binary" then Some(Type.Binary)
    else if k == "Range" then Some(Type.Range)
    else None
  }

  /** The parser registered for each name. */
  function ParseKeyed(k: string, v: JSON, cal: Calendar): Parsed<Value>
    decreases v, 3
  {
    match TypeNamed(k)
    case None => Err(TypeError)
    case Some(typ) =>
      match typ
      case Unit => Ok(Value.Unit)
      case OnOff => ParseOnOff(v)
      case OpenClosed => ParseOpenClosed(v)
      case DoorLocked => ParseDoorLocked(v)
      case Duration => ParseDuration(v, cal)
      case TimeStamp => ParseTimeStamp(v, cal)
      case Temperature => ParseTemperature(v)
      case ThinkerbellRule => ParseThinkerbellRule(v)
      case WebPushNotify => ParseWebPushNotify(v)
      case Color => ParseColor(v)
      case String => ParseText(v)
      case Json => Ok(Value.Json(v))
      case ExtBool => ParseExtBool(v)
      case ExtNumeric => ParseExtNumeric(v)
      case Binary => ParseBinary(v)
      case Range =>
        var r :- ParseRange(v, cal);
        Ok(Value.Range(r))
  }

  function ParseRange(source: JSON, cal: Calendar): Parsed<Range>
    decreases source, 0
  {
    if !source.Object? || |source.fields| != 1 then Err(TypeError)
    else
      var obj := source.fields;
      if "Leq" in obj then
        var v :- ParseValue(obj["Leq"], cal); Ok(Leq(v))
      else if "Geq" in obj then
        var v :- ParseValue(obj["Geq"], cal); Ok(Geq(v))
      else if "Eq" in obj then
        var v :- ParseValue(obj["Eq"], cal); Ok(Eq(v))
      else if "BetweenEq" in obj then
        var bounds :- ParseValues(obj["BetweenEq"], cal);
        if |bounds| == 2 then Ok(BetweenEq(bounds[0], bounds[1])) else Err(TypeError)
      else if "OutOfStrict" in obj then
        var bounds :- ParseValues(obj["OutOfStrict"], cal);
        if |bounds| == 2 then Ok(OutOfStrict(bounds[0], bounds[1])) else Err(TypeError)
      else Err(TypeError)
  }

  /** `Vec<Value>`: an array, `null` for the empty one, or a single value promoted to an array. */
  function ParseValues(source: JSON, cal: Calendar): Parsed<seq<Value>>
    decreases source, 1
  {
    match source
    case Array(items) => ParseValueItems(items, cal)
    case Null => Ok([])
    case _ =>
      var single :- ParseValue(source, cal);
      Ok([single])
  }

  function ParseValueItems(items: seq<JSON>, cal: Calendar): Parsed<seq<Value>>
    decreases items
  {
    if items == [] then Ok([])
    else
      var first :- ParseValue(items[0], cal);
      var rest :- ParseValueItems(items[1..], cal);
      Ok([first] + rest)
  }

  function Prepended(front: seq<Value>, r: Parsed<seq<Value>>): Parsed<seq<Value>> {
    if r.Ok? then Ok(front + r.value) else r
  }

  lemma PrependValues(front: seq<Value>, r: Parsed<seq<Value>>)
    requires front == []
    ensures Prepended(front, r) == r
  {
    assert r.Ok? ==> front + r.value == r.value;
  }

  lemma PrependValue(front: seq<Value>, v: Value, r: Parsed<seq<Value>>)
    ensures Prepended(front, Prepended([v], r)) == Prepended(front + [v], r)
  {
    if r.Ok? {
      assert front + ([v] + r.value) == (front + [v]) + r.value;
    }
  }

  /** The array loop of the `Vec` parser, stopping at the first element that does not parse. */
  method ParseValueArray(items: seq<JSON>, cal: Calendar) returns (r: Parsed<seq<Value>>)
    ensures r == ParseValueItems(items, cal)
  {
    var result: seq<Value> := [];
    var whole := ParseValueItems(items, cal);
    assert items[0..] == items;
    PrependValues(result, whole);
    for i := 0 to |items|
      invariant whole == Prepended(result, ParseValueItems(items[i..], cal))
    {
      assert items[i..][1..] == items[i + 1..];
      var value := ParseValue(items[i], cal);
      if value.Err? {
        return Err(value.error);
      }
      PrependValue(result, value.value, ParseValueItems(items[i + 1..], cal));
      result := result + [value.value];
    }
    assert result + [] == result;
    return Ok(result);
  }

  // ---------------------------------------------------------------- round trip

  predicate InUnit(x: real) {
    0.0 <= x <= 1.0
  }

  /** The values whose JSON form denotes them: colours in range, and dates and durations that survive
      their own conversion, at every depth. */
  predicate Representable(v: Value, cal: Calendar) {
    match v
    case Color(h, s, val) => InUnit(s) && InUnit(val)
    case Duration(ms) => cal.floatToDuration(cal.durationToFloat(ms)) == ms
    case TimeStamp(t) => cal.readTime(cal.showTime(t)) == Some(t)
    case Range(r) => RepresentableRange(r, cal)
    case _ => true
  }

  predicate RepresentableRange(r: Range, cal: Calendar) {
    match r
    case Leq(v) => Representable(v, cal)
    case Geq(v) => Representable(v, cal)
    case Eq(v) => Representable(v, cal)
    case BetweenEq(min, max) => Representable(min, cal) && Representable(max, cal)
    case OutOfStrict(min, max) => Representable(min, cal) && Representable(max, cal)
  }

  lemma {:induction false} BytesRoundTrip(data: seq<byte>)
    ensures MapAll(BytesToJson(data), ParseByte) == Ok(data)
  {
    if data != [] {
      BytesRoundTrip(data[1..]);
      assert BytesToJson(data)[1..] == BytesToJson(data[1..]);
      assert data == [data[0]] + data[1..];
    }
  }

  lemma KeyedRoundTrip(k: string, v: JSON, cal: Calendar)
    ensures ParseValue(Fields(k, v), cal) == ParseKeyed(k, v, cal)
  {
  }

  lemma ColorFields(h: real, s: real, v: real)
    ensures ParseColor(Object(map["h" := F64(h), "s" := F64(s), "v" := F64(v)]))
         == if InUnit(s) && InUnit(v) then Ok(Value.Color(h, s, v)) else Err(TypeError)
  {
  }

  lemma ColorRoundTrip(h: real, s: real, v: real, cal: Calendar)
    ensures ParseValue(ToJson(Value.Color(h, s, v), cal), cal)
         == if InUnit(s) && InUnit(v) then Ok(Value.Color(h, s, v)) else Err(TypeError)
  {
    hide ParseColor, ParseValue;
    ColorFields(h, s, v);
    KeyedRoundTrip("Color", Object(map["h" := F64(h), "s" := F64(s), "v" := F64(v)]), cal);
  }

  lemma BinaryFields(data: seq<byte>, mimetype: string)
    ensures ParseBinary(Object(map["data" := Array(BytesToJson(data)), "mimetype" := JSON.String(mimetype)]))
         == Ok(Value.Binary(data, mimetype))
  {
    BytesRoundTrip(data);
  }

  lemma BinaryRoundTrip(data: seq<byte>, mimetype: string, cal: Calendar)
    ensures ParseValue(ToJson(Value.Binary(data, mimetype), cal), cal)
         == Ok(Value.Binary(data, mimetype))
  {
    hide ParseBinary, ParseValue, BytesToJson, Fields;
    BinaryFields(data, mimetype);
    KeyedRoundTrip("Binary", Object(map["data" := Array(BytesToJson(data)),
                                        "mimetype" := JSON.String(mimetype)]), cal);
  }

  lemma StateRoundTrip(v: Value, cal: Calendar)
    requires v.Unit? || v.OnOff? || v.OpenClosed? || v.DoorLocked?
    ensures ParseValue(ToJson(v, cal), cal) == Ok(v)
  {
  }

  lemma TextRoundTrip(v: Value, cal: Calendar)
    requires v.String? || v.Json?
    ensures ParseValue(ToJson(v, cal), cal) == Ok(v)
  {
  }

  lemma TemperatureFields(d: Degrees)
    ensures ParseTemperature(if d.C? then Fields("C", F64(d.c)) else Fields("F", F64(d.f))) == Ok(Value.Temperature(d))
  {
  }

  lemma TemperatureRoundTrip(d: Degrees, cal: Calendar)
    ensures ParseValue(ToJson(Value.Temperature(d), cal), cal) == Ok(Value.Temperature(d))
  {
    hide ParseTemperature, ParseValue, Fields;
    TemperatureFields(d);
    KeyedRoundTrip("Temperature", if d.C? then Fields("C", F64(d.c)) else Fields("F", F64(d.f)), cal);
  }

  lemma CalendarRoundTrip(v: Value, cal: Calendar)
    requires v.Duration? || v.TimeStamp?
    ensures ParseValue(ToJson(v, cal), cal) == Ok(v) <==> Representable(v, cal)
  {
  }

  lemma RuleRoundTrip(name: string, source: string, cal: Calendar)
    ensures ParseValue(ToJson(Value.ThinkerbellRule(name, source), cal), cal) == Ok(Value.ThinkerbellRule(name, source))
  {
  }

  lemma NotifyRoundTrip(resource: string, message: string, cal: Calendar)
    ensures ParseValue(ToJson(Value.WebPushNotify(resource, message), cal), cal)
         == Ok(Value.WebPushNotify(resource, message))
  {
  }

  lemma ExtBoolKeyed(json: JSON, cal: Calendar)
    ensures ParseValue(Fields("ExtBool", json), cal) == ParseExtBool(json)
  {
    hide ParseValue, Fields, ParseExtBool, ParseExtNumeric;
    KeyedRoundTrip("ExtBool", json, cal);
  }

  lemma ExtNumericKeyed(json: JSON, cal: Calendar)
    ensures ParseValue(Fields("ExtNumeric", json), cal) == ParseExtNumeric(json)
  {
    hide ParseValue, Fields, ParseExtBool, ParseExtNumeric;
    KeyedRoundTrip("ExtNumeric", json, cal);
  }

  lemma ExtBoolRoundTrip(flag: bool, o: Origin, cal: Calendar)
    ensures ParseValue(ToJson(Value.ExtBool(flag, o), cal), cal) == Ok(Value.ExtBool(flag, o))
  {
    ExtBoolFields(flag, o);
    ExtBoolKeyed(OriginFields(o, Bool(flag)), cal);
  }

  lemma ExtBoolFields(flag: bool, o: Origin)
    ensures ParseExtBool(OriginFields(o, Bool(flag))) == Ok(Value.ExtBool(flag, o))
  {
  }

  lemma ExtNumericRoundTrip(number: real, o: Origin, cal: Calendar)
    ensures ParseValue(ToJson(Value.ExtNumeric(number, o), cal), cal) == Ok(Value.ExtNumeric(number, o))
  {
    ExtNumericFields(number, o);
    ExtNumericKeyed(OriginFields(o, F64(number)), cal);
  }

  lemma ExtNumericFields(number: real, o: Origin)
    ensures ParseExtNumeric(OriginFields(o, F64(number))) == Ok(Value.ExtNumeric(number, o))
  {
  }

  lemma NestedRange(r: Range, cal: Calendar)
    ensures ParseValue(ToJson(Value.Range(r), cal), cal)
         == match ParseRange(RangeToJson(r, cal), cal) case Ok(r') => Ok(Value.Range(r')) case Err(e) => Err(e)
  {
    hide ParseRange, RangeToJson, ParseValue;
    KeyedRoundTrip("Range", RangeToJson(r, cal), cal);
  }

  /** Parsing inverts printing exactly on the representable values, nested to any depth. */
  lemma {:induction false} ValueRoundTrip(v: Value, cal: Calendar)
    ensures ParseValue(ToJson(v, cal), cal) == Ok(v) <==> Representable(v, cal)
    decreases v
  {
    hide ParseValue, ToJson;
    match v
    case Color(h, s, val) => ColorRoundTrip(h, s, val, cal);
    case Binary(data, mimetype) => BinaryRoundTrip(data, mimetype, cal);
    case Range(r) =>
      RangeRoundTrip(r, cal);
      NestedRange(r, cal);
    case Duration(_) => CalendarRoundTrip(v, cal);
    case TimeStamp(_) => CalendarRoundTrip(v, cal);
    case ThinkerbellRule(name, source) => RuleRoundTrip(name, source, cal);
    case WebPushNotify(resource, message) => NotifyRoundTrip(resource, message, cal);
    case ExtBool(flag, o) => ExtBoolRoundTrip(flag, o, cal);
    case ExtNumeric(number, o) => ExtNumericRoundTrip(number, o, cal);
    case String(_) => TextRoundTrip(v, cal);
    case Json(_) => TextRoundTrip(v, cal);
    case Temperature(d) => TemperatureRoundTrip(d, cal);
    case _ => StateRoundTrip(v, cal);
  }

  /** Parsing inverts printing exactly on the ranges whose bounds are representable. */
  lemma {:induction false} RangeRoundTrip(r: Range, cal: Calendar)
    ensures ParseRange(RangeToJson(r, cal), cal) == Ok(r) <==> RepresentableRange(r, cal)
    decreases r
  {
    match r
    case Leq(v) => ValueRoundTrip(v, cal); BoundRoundTrip(r, cal);
    case Geq(v) => ValueRoundTrip(v, cal); BoundRoundTrip(r, cal);
    case Eq(v) => ValueRoundTrip(v, cal); BoundRoundTrip(r, cal);
    case BetweenEq(min, max) =>
      ValueRoundTrip(min, cal);
      ValueRoundTrip(max, cal);
      BoundsRoundTrip(min, max, cal);
      TwoBoundsRoundTrip(r, cal);
    case OutOfStrict(min, max) =>
      ValueRoundTrip(min, cal);
      ValueRoundTrip(max, cal);
      BoundsRoundTrip(min, max, cal);
      TwoBoundsRoundTrip(r, cal);
  }

  lemma BoundRoundTrip(r: Range, cal: Calendar)
    requires r.Leq? || r.Geq? || r.Eq?
    ensures ParseRange(RangeToJson(r, cal), cal)
         == match ParseValue(ToJson(r.bound, cal), cal)
            case Ok(v) => Ok(if r.Leq? then Leq(v) else if r.Geq? then Geq(v) else Eq(v))
            case Err(e) => Err(e)
  {
  }

  lemma TwoBoundsRoundTrip(r: Range, cal: Calendar)
    requires r.BetweenEq? || r.OutOfStrict?
    ensures ParseRange(RangeToJson(r, cal), cal)
         == match ParseValues(Array([ToJson(r.min, cal), ToJson(r.max, cal)]), cal)
            case Ok(bounds) =>
              if |bounds| != 2 then Err(TypeError)
              else Ok(if r.BetweenEq? then BetweenEq(bounds[0], bounds[1]) else OutOfStrict(bounds[0], bounds[1]))
            case Err(e) => Err(e)
  {
  }

  function Both(a: Parsed<Value>, b: Parsed<Value>): Parsed<seq<Value>> {
    if a.Err? then Err(a.error) else if b.Err? then Err(b.error) else Ok([a.value, b.value])
  }

  lemma BoundsRoundTrip(min: Value, max: Value, cal: Calendar)
    ensures ParseValues(Array([ToJson(min, cal), ToJson(max, cal)]), cal)
         == Both(ParseValue(ToJson(min, cal), cal), ParseValue(ToJson(max, cal), cal))
  {
    TwoItems(ToJson(min, cal), ToJson(max, cal), cal);
  }

  lemma TwoItems(a: JSON, b: JSON, cal: Calendar)
    ensures ParseValueItems([a, b], cal) == Both(ParseValue(a, cal), ParseValue(b, cal))
  {
    var first, last := ParseValue(a, cal), ParseValue(b, cal);
    assert [a, b][1..] == [b];
    assert [b][1..] == [];
    assert ParseValueItems([], cal) == Ok([]);
    if last.Ok? {
      assert [last.value] + [] == [last.value];
      assert ParseValueItems([b], cal) == Ok([last.value]);
      if first.Ok? {
        assert [first.value] + [last.value] == [first.value, last.value];
      }
    }
  }

  // ---------------------------------------------------------------- every accepted spelling

  /** The document is this number: a float, or a whole number written with or without a sign. */
  predicate Numeral(j: JSON, x: real) {
    j == F64(x) || (j.I64? && x == j.i as real) || (j.U64? && x == j.u as real)
  }

  predicate Truth(j: JSON, b: bool) {
    j in {Bool(b), U64(if b then 1 else 0), I64(if b then 1 else 0), JSON.String(if b then "true" else "false")}
  }

  predicate Octet(j: JSON, o: byte) {
    j == U64(o) || j == I64(o)
  }

  /** An array of octets; `null` is the empty one, and a single octet needs no array. */
  predicate OctetList(j: JSON, data: seq<byte>) {
    if j.Array? then |j.items| == |data| && forall i :: 0 <= i < |data| ==> Octet(j.items[i], data[i])
    else if j.Null? then data == [] else |data| == 1 && Octet(j, data[0])
  }

  /** An object with at least the field `name`, which is this text. */
  predicate TextField(j: JSON, name: string, text: string) {
    j.Object? && name in j.fields && j.fields[name] == JSON.String(text)
  }

  predicate NumberField(j: JSON, name: string, x: real) {
    j.Object? && name in j.fields && Numeral(j.fields[name], x)
  }

  predicate HasOrigin(j: JSON, o: Origin) {
    TextField(j, "vendor", o.vendor) && TextField(j, "adapter", o.adapter) && TextField(j, "kind", o.kind)
  }

  function RangeKeyOf(r: Range): string {
    match r
    case Leq(_) => "Leq"
    case Geq(_) => "Geq"
    case Eq(_) => "Eq"
    case BetweenEq(_, _) => "BetweenEq"
    case OutOfStrict(_, _) => "OutOfStrict"
  }

  /** The object has this field and no other. */
  predicate OnlyField(j: JSON, k: string) {
    j.Object? && j.fields.Keys == {k}
  }

  /** The documents that spell a value: `null` and "Unit" for the unit value, and else an object whose one
      field has the name of the value's type. */
  ghost predicate Spells(j: JSON, v: Value, cal: Calendar)
    decreases j, 3
  {
    if j.Object? then
      exists k :: k in j.fields && OnlyField(j, k) && TypeNamed(k) == Some(TypeOf(v)) && SpellsContent(j.fields[k], v, cal)
    else v == Value.Unit && (j == Null || j == JSON.String("Unit"))
  }

  /** What the field of a value's type may hold. */
  ghost predicate SpellsContent(j: JSON, v: Value, cal: Calendar)
    decreases j, 1
  {
    match v
    case Unit => true
    case OnOff(on) => j == JSON.String(if on == On then "On" else "Off")
    case OpenClosed(o) => j == JSON.String(if o == Open then "Open" else "Closed")
    case DoorLocked(d) => j == JSON.String(if d == Locked then "Locked" else "Unlocked")
    case Duration(ms) => exists x :: Numeral(j, x) && cal.floatToDuration(x) == ms
    case TimeStamp(t) => j.String? && cal.readTime(j.s) == Some(t)
    case Temperature(d) =>
      if d.F? then NumberField(j, "F", d.f) else NumberField(j, "C", d.c) && "F" !in j.fields
    case ThinkerbellRule(name, source) => TextField(j, "name", name) && TextField(j, "source", source)
    case WebPushNotify(resource, message) => TextField(j, "resource", resource) && TextField(j, "message", message)
    case Color(h, s, val) =>
      && NumberField(j, "h", h) && NumberField(j, "s", s) && NumberField(j, "v", val)
      && InUnit(s) && InUnit(val)
    case String(text) => j == JSON.String(text)
    case Json(json) => j == json
    case ExtBool(flag, o) => HasOrigin(j, o) && "value" in j.fields && Truth(j.fields["value"], flag)
    case ExtNumeric(number, o) => HasOrigin(j, o) && NumberField(j, "value", number)
    case Binary(data, mimetype) =>
      TextField(j, "mimetype", mimetype) && "data" in j.fields && OctetList(j.fields["data"], data)
    case Range(r) => SpellsRange(j, r, cal)
  }

  /** The documents that spell a range: an object whose one field names the kind of range, and holds the bound
      or an array of the two bounds. */
  ghost predicate SpellsRange(j: JSON, r: Range, cal: Calendar)
    decreases j, 0
  {
    && OnlyField(j, RangeKeyOf(r))
    && var content := j.fields[RangeKeyOf(r)];
       match r
       case Leq(v) => Spells(content, v, cal)
       case Geq(v) => Spells(content, v, cal)
       case Eq(v) => Spells(content, v, cal)
       case BetweenEq(min, max) => SpellsBounds(content, min, max, cal)
       case OutOfStrict(min, max) => SpellsBounds(content, min, max, cal)
  }

  ghost predicate SpellsBounds(j: JSON, min: Value, max: Value, cal: Calendar)
    decreases j, 4
  {
    j.Array? && |j.items| == 2 && Spells(j.items[0], min, cal) && Spells(j.items[1], max, cal)
  }

  lemma SingleField(fields: map<string, JSON>, k: string)
    ensures fields.Keys == {k} <==> |fields| == 1 && k in fields
  {
    if |fields| == 1 && k in fields {
      forall k' | k' in fields ensures k' == k {
        OnlyOneKey(fields, k, k');
      }
    }
    if fields.Keys == {k} {
      assert |fields| == |fields.Keys| == |{k}| == 1;
    }
  }

  /** What is parsed under a name is of the type that has the name. */
  lemma {:induction false} KeyedKind(k: string, j: JSON, cal: Calendar)
    ensures ParseKeyed(k, j, cal).Ok? ==> TypeNamed(k) == Some(TypeOf(ParseKeyed(k, j, cal).value))
  {
    hide TypeNamed, ParseOnOff, ParseOpenClosed, ParseDoorLocked, ParseDuration, ParseTimeStamp, ParseText;
    hide ParseRange, ParseTemperature, ParseColor, ParseThinkerbellRule, ParseWebPushNotify;
    hide ParseExtBool, ParseExtNumeric, ParseBinary;
    ObjectKinds(j);
    PlainKinds(j, cal);
    var (name, r) := (TypeNamed(k), ParseKeyed(k, j, cal));
    if r.Ok? {
      match name.value
      case Temperature => assert r == ParseTemperature(j);
      case Color => assert r == ParseColor(j);
      case _ =>
    }
  }

  lemma PlainKinds(j: JSON, cal: Calendar)
    ensures ParseOnOff(j).Ok? ==> ParseOnOff(j).value.OnOff?
    ensures ParseOpenClosed(j).Ok? ==> ParseOpenClosed(j).value.OpenClosed?
    ensures ParseDoorLocked(j).Ok? ==> ParseDoorLocked(j).value.DoorLocked?
    ensures ParseDuration(j, cal).Ok? ==> ParseDuration(j, cal).value.Duration?
    ensures ParseTimeStamp(j, cal).Ok? ==> ParseTimeStamp(j, cal).value.TimeStamp?
    ensures ParseText(j).Ok? ==> ParseText(j).value.String?
  {
  }

  lemma ObjectKinds(j: JSON)
    ensures ParseTemperature(j).Ok? ==> ParseTemperature(j).value.Temperature?
    ensures ParseColor(j).Ok? ==> ParseColor(j).value.Color?
    ensures ParseThinkerbellRule(j).Ok? ==> ParseThinkerbellRule(j).value.ThinkerbellRule?
    ensures ParseWebPushNotify(j).Ok? ==> ParseWebPushNotify(j).value.WebPushNotify?
    ensures ParseExtBool(j).Ok? ==> ParseExtBool(j).value.ExtBool?
    ensures ParseExtNumeric(j).Ok? ==> ParseExtNumeric(j).value.ExtNumeric?
    ensures ParseBinary(j).Ok? ==> ParseBinary(j).value.Binary?
  {
    hide Take, ParseExt;
  }

  lemma {:induction false} RangeKind(j: JSON, cal: Calendar)
    ensures ParseRange(j, cal).Ok? ==> OnlyField(j, RangeKeyOf(ParseRange(j, cal).value))
  {
    hide ParseValue, ParseValues;
    if ParseRange(j, cal).Ok? {
      SingleField(j.fields, RangeKeyOf(ParseRange(j, cal).value));
    }
  }

  /** The parser accepts exactly the documents that spell a value, and gives that value. */
  lemma {:induction false} ParsesExactly(j: JSON, v: Value, cal: Calendar)
    ensures ParseValue(j, cal) == Ok(v) <==> Spells(j, v, cal)
    decreases j, 3
  {
    hide ParseKeyed, SpellsContent, TypeNamed;
    if j.Object? {
      if k :| k in j.fields && OnlyField(j, k) {
        OneFieldParses(j, k, cal);
        KeyedKind(k, j.fields[k], cal);
        if TypeNamed(k) == Some(TypeOf(v)) {
          ContentExactly(k, j.fields[k], v, cal);
        }
      } else if |j.fields| == 1 {
        OnlyKeys(j.fields);
        var k :| k in j.fields;
        SingleField(j.fields, k);
      }
    }
  }

  lemma {:induction false} OneFieldParses(j: JSON, k: string, cal: Calendar)
    requires OnlyField(j, k)
    ensures ParseValue(j, cal) == ParseKeyed(k, j.fields[k], cal)
  {
    SingleField(j.fields, k);
    hide ParseKeyed;
  }

  lemma {:induction false} ContentExactly(k: string, j: JSON, v: Value, cal: Calendar)
    requires TypeNamed(k) == Some(TypeOf(v))
    ensures ParseKeyed(k, j, cal) == Ok(v) <==> SpellsContent(j, v, cal)
    decreases j, 1
  {
    KeyedParser(k, j, v, cal);
    hide TypeNamed, ParseDuration, ParseOnOff, ParseOpenClosed, ParseDoorLocked, ParseTimeStamp, ParseText;
    hide ParseKeyed, ParseRange, ParseTemperature, ParseColor, ParseThinkerbellRule, ParseWebPushNotify;
    hide ParseExtBool, ParseExtNumeric, ParseBinary, ParseF64, Numeral;
    match v
    case Range(r) => RangeExactly(j, r, cal);
    case Duration(_) => DurationExactly(j, v, cal);
    case Temperature(_) => TemperatureExactly(j, v);
    case ThinkerbellRule(_, _) => TextsExactly(j, v);
    case WebPushNotify(_, _) => TextsExactly(j, v);
    case Color(_, _, _) => ColorExactly(j, v);
    case ExtBool(_, _) => ExtBoolExactly(j, v);
    case ExtNumeric(_, _) => ExtNumericExactly(j, v);
    case Binary(_, _) => BinaryExactly(j, v);
    case _ => PlainExactly(k, j, v, cal);
  }

  lemma {:induction false} KeyedParser(k: string, j: JSON, v: Value, cal: Calendar)
    requires TypeNamed(k) == Some(TypeOf(v))
    ensures v.Duration? ==> ParseKeyed(k, j, cal) == ParseDuration(j, cal)
    ensures v.Temperature? ==> ParseKeyed(k, j, cal) == ParseTemperature(j)
    ensures v.ThinkerbellRule? ==> ParseKeyed(k, j, cal) == ParseThinkerbellRule(j)
    ensures v.WebPushNotify? ==> ParseKeyed(k, j, cal) == ParseWebPushNotify(j)
    ensures v.Color? ==> ParseKeyed(k, j, cal) == ParseColor(j)
    ensures v.ExtBool? ==> ParseKeyed(k, j, cal) == ParseExtBool(j)
    ensures v.ExtNumeric? ==> ParseKeyed(k, j, cal) == ParseExtNumeric(j)
    ensures v.Binary? ==> ParseKeyed(k, j, cal) == ParseBinary(j)
    ensures v.Range? ==>
      ParseKeyed(k, j, cal) == match ParseRange(j, cal) case Ok(r) => Ok(Value.Range(r)) case Err(e) => Err(e)
  {
    hide TypeNamed, ParseRange, ParseTemperature, ParseColor, ParseThinkerbellRule, ParseWebPushNotify;
    hide ParseExtBool, ParseExtNumeric, ParseBinary, ParseDuration;
  }

  lemma {:induction false} PlainExactly(k: string, j: JSON, v: Value, cal: Calendar)
    requires v.Unit? || v.OnOff? || v.OpenClosed? || v.DoorLocked? || v.TimeStamp? || v.String? || v.Json?
    requires TypeNamed(k) == Some(TypeOf(v))
    ensures ParseKeyed(k, j, cal) == Ok(v) <==> SpellsContent(j, v, cal)
  {
    hide TypeNamed;
  }

  lemma DurationExactly(j: JSON, v: Value, cal: Calendar)
    requires v.Duration?
    ensures ParseDuration(j, cal) == Ok(v) <==> SpellsContent(j, v, cal)
  {
    NumbersAreRead(j);
  }

  lemma NumbersAreRead(j: JSON)
    ensures forall x :: ParseF64(j) == Ok(x) <==> Numeral(j, x)
    ensures ParseF64(j).Ok? ==> Numeral(j, ParseF64(j).value)
  {
  }

  lemma TemperatureExactly(j: JSON, v: Value)
    requires v.Temperature?
    ensures forall cal :: ParseTemperature(j) == Ok(v) <==> SpellsContent(j, v, cal)
  {
  }

  lemma TextsExactly(j: JSON, v: Value)
    requires v.ThinkerbellRule? || v.WebPushNotify?
    ensures forall cal :: (if v.ThinkerbellRule? then ParseThinkerbellRule(j) else ParseWebPushNotify(j)) == Ok(v)
                     <==> SpellsContent(j, v, cal)
  {
  }

  lemma ColorExactly(j: JSON, v: Value)
    requires v.Color?
    ensures forall cal :: ParseColor(j) == Ok(v) <==> SpellsContent(j, v, cal)
  {
  }

  lemma ExtBoolExactly(j: JSON, v: Value)
    requires v.ExtBool?
    ensures forall cal :: ParseExtBool(j) == Ok(v) <==> SpellsContent(j, v, cal)
  {
  }

  lemma ExtNumericExactly(j: JSON, v: Value)
    requires v.ExtNumeric?
    ensures forall cal :: ParseExtNumeric(j) == Ok(v) <==> SpellsContent(j, v, cal)
  {
  }

  lemma BinaryExactly(j: JSON, v: Value)
    requires v.Binary?
    ensures forall cal :: ParseBinary(j) == Ok(v) <==> SpellsContent(j, v, cal)
  {
    hide ParseVec, OctetList;
    if j.Object? && "data" in j.fields {
      OctetsAreRead(j.fields["data"], v.data);
      var read := ParseVec(j.fields["data"], ParseByte);
      if read.Ok? {
        OctetsAreRead(j.fields["data"], read.value);
      }
      BinaryIsRead(j);
    }
  }

  lemma BinaryIsRead(j: JSON)
    requires j.Object? && "data" in j.fields
    ensures var read := ParseVec(j.fields["data"], ParseByte);
      ParseBinary(j)
      == if read.Err? then Err(read.error)
         else if "mimetype" !in j.fields then Err(MissingField("mimetype"))
         else if j.fields["mimetype"].String? then Ok(Value.Binary(read.value, j.fields["mimetype"].s)) else Err(TypeError)
  {
    hide ParseVec;
    assert ParseVec(j.fields["data"], ParseByte) == (x => ParseVec(x, ParseByte))(j.fields["data"]);
  }

  lemma OctetsAreRead(j: JSON, data: seq<byte>)
    ensures ParseVec(j, ParseByte) == Ok(data) <==> OctetList(j, data)
  {
    if j.Array? {
      OctetItemsAreRead(j.items, data);
    } else if !j.Null? && |data| == 1 {
      assert data == [data[0]];
    }
  }

  lemma {:induction false} OctetItemsAreRead(items: seq<JSON>, data: seq<byte>)
    ensures MapAll(items, ParseByte) == Ok(data)
       <==> |items| == |data| && forall i :: 0 <= i < |data| ==> Octet(items[i], data[i])
  {
    if items != [] && data != [] {
      OctetItemsAreRead(items[1..], data[1..]);
      assert data == [data[0]] + data[1..];
      var rest := MapAll(items[1..], ParseByte);
      if ParseByte(items[0]).Ok? && rest.Ok? {
        assert ([ParseByte(items[0]).value] + rest.value)[1..] == rest.value;
      }
    }
  }

  lemma {:induction false} RangeExactly(j: JSON, r: Range, cal: Calendar)
    ensures ParseRange(j, cal) == Ok(r) <==> SpellsRange(j, r, cal)
    decreases j, 0
  {
    RangeKind(j, cal);
    if j.Object? {
      SingleField(j.fields, RangeKeyOf(r));
      if OnlyField(j, RangeKeyOf(r)) {
        var content := j.fields[RangeKeyOf(r)];
        match r
        case Leq(v) => ParsesExactly(content, v, cal);
        case Geq(v) => ParsesExactly(content, v, cal);
        case Eq(v) => ParsesExactly(content, v, cal);
        case BetweenEq(min, max) => BoundsExactly(content, min, max, cal); TwoOf(ParseValues(content, cal), min, max);
        case OutOfStrict(min, max) => BoundsExactly(content, min, max, cal); TwoOf(ParseValues(content, cal), min, max);
      }
    }
  }

  lemma TwoOf(r: Parsed<seq<Value>>, a: Value, b: Value)
    ensures r == Ok([a, b]) <==> r.Ok? && |r.value| == 2 && r.value[0] == a && r.value[1] == b
  {
    if r.Ok? && |r.value| == 2 {
      assert r.value == [r.value[0], r.value[1]];
    }
  }

  lemma {:induction false} BoundsExactly(j: JSON, min: Value, max: Value, cal: Calendar)
    ensures ParseValues(j, cal) == Ok([min, max]) <==> SpellsBounds(j, min, max, cal)
    decreases j, 4
  {
    if j.Array? && |j.items| == 2 {
      ParsesExactly(j.items[0], min, cal);
      ParsesExactly(j.items[1], max, cal);
      assert j.items == [j.items[0], j.items[1]];
      TwoItems(j.items[0], j.items[1], cal);
    } else if j.Array? {
      ItemsCount(j.items, cal);
    }
  }

  lemma {:induction false} ItemsCount(items: seq<JSON>, cal: Calendar)
    ensures ParseValueItems(items, cal).Ok? ==> |ParseValueItems(items, cal).value| == |items|
    decreases |items|
  {
    if items != [] {
      ItemsCount(items[1..], cal);
    }
  }

  lemma SoleField(k: string, j: JSON)
    ensures OnlyField(Fields(k, j), k) && Fields(k, j).fields[k] == j
  {
  }

  /** A document with one field is parsed to what its content spells. */
  lemma FieldSpells(k: string, j: JSON, v: Value, cal: Calendar)
    requires TypeNamed(k) == Some(TypeOf(v))
    ensures ParseValue(Fields(k, j), cal) == Ok(v) <==> SpellsContent(j, v, cal)
  {
    SoleField(k, j);
    ParsesExactly(Fields(k, j), v, cal);
    hide SpellsContent, TypeNamed;
  }

  /** Wherever a number is expected a whole number, with or without a sign, is read as the float it equals. */
  lemma WholeNumbersAreFloats(j: JSON, x: real, o: Origin, s: real, v: real, cal: Calendar)
    requires (j.I64? && x == j.i as real) || (j.U64? && x == j.u as real)
    ensures ParseValue(Fields("Duration", j), cal) == Ok(Value.Duration(cal.floatToDuration(x)))
    ensures ParseValue(Fields("Temperature", Fields("C", j)), cal) == Ok(Value.Temperature(C(x)))
    ensures ParseValue(Fields("Temperature", Fields("F", j)), cal) == Ok(Value.Temperature(F(x)))
    ensures ParseValue(Fields("ExtNumeric", OriginFields(o, j)), cal) == Ok(Value.ExtNumeric(x, o))
    ensures InUnit(s) && InUnit(v) ==>
              ParseValue(Fields("Color", Object(map["h" := j, "s" := F64(s), "v" := F64(v)])), cal) == Ok(Value.Color(x, s, v))
    ensures InUnit(x) && InUnit(v) ==>
              && ParseValue(Fields("Color", Object(map["h" := F64(s), "s" := j, "v" := F64(v)])), cal) == Ok(Value.Color(s, x, v))
              && ParseValue(Fields("Color", Object(map["h" := F64(s), "s" := F64(v), "v" := j])), cal) == Ok(Value.Color(s, v, x))
  {
    hide *;
    Numerals(j, x, s, v);
    DurationSpelled(j, x, cal);
    DegreesSpelled(j, x, cal);
    NumericSpelled(j, x, o, cal);
    ColorSpelled(j, F64(s), F64(v), x, s, v, cal);
    ColorSpelled(F64(s), j, F64(v), s, x, v, cal);
    ColorSpelled(F64(s), F64(v), j, s, v, x, cal);
  }

  lemma Numerals(j: JSON, x: real, s: real, v: real)
    requires (j.I64? && x == j.i as real) || (j.U64? && x == j.u as real)
    ensures Numeral(j, x) && Numeral(F64(s), s) && Numeral(F64(v), v)
  {
  }

  lemma DurationSpelled(j: JSON, x: real, cal: Calendar)
    requires Numeral(j, x)
    ensures ParseValue(Fields("Duration", j), cal) == Ok(Value.Duration(cal.floatToDuration(x)))
  {
    hide ParseValue, Fields;
    FieldSpells("Duration", j, Value.Duration(cal.floatToDuration(x)), cal);
  }

  lemma DegreesSpelled(j: JSON, x: real, cal: Calendar)
    requires Numeral(j, x)
    ensures ParseValue(Fields("Temperature", Fields("C", j)), cal) == Ok(Value.Temperature(C(x)))
    ensures ParseValue(Fields("Temperature", Fields("F", j)), cal) == Ok(Value.Temperature(F(x)))
  {
    hide ParseValue;
    FieldSpells("Temperature", Fields("C", j), Value.Temperature(C(x)), cal);
    FieldSpells("Temperature", Fields("F", j), Value.Temperature(F(x)), cal);
  }

  lemma NumericSpelled(j: JSON, x: real, o: Origin, cal: Calendar)
    requires Numeral(j, x)
    ensures ParseValue(Fields("ExtNumeric", OriginFields(o, j)), cal) == Ok(Value.ExtNumeric(x, o))
  {
    hide ParseValue, Fields;
    FieldSpells("ExtNumeric", OriginFields(o, j), Value.ExtNumeric(x, o), cal);
  }

  lemma ColorSpelled(h: JSON, s: JSON, v: JSON, xh: real, xs: real, xv: real, cal: Calendar)
    requires Numeral(h, xh) && Numeral(s, xs) && Numeral(v, xv)
    ensures InUnit(xs) && InUnit(xv) ==>
              ParseValue(Fields("Color", Object(map["h" := h, "s" := s, "v" := v])), cal) == Ok(Value.Color(xh, xs, xv))
  {
    hide ParseValue, Fields, Numeral;
    FieldSpells("Color", Object(map["h" := h, "s" := s, "v" := v]), Value.Color(xh, xs, xv), cal);
  }

  /** The other accepted spellings: of the unit value, of a flag, of the empty array and of an array of one. */
  lemma OtherSpellings(j: JSON, flag: bool, o: Origin, octet: byte, mimetype: string, cal: Calendar)
    ensures ParseValue(Null, cal) == ParseValue(JSON.String("Unit"), cal) == ParseValue(Fields("Unit", j), cal) == Ok(Value.Unit)
    ensures j in {U64(if flag then 1 else 0), I64(if flag then 1 else 0), JSON.String(if flag then "true" else "false")} ==>
              ParseValue(Fields("ExtBool", OriginFields(o, j)), cal) == Ok(Value.ExtBool(flag, o))
    ensures ParseValue(Fields("Binary", Object(map["data" := Null, "mimetype" := JSON.String(mimetype)])), cal)
         == Ok(Value.Binary([], mimetype))
    ensures j in {U64(octet), I64(octet)} ==>
              ParseValue(Fields("Binary", Object(map["data" := j, "mimetype" := JSON.String(mimetype)])), cal)
              == Ok(Value.Binary([octet], mimetype))
  {
    hide *;
    UnitSpelled(j, cal);
    FlagSpelled(j, flag, o, cal);
    OctetsSpelled(Null, [], mimetype, cal);
    OctetsSpelled(j, [octet], mimetype, cal);
    Lists(j, flag, octet);
  }

  lemma Lists(j: JSON, flag: bool, octet: byte)
    ensures OctetList(Null, []) && (j in {U64(octet), I64(octet)} ==> OctetList(j, [octet]))
    ensures j in {U64(if flag then 1 else 0), I64(if flag then 1 else 0), JSON.String(if flag then "true" else "false")} ==>
              Truth(j, flag)
  {
  }

  lemma UnitSpelled(j: JSON, cal: Calendar)
    ensures ParseValue(Null, cal) == ParseValue(JSON.String("Unit"), cal) == ParseValue(Fields("Unit", j), cal) == Ok(Value.Unit)
  {
    hide Fields;
    FieldSpells("Unit", j, Value.Unit, cal);
  }

  lemma FlagSpelled(j: JSON, flag: bool, o: Origin, cal: Calendar)
    ensures Truth(j, flag) ==> ParseValue(Fields("ExtBool", OriginFields(o, j)), cal) == Ok(Value.ExtBool(flag, o))
  {
    hide ParseValue, Fields, Truth;
    FieldSpells("ExtBool", OriginFields(o, j), Value.ExtBool(flag, o), cal);
  }

  lemma OctetsSpelled(j: JSON, data: seq<byte>, mimetype: string, cal: Calendar)
    ensures OctetList(j, data) ==>
              ParseValue(Fields("Binary", Object(map["data" := j, "mimetype" := JSON.String(mimetype)])), cal)
              == Ok(Value.Binary(data, mimetype))
  {
    hide ParseValue, Fields, OctetList;
    FieldSpells("Binary", Object(map["data" := j, "mimetype" := JSON.String(mimetype)]), Value.Binary(data, mimetype), cal);
  }

  /** Of the spellings of a value, the one that is printed: numbers are floats but for the octets of an array,
      flags are booleans, the unit value is `null`, and an object has no fields but the ones it must have. */
  lemma PrintsPlainly(v: Value, cal: Calendar)
    ensures PrintedPlainly(ToJson(v, cal), v)
  {
    hide ToJson, PrintedPlainly;
    match v
    case Binary(_, _) => PrintsOctets(v, cal);
    case ThinkerbellRule(_, _) => PrintsTexts(v, cal);
    case WebPushNotify(_, _) => PrintsTexts(v, cal);
    case ExtBool(_, _) => PrintsExtensions(v, cal);
    case ExtNumeric(_, _) => PrintsExtensions(v, cal);
    case Color(_, _, _) => PrintsNumbers(v, cal);
    case Temperature(_) => PrintsNumbers(v, cal);
    case _ => PrintsScalars(v, cal);
  }

  predicate PrintedPlainly(j: JSON, v: Value) {
    j.Object? && |j.fields| == 1 && forall k :: k in j.fields ==> PlainContent(j.fields[k], v)
  }

  lemma PrintsOctets(v: Value, cal: Calendar)
    requires v.Binary?
    ensures PrintedPlainly(ToJson(v, cal), v)
  {
    hide BytesToJson;
    OctetsPrinted(v.data);
  }

  lemma PrintsTexts(v: Value, cal: Calendar)
    requires v.ThinkerbellRule? || v.WebPushNotify?
    ensures PrintedPlainly(ToJson(v, cal), v)
  {
  }

  lemma PrintsExtensions(v: Value, cal: Calendar)
    requires v.ExtBool? || v.ExtNumeric?
    ensures PrintedPlainly(ToJson(v, cal), v)
  {
  }

  lemma PrintsNumbers(v: Value, cal: Calendar)
    requires v.Color? || v.Temperature?
    ensures PrintedPlainly(ToJson(v, cal), v)
  {
  }

  lemma PrintsScalars(v: Value, cal: Calendar)
    requires !(v.Binary? || v.ThinkerbellRule? || v.WebPushNotify? || v.ExtBool? || v.ExtNumeric? || v.Color? || v.Temperature?)
    ensures PrintedPlainly(ToJson(v, cal), v)
  {
    hide RangeToJson;
  }

  predicate PlainContent(j: JSON, v: Value) {
    match v
    case Unit => j == Null
    case Duration(_) => j.F64?
    case Temperature(d) => j.Object? && j.fields.Keys == {if d.F? then "F" else "C"} && forall f :: f in j.fields ==> j.fields[f].F64?
    case Color(_, _, _) => j.Object? && j.fields.Keys == {"h", "s", "v"} && forall f :: f in j.fields ==> j.fields[f].F64?
    case ExtBool(_, _) => j.Object? && j.fields.Keys == {"value", "vendor", "adapter", "kind"} && j.fields["value"].Bool?
    case ExtNumeric(_, _) => j.Object? && j.fields.Keys == {"value", "vendor", "adapter", "kind"} && j.fields["value"].F64?
    case Binary(data, _) =>
      && j.Object? && j.fields.Keys == {"data", "mimetype"} && j.fields["data"].Array?
      && forall x :: x in j.fields["data"].items ==> x.U64?
    case ThinkerbellRule(_, _) => j.Object? && j.fields.Keys == {"name", "source"}
    case WebPushNotify(_, _) => j.Object? && j.fields.Keys == {"resource", "message"}
    case _ => true
  }

  lemma {:induction false} OctetsPrinted(data: seq<byte>)
    ensures forall x :: x in BytesToJson(data) ==> x.U64?
  {
    if data != [] {
      OctetsPrinted(data[1..]);
    }
  }
}
