/**
 * The decoding rules that Swift's synthesized `Decodable` conformances follow
 * when PortainerKit's records are read from a JSON response: the JSON value a
 * decoder sees, the error it throws, and one decoder per kind of field
 * (booleans, 64-bit integers, 16-bit unsigned integers, strings, arrays,
 * string dictionaries, raw-value enums, nested records).
 *
 * A record field that is not optional is read with `Required`: a missing key
 * throws "key not found" and a `null` throws "value not found". An optional
 * field is read with `Optional` (`decodeIfPresent`): a missing key or a `null`
 * gives `None`, anything else must decode.
 */
module JsonDecoding {
  import opened Wrappers

  /** A JSON value. Numbers are the integral ones; fractional numbers are not modelled. */
  datatype Json =
    | JNull
    | JBool(b: bool)
    | JNumber(n: int)
    | JString(s: string)
    | JArray(items: seq<Json>)
    | JObject(fields: map<string, Json>)

  /** One step of a decoding error's coding path: an object key or an array index. */
  datatype PathElement = Key(name: string) | Index(i: nat)

  /** The cases of Swift's `DecodingError` that decoding these records can throw. */
  datatype ErrorKind = KeyNotFound | ValueNotFound | TypeMismatch | DataCorrupted

  datatype DecodeError = DecodeError(kind: ErrorKind, path: seq<PathElement>)

  /** Swift's `Int` and `Int64` on the 64-bit platforms the app runs on. */
  type Int64 = n: int | -0x8000_0000_0000_0000 <= n < 0x8000_0000_0000_0000

  /** Swift's `UInt16`, the type of port numbers. */
  type UInt16 = n: int | 0 <= n < 0x1_0000

  /** An instant, as the configured date-decoding strategy produces it. */
  datatype Date = Date(instant: int)

  /** The error for a value of the wrong JSON kind: `null` is "value not found", anything else a type mismatch. */
  function Unexpected<T>(j: Json): (r: Result<T, DecodeError>)
    ensures r.Failure? && r.error.path == []
    ensures r.error.kind == (if j.JNull? then ValueNotFound else TypeMismatch)
  {
    Failure(DecodeError(if j.JNull? then ValueNotFound else TypeMismatch, []))
  }

  /** Puts one more step in front of a failure's coding path. */
  function Within<T>(step: PathElement, r: Result<T, DecodeError>): (r': Result<T, DecodeError>)
    ensures r'.Success? <==> r.Success?
    ensures r.Success? ==> r'.value == r.value
    ensures r.Failure? ==> r'.error == DecodeError(r.error.kind, [step] + r.error.path)
  {
    match r
    case Success(v) => Success(v)
    case Failure(e) => Failure(DecodeError(e.kind, [step] + e.path))
  }

  function DecodeBool(j: Json): (r: Result<bool, DecodeError>)
    ensures r.Success? <==> j.JBool?
    ensures r.Success? ==> r.value == j.b
  {
    if j.JBool? then Success(j.b) else Unexpected(j)
  }

  function DecodeString(j: Json): (r: Result<string, DecodeError>)
    ensures r.Success? <==> j.JString?
    ensures r.Success? ==> r.value == j.s
  {
    if j.JString? then Success(j.s) else Unexpected(j)
  }

  /** A number that does not fit in 64 bits is corrupted data, not a mismatch. */
  function DecodeInt64(j: Json): (r: Result<Int64, DecodeError>)
    ensures r.Success? <==> j.JNumber? && -0x8000_0000_0000_0000 <= j.n < 0x8000_0000_0000_0000
    ensures r.Success? ==> r.value == j.n
    ensures j.JNumber? && r.Failure? ==> r.error == DecodeError(DataCorrupted, [])
  {
    if !j.JNumber? then Unexpected(j)
    else if -0x8000_0000_0000_0000 <= j.n < 0x8000_0000_0000_0000 then Success(j.n)
    else Failure(DecodeError(DataCorrupted, []))
  }

  /** A number outside 0..65535 does not fit in `UInt16` and fails as corrupted data. */
  function DecodeUInt16(j: Json): (r: Result<UInt16, DecodeError>)
    ensures r.Success? <==> j.JNumber? && 0 <= j.n <= 65535
    ensures r.Success? ==> r.value == j.n
    ensures j.JNumber? && r.Failure? ==> r.error == DecodeError(DataCorrupted, [])
  {
    if !j.JNumber? then Unexpected(j)
    else if 0 <= j.n < 0x1_0000 then Success(j.n)
    else Failure(DecodeError(DataCorrupted, []))
  }

  /** The elements of `items`, from position `start` of the array on, each with `element`. */
  function DecodeElements<T>(items: seq<Json>, element: Json -> Result<T, DecodeError>, start: nat): (r: Result<seq<T>, DecodeError>)
    ensures r.Success? <==> forall i :: 0 <= i < |items| ==> element(items[i]).Success?
    ensures r.Success? ==> |r.value| == |items| && forall i :: 0 <= i < |items| ==> r.value[i] == element(items[i]).value
    decreases |items|
  {
    if items == [] then Success([])
    else
      match Within(Index(start), element(items[0]))
      case Failure(e) => Failure(e)
      case Success(head) =>
        match DecodeElements(items[1..], element, start + 1)
        case Failure(e) => Failure(e)
        case Success(tail) =>
          assert forall i :: 1 <= i < |items| ==> items[i] == items[1..][i - 1];
          Success([head] + tail)
  }

  /** `[T]`: an array whose every element decodes. */
  function DecodeArray<T>(j: Json, element: Json -> Result<T, DecodeError>): (r: Result<seq<T>, DecodeError>)
    ensures r.Success? <==> j.JArray? && forall i :: 0 <= i < |j.items| ==> element(j.items[i]).Success?
    ensures r.Success? ==> |r.value| == |j.items| && forall i :: 0 <= i < |j.items| ==> r.value[i] == element(j.items[i]).value
  {
    if j.JArray? then DecodeElements(j.items, element, 0) else Unexpected(j)
  }

  /** `[String: String]`: an object whose every value is a string. */
  function DecodeStringDictionary(j: Json): (r: Result<map<string, string>, DecodeError>)
    ensures r.Success? <==> j.JObject? && forall k :: k in j.fields ==> j.fields[k].JString?
    ensures r.Success? ==> r.value.Keys == j.fields.Keys && forall k :: k in r.value ==> j.fields[k] == JString(r.value[k])
  {
    if !j.JObject? then Unexpected(j)
    else if forall k :: k in j.fields ==> j.fields[k].JString? then Success(map k | k in j.fields :: j.fields[k].s)
    else Failure(DecodeError(TypeMismatch, []))
  }

  /** A `String`-backed enum: a string that is not one of the raw values is corrupted data, never a default. */
  function DecodeRawString<T>(j: Json, fromRaw: string -> Option<T>): (r: Result<T, DecodeError>)
    ensures r.Success? <==> j.JString? && fromRaw(j.s).Some?
    ensures r.Success? ==> fromRaw(j.s) == Some(r.value)
    ensures j.JString? && r.Failure? ==> r.error == DecodeError(DataCorrupted, [])
  {
    if !j.JString? then Unexpected(j)
    else match fromRaw(j.s)
      case Some(v) => Success(v)
      case None => Failure(DecodeError(DataCorrupted, []))
  }

  /** A non-optional field: the key must be present and its value not `null`. */
  function Required<T>(obj: map<string, Json>, key: string, decode: Json -> Result<T, DecodeError>): (r: Result<T, DecodeError>)
    ensures key !in obj ==> r == Failure(DecodeError(KeyNotFound, [Key(key)]))
    ensures key in obj && obj[key] == JNull ==> r == Failure(DecodeError(ValueNotFound, [Key(key)]))
    ensures r.Success? ==> key in obj && obj[key] != JNull && decode(obj[key]) == Success(r.value)
    ensures key in obj && obj[key] != JNull ==> (r.Success? <==> decode(obj[key]).Success?)
    ensures key in obj && obj[key] != JNull && decode(obj[key]).Failure? ==> r.error.kind == decode(obj[key]).error.kind
  {
    if key !in obj then Failure(DecodeError(KeyNotFound, [Key(key)]))
    else if obj[key].JNull? then Failure(DecodeError(ValueNotFound, [Key(key)]))
    else Within(Key(key), decode(obj[key]))
  }

  /** An optional field (`decodeIfPresent`): a missing key or a `null` is `None`; anything else must decode. */
  function Optional<T>(obj: map<string, Json>, key: string, decode: Json -> Result<T, DecodeError>): (r: Result<Option<T>, DecodeError>)
    ensures key !in obj || obj[key] == JNull ==> r == Success(None)
    ensures key in obj && obj[key] != JNull ==> (r.Success? <==> decode(obj[key]).Success?)
    ensures r.Success? && r.value.Some? ==> key in obj && decode(obj[key]) == Success(r.value.value)
  {
    if key !in obj || obj[key].JNull? then Success(None)
    else match Within(Key(key), decode(obj[key]))
      case Success(v) => Success(Some(v))
      case Failure(e) => Failure(e)
  }

  /** The key is missing or holds `null`, which an optional field reads as `None`. */
  predicate Absent(obj: map<string, Json>, key: string) {
    key !in obj || obj[key] == JNull
  }

  /** The value a decoded optional field was read from, `null` standing for `None`. */
  function OrNull<T>(x: Option<T>, encode: T -> Json): Json {
    match x
    case None => JNull
    case Some(v) => encode(v)
  }

  /** Decoding `OrNull(x, encode)` as an optional field gives `x` back when `encode` round-trips. */
  lemma OptionalOfOrNull<T>(obj: map<string, Json>, key: string, x: Option<T>, encode: T -> Json, decode: Json -> Result<T, DecodeError>)
    requires key in obj && obj[key] == OrNull(x, encode)
    requires x.Some? ==> encode(x.value) != JNull && decode(encode(x.value)) == Success(x.value)
    ensures Optional(obj, key, decode) == Success(x)
  {
  }

  /** The wire form of a `[String]`. */
  function StringArrayWire(xs: seq<string>): (j: Json)
    ensures j.JArray? && |j.items| == |xs|
  {
    JArray(seq(|xs|, i requires 0 <= i < |xs| => JString(xs[i])))
  }

  lemma DecodeStringArrayWire(xs: seq<string>)
    ensures DecodeArray(StringArrayWire(xs), DecodeString) == Success(xs)
  {
    var r := DecodeArray(StringArrayWire(xs), DecodeString);
    assert r.Success?;
    assert r.value == xs;
  }

  /** The wire form of a `[String: String]`. */
  function StringDictionaryWire(m: map<string, string>): (j: Json)
    ensures j.JObject? && j.fields.Keys == m.Keys
  {
    JObject(map k | k in m :: JString(m[k]))
  }

  lemma DecodeStringDictionaryWire(m: map<string, string>)
    ensures DecodeStringDictionary(StringDictionaryWire(m)) == Success(m)
  {
    var r := DecodeStringDictionary(StringDictionaryWire(m));
    assert r.Success?;
    assert r.value == m;
  }
}
