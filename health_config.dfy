/**
 * `PortainerKit.HealthConfig`: a container's health check, its `CodingKeys`
 * table and the synthesized decoder. All five fields are required.
 */
module HealthConfigRecord {
  import opened Wrappers
  import opened JsonDecoding

  /** `HealthConfig.CodingKeys`. */
  datatype CodingKey = Test | Interval | Timeout | Retries | StartPeriod

  function WireKey(k: CodingKey): string {
    match k
    case Test => "Test"
    case Interval => "Interval"
    case Timeout => "Timeout"
    case Retries => "Retries"
    case StartPeriod => "StartPeriod"
  }

  /** Distinct fields are read from distinct wire keys. */
  lemma WireKeysDistinct()
    ensures forall a, b :: WireKey(a) == WireKey(b) ==> a == b
  {
  }

  datatype HealthConfig = HealthConfig(test: seq<string>, interval: Int64, timeout: Int64, retries: Int64, startPeriod: Int64)

  /** `[String]`: an array of strings, read back as exactly those strings. */
  function DecodeTest(j: Json): (r: Result<seq<string>, DecodeError>)
    ensures r.Success? <==> j.JArray? && forall i :: 0 <= i < |j.items| ==> j.items[i].JString?
    ensures r.Success? ==> j == StringArrayWire(r.value)
  {
    DecodeArray(j, DecodeString)
  }

  /**
   * The synthesized `init(from:)`: succeeds only when all five keys are
   * present and not `null`, and then every field is the value on the wire.
   */
  function Decode(j: Json): (r: Result<HealthConfig, DecodeError>)
    ensures r.Success? ==> j.JObject? && forall k :: WireKey(k) in j.fields && j.fields[WireKey(k)] != JNull
    ensures r.Success? ==> j.fields[WireKey(Test)] == StringArrayWire(r.value.test)
    ensures r.Success? ==>
      && j.fields[WireKey(Interval)] == JNumber(r.value.interval)
      && j.fields[WireKey(Timeout)] == JNumber(r.value.timeout)
      && j.fields[WireKey(Retries)] == JNumber(r.value.retries)
      && j.fields[WireKey(StartPeriod)] == JNumber(r.value.startPeriod)
  {
    if !j.JObject? then Unexpected(j)
    else
      var o := j.fields;
      var test :- Required(o, WireKey(Test), DecodeTest);
      var interval :- Required(o, WireKey(Interval), DecodeInt64);
      var timeout :- Required(o, WireKey(Timeout), DecodeInt64);
      var retries :- Required(o, WireKey(Retries), DecodeInt64);
      var startPeriod :- Required(o, WireKey(StartPeriod), DecodeInt64);
      Success(HealthConfig(test, interval, timeout, retries, startPeriod))
  }

  /** Each field of `h` is what its wire key in `o` decodes to. */
  predicate FieldsDecodeTo(o: map<string, Json>, h: HealthConfig) {
    && Required(o, WireKey(Test), DecodeTest) == Success(h.test)
    && Required(o, WireKey(Interval), DecodeInt64) == Success(h.interval)
    && Required(o, WireKey(Timeout), DecodeInt64) == Success(h.timeout)
    && Required(o, WireKey(Retries), DecodeInt64) == Success(h.retries)
    && Required(o, WireKey(StartPeriod), DecodeInt64) == Success(h.startPeriod)
  }

  /** An object decodes to `h` exactly when each of its five fields decodes to `h`'s value for it. */
  lemma DecodeIffFieldsDecodeTo(o: map<string, Json>, h: HealthConfig)
    ensures Decode(JObject(o)) == Success(h) <==> FieldsDecodeTo(o, h)
  {
  }

  /** The wire object the API sends for `h`. */
  function WireForm(h: HealthConfig): Json {
    JObject(map[
      WireKey(Test) := StringArrayWire(h.test),
      WireKey(Interval) := JNumber(h.interval),
      WireKey(Timeout) := JNumber(h.timeout),
      WireKey(Retries) := JNumber(h.retries),
      WireKey(StartPeriod) := JNumber(h.startPeriod)])
  }

  /** Every health check decodes from its wire form. */
  lemma DecodeWireForm(h: HealthConfig)
    ensures Decode(WireForm(h)) == Success(h)
  {
    DecodeStringArrayWire(h.test);
  }
}
