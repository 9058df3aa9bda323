/**
 * `PortainerKit.Port`: a published container port, its `CodingKeys` table and
 * the synthesized decoder. All four fields are optional; the two port numbers
 * are `UInt16`, so a number outside 0..65535 fails the whole record.
 */
module PortRecord {
  import opened Wrappers
  import opened JsonDecoding
  import PortainerEnums

  /** `Port.CodingKeys`. */
  datatype CodingKey = IP | PrivatePort | PublicPort | Type

  function WireKey(k: CodingKey): string {
    match k
    case IP => "IP"
    case PrivatePort => "PrivatePort"
    case PublicPort => "PublicPort"
    case Type => "Type"
  }

  /** Distinct fields are read from distinct wire keys. */
  lemma WireKeysDistinct()
    ensures forall a, b :: WireKey(a) == WireKey(b) ==> a == b
  {
  }

  datatype Port = Port(ip: Option<string>, privatePort: Option<UInt16>, publicPort: Option<UInt16>, portType: Option<PortainerEnums.PortType>)

  function DecodePortType(j: Json): Result<PortainerEnums.PortType, DecodeError> {
    DecodeRawString(j, PortainerEnums.PortTypeFromRaw)
  }

  /** The port field `k` holds a number that does not fit in `UInt16`. */
  predicate OutOfRange(o: map<string, Json>, k: CodingKey) {
    WireKey(k) in o && o[WireKey(k)].JNumber? && !(0 <= o[WireKey(k)].n <= 65535)
  }

  /**
   * The synthesized `init(from:)`. A port number outside the `UInt16` range
   * fails the record; a decoded port number is the number on the wire.
   */
  function Decode(j: Json): (r: Result<Port, DecodeError>)
    ensures r.Success? ==> j.JObject?
    ensures j.JObject? && (OutOfRange(j.fields, PrivatePort) || OutOfRange(j.fields, PublicPort)) ==> r.Failure?
    ensures r.Success? && r.value.privatePort.Some? ==>
      WireKey(PrivatePort) in j.fields && j.fields[WireKey(PrivatePort)] == JNumber(r.value.privatePort.value)
    ensures r.Success? && r.value.publicPort.Some? ==>
      WireKey(PublicPort) in j.fields && j.fields[WireKey(PublicPort)] == JNumber(r.value.publicPort.value)
    ensures r.Success? && r.value.privatePort.None? ==>
      WireKey(PrivatePort) !in j.fields || j.fields[WireKey(PrivatePort)] == JNull
  {
    if !j.JObject? then Unexpected(j)
    else
      var o := j.fields;
      var ip :- Optional(o, WireKey(IP), DecodeString);
      var privatePort :- Optional(o, WireKey(PrivatePort), DecodeUInt16);
      var publicPort :- Optional(o, WireKey(PublicPort), DecodeUInt16);
      var portType :- Optional(o, WireKey(Type), DecodePortType);
      Success(Port(ip, privatePort, publicPort, portType))
  }

  function PortTypeWire(t: PortainerEnums.PortType): Json {
    JString(PortainerEnums.PortTypeRawValue(t))
  }

  /** The wire object the API sends for `p`, absent fields as `null`. */
  function WireForm(p: Port): Json {
    JObject(map[
      WireKey(IP) := OrNull(p.ip, (s: string) => JString(s)),
      WireKey(PrivatePort) := OrNull(p.privatePort, (n: UInt16) => JNumber(n)),
      WireKey(PublicPort) := OrNull(p.publicPort, (n: UInt16) => JNumber(n)),
      WireKey(Type) := OrNull(p.portType, PortTypeWire)])
  }

  /** Each field of `p` is what its wire key in `o` decodes to. */
  predicate FieldsDecodeTo(o: map<string, Json>, p: Port) {
    && Optional(o, WireKey(IP), DecodeString) == Success(p.ip)
    && Optional(o, WireKey(PrivatePort), DecodeUInt16) == Success(p.privatePort)
    && Optional(o, WireKey(PublicPort), DecodeUInt16) == Success(p.publicPort)
    && Optional(o, WireKey(Type), DecodePortType) == Success(p.portType)
  }

  /** An object decodes to `p` exactly when each of its four fields decodes to `p`'s value for it. */
  lemma DecodeIffFieldsDecodeTo(o: map<string, Json>, p: Port)
    ensures Decode(JObject(o)) == Success(p) <==> FieldsDecodeTo(o, p)
  {
  }

  /** Every port decodes from its wire form. */
  lemma DecodeWireForm(p: Port)
    ensures Decode(WireForm(p)) == Success(p)
  {
    var o := WireForm(p).fields;
    if p.portType.Some? {
      PortainerEnums.PortTypeRoundTrip(p.portType.value);
    }
    OptionalOfOrNull(o, WireKey(IP), p.ip, (s: string) => JString(s), DecodeString);
    OptionalOfOrNull(o, WireKey(PrivatePort), p.privatePort, (n: UInt16) => JNumber(n), DecodeUInt16);
    OptionalOfOrNull(o, WireKey(PublicPort), p.publicPort, (n: UInt16) => JNumber(n), DecodeUInt16);
    OptionalOfOrNull(o, WireKey(Type), p.portType, PortTypeWire, DecodePortType);
    DecodeIffFieldsDecodeTo(o, p);
  }
}
