/**
 * `PortainerKit.Mount` and the option records nested in it (`BindOptions`,
 * `VolumeOptions` with its `DriverConfig`, `TmpfsOptions`): their
 * `CodingKeys` tables, their synthesized decoders, and the hand-written `==`
 * of `Mount`. Every field of these records is optional.
 */

module BindOptionsRecord {
  import opened Wrappers
  import opened JsonDecoding
  import PortainerEnums

  /** `BindOptions.CodingKeys`. */
  datatype CodingKey = Propagation

  function WireKey(k: CodingKey): string {
    "Propagation"
  }

  datatype BindOptions = BindOptions(propagation: Option<PortainerEnums.Propagation>)

  function DecodePropagation(j: Json): Result<PortainerEnums.Propagation, DecodeError> {
    DecodeRawString(j, PortainerEnums.PropagationFromRaw)
  }

  /**
   * The synthesized `init(from:)`. A missing or `null` propagation is `None`;
   * a decoded mode is the one whose raw value is on the wire; a propagation
   * mode outside the six known ones fails the whole record.
   */
  function Decode(j: Json): (r: Result<BindOptions, DecodeError>)
    ensures r.Success? ==> j.JObject?
    ensures j.JObject? && Absent(j.fields, WireKey(Propagation)) ==> r == Success(BindOptions(None))
    ensures j.JObject? && WireKey(Propagation) in j.fields && j.fields[WireKey(Propagation)].JString? ==>
      (r.Success? <==> PortainerEnums.PropagationFromRaw(j.fields[WireKey(Propagation)].s).Some?)
    ensures r.Success? && r.value.propagation.Some? ==>
      && WireKey(Propagation) in j.fields
      && j.fields[WireKey(Propagation)] == JString(PortainerEnums.PropagationRawValue(r.value.propagation.value))
  {
    if !j.JObject? then Unexpected(j)
    else
      var propagation :- Optional(j.fields, WireKey(Propagation), DecodePropagation);
      Success(BindOptions(propagation))
  }

  /** The field of `b` is what its wire key in `o` decodes to. */
  predicate FieldsDecodeTo(o: map<string, Json>, b: BindOptions) {
    Optional(o, WireKey(Propagation), DecodePropagation) == Success(b.propagation)
  }

  /** An object decodes to `b` exactly when its field decodes to `b`'s value for it. */
  lemma DecodeIffFieldsDecodeTo(o: map<string, Json>, b: BindOptions)
    ensures Decode(JObject(o)) == Success(b) <==> FieldsDecodeTo(o, b)
  {
  }

  function WireForm(b: BindOptions): Json {
    JObject(map[WireKey(Propagation) := OrNull(b.propagation, (p: PortainerEnums.Propagation) => JString(PortainerEnums.PropagationRawValue(p)))])
  }

  lemma DecodeWireForm(b: BindOptions)
    ensures Decode(WireForm(b)) == Success(b)
  {
    if b.propagation.Some? {
      PortainerEnums.PropagationRoundTrip(b.propagation.value);
    }
  }
}

module DriverConfigRecord {
  import opened Wrappers
  import opened JsonDecoding

  /** `DriverConfig.CodingKeys`. */
  datatype CodingKey = Name | Options

  function WireKey(k: CodingKey): string {
    match k
    case Name => "Name"
    case Options => "Options"
  }

  /** Distinct fields are read from distinct wire keys. */
  lemma WireKeysDistinct()
    ensures forall a, b :: WireKey(a) == WireKey(b) ==> a == b
  {
  }

  datatype DriverConfig = DriverConfig(name: Option<string>, options: Option<map<string, string>>)

  /**
   * The synthesized `init(from:)`. Each field is `None` exactly when its key
   * is missing or `null`, and otherwise holds what is on the wire.
   */
  function Decode(j: Json): (r: Result<DriverConfig, DecodeError>)
    ensures r.Success? ==> j.JObject?
    ensures j == JObject(map[]) ==> r == Success(DriverConfig(None, None))
    ensures r.Success? ==> (r.value.name.None? <==> Absent(j.fields, WireKey(Name)))
    ensures r.Success? ==> (r.value.options.None? <==> Absent(j.fields, WireKey(Options)))
    ensures r.Success? && r.value.name.Some? ==> j.fields[WireKey(Name)] == JString(r.value.name.value)
    ensures r.Success? && r.value.options.Some? ==> DecodeStringDictionary(j.fields[WireKey(Options)]) == Success(r.value.options.value)
  {
    if !j.JObject? then Unexpected(j)
    else
      var name :- Optional(j.fields, WireKey(Name), DecodeString);
      var options :- Optional(j.fields, WireKey(Options), DecodeStringDictionary);
      Success(DriverConfig(name, options))
  }

  /** Each field of `d` is what its wire key in `o` decodes to. */
  predicate FieldsDecodeTo(o: map<string, Json>, d: DriverConfig) {
    && Optional(o, WireKey(Name), DecodeString) == Success(d.name)
    && Optional(o, WireKey(Options), DecodeStringDictionary) == Success(d.options)
  }

  /** An object decodes to `d` exactly when each of its two fields decodes to `d`'s value for it. */
  lemma DecodeIffFieldsDecodeTo(o: map<string, Json>, d: DriverConfig)
    ensures Decode(JObject(o)) == Success(d) <==> FieldsDecodeTo(o, d)
  {
  }

  function WireForm(d: DriverConfig): Json {
    JObject(map[
      WireKey(Name) := OrNull(d.name, (s: string) => JString(s)),
      WireKey(Options) := OrNull(d.options, StringDictionaryWire)])
  }

  lemma DecodeWireForm(d: DriverConfig)
    ensures Decode(WireForm(d)) == Success(d)
  {
    if d.options.Some? {
      DecodeStringDictionaryWire(d.options.value);
    }
  }
}

module VolumeOptionsRecord {
  import opened Wrappers
  import opened JsonDecoding
  import DriverConfigRecord

  /** `VolumeOptions.CodingKeys`. */
  datatype CodingKey = NoCopy | Labels | DriverConfig

  function WireKey(k: CodingKey): string {
    match k
    case NoCopy => "NoCopy"
    case Labels => "Labels"
    case DriverConfig => "DriverConfig"
  }

  /** Distinct fields are read from distinct wire keys. */
  lemma WireKeysDistinct()
    ensures forall a, b :: WireKey(a) == WireKey(b) ==> a == b
  {
  }

  datatype VolumeOptions = VolumeOptions(
    noCopy: Option<bool>,
    labels: Option<map<string, string>>,
    driverConfig: Option<DriverConfigRecord.DriverConfig>)

  /**
   * The synthesized `init(from:)`. Each field is `None` exactly when its key
   * is missing or `null`, and otherwise holds what its key decodes to.
   */
  function Decode(j: Json): (r: Result<VolumeOptions, DecodeError>)
    ensures r.Success? ==> j.JObject?
    ensures j == JObject(map[]) ==> r == Success(VolumeOptions(None, None, None))
    ensures r.Success? ==> (r.value.noCopy.None? <==> Absent(j.fields, WireKey(NoCopy)))
    ensures r.Success? ==> (r.value.labels.None? <==> Absent(j.fields, WireKey(Labels)))
    ensures r.Success? ==> (r.value.driverConfig.None? <==> Absent(j.fields, WireKey(DriverConfig)))
    ensures r.Success? && r.value.noCopy.Some? ==> j.fields[WireKey(NoCopy)] == JBool(r.value.noCopy.value)
    ensures r.Success? && r.value.labels.Some? ==> DecodeStringDictionary(j.fields[WireKey(Labels)]) == Success(r.value.labels.value)
    ensures r.Success? && r.value.driverConfig.Some? ==>
      DriverConfigRecord.Decode(j.fields[WireKey(DriverConfig)]) == Success(r.value.driverConfig.value)
  {
    if !j.JObject? then Unexpected(j)
    else
      var noCopy :- Optional(j.fields, WireKey(NoCopy), DecodeBool);
      var labels :- Optional(j.fields, WireKey(Labels), DecodeStringDictionary);
      var driverConfig :- Optional(j.fields, WireKey(DriverConfig), DriverConfigRecord.Decode);
      Success(VolumeOptions(noCopy, labels, driverConfig))
  }

  /** Each field of `v` is what its wire key in `o` decodes to. */
  predicate FieldsDecodeTo(o: map<string, Json>, v: VolumeOptions) {
    && Optional(o, WireKey(NoCopy), DecodeBool) == Success(v.noCopy)
    && Optional(o, WireKey(Labels), DecodeStringDictionary) == Success(v.labels)
    && Optional(o, WireKey(DriverConfig), DriverConfigRecord.Decode) == Success(v.driverConfig)
  }

  /** An object decodes to `v` exactly when each of its three fields decodes to `v`'s value for it. */
  lemma DecodeIffFieldsDecodeTo(o: map<string, Json>, v: VolumeOptions)
    ensures Decode(JObject(o)) == Success(v) <==> FieldsDecodeTo(o, v)
  {
  }

  function WireForm(v: VolumeOptions): Json {
    JObject(map[
      WireKey(NoCopy) := OrNull(v.noCopy, (b: bool) => JBool(b)),
      WireKey(Labels) := OrNull(v.labels, StringDictionaryWire),
      WireKey(DriverConfig) := OrNull(v.driverConfig, DriverConfigRecord.WireForm)])
  }

  lemma DecodeWireForm(v: VolumeOptions)
    ensures Decode(WireForm(v)) == Success(v)
  {
    var o := WireForm(v).fields;
    if v.labels.Some? {
      DecodeStringDictionaryWire(v.labels.value);
    }
    if v.driverConfig.Some? {
      DriverConfigRecord.DecodeWireForm(v.driverConfig.value);
    }
    OptionalOfOrNull(o, WireKey(Labels), v.labels, StringDictionaryWire, DecodeStringDictionary);
    OptionalOfOrNull(o, WireKey(DriverConfig), v.driverConfig, DriverConfigRecord.WireForm, DriverConfigRecord.Decode);
  }
}

module TmpfsOptionsRecord {
  import opened Wrappers
  import opened JsonDecoding

  /** `TmpfsOptions.CodingKeys`. */
  datatype CodingKey = SizeBytes | Mode

  function WireKey(k: CodingKey): string {
    match k
    case SizeBytes => "SizeBytes"
    case Mode => "Mode"
  }

  /** Distinct fields are read from distinct wire keys. */
  lemma WireKeysDistinct()
    ensures forall a, b :: WireKey(a) == WireKey(b) ==> a == b
  {
  }

  datatype TmpfsOptions = TmpfsOptions(sizeBytes: Option<Int64>, mode: Option<Int64>)

  /** The field `k` holds a number that does not fit in `Int64`. */
  predicate OutOfRange(o: map<string, Json>, k: CodingKey) {
    WireKey(k) in o && o[WireKey(k)].JNumber? && !(-0x8000_0000_0000_0000 <= o[WireKey(k)].n < 0x8000_0000_0000_0000)
  }

  /**
   * The synthesized `init(from:)`. Each field is `None` exactly when its key
   * is missing or `null`, and otherwise the number on the wire; a size or mode
   * that does not fit in 64 bits fails the record.
   */
  function Decode(j: Json): (r: Result<TmpfsOptions, DecodeError>)
    ensures r.Success? ==> j.JObject?
    ensures j.JObject? && (OutOfRange(j.fields, SizeBytes) || OutOfRange(j.fields, Mode)) ==> r.Failure?
    ensures r.Success? ==> (r.value.sizeBytes.None? <==> Absent(j.fields, WireKey(SizeBytes)))
    ensures r.Success? ==> (r.value.mode.None? <==> Absent(j.fields, WireKey(Mode)))
    ensures r.Success? && r.value.sizeBytes.Some? ==> WireKey(SizeBytes) in j.fields && j.fields[WireKey(SizeBytes)] == JNumber(r.value.sizeBytes.value)
    ensures r.Success? && r.value.mode.Some? ==> WireKey(Mode) in j.fields && j.fields[WireKey(Mode)] == JNumber(r.value.mode.value)
  {
    if !j.JObject? then Unexpected(j)
    else
      var sizeBytes :- Optional(j.fields, WireKey(SizeBytes), DecodeInt64);
      var mode :- Optional(j.fields, WireKey(Mode), DecodeInt64);
      Success(TmpfsOptions(sizeBytes, mode))
  }

  /** Each field of `t` is what its wire key in `o` decodes to. */
  predicate FieldsDecodeTo(o: map<string, Json>, t: TmpfsOptions) {
    && Optional(o, WireKey(SizeBytes), DecodeInt64) == Success(t.sizeBytes)
    && Optional(o, WireKey(Mode), DecodeInt64) == Success(t.mode)
  }

  /** An object decodes to `t` exactly when each of its two fields decodes to `t`'s value for it. */
  lemma DecodeIffFieldsDecodeTo(o: map<string, Json>, t: TmpfsOptions)
    ensures Decode(JObject(o)) == Success(t) <==> FieldsDecodeTo(o, t)
  {
  }

  function WireForm(t: TmpfsOptions): Json {
    JObject(map[
      WireKey(SizeBytes) := OrNull(t.sizeBytes, (n: Int64) => JNumber(n)),
      WireKey(Mode) := OrNull(t.mode, (n: Int64) => JNumber(n))])
  }

  lemma DecodeWireForm(t: TmpfsOptions)
    ensures Decode(WireForm(t)) == Success(t)
  {
  }
}

module MountRecord {
  import opened Wrappers
  import opened JsonDecoding
  import PortainerEnums
  import BindOptionsRecord
  import VolumeOptionsRecord
  import TmpfsOptionsRecord

  /** `Mount.CodingKeys`. */
  datatype CodingKey = Target | Source | Type | ReadOnly | Consistency | BindOptions | VolumeOptions | TmpfsOptions

  function WireKey(k: CodingKey): string {
    match k
    case Target => "Target"
    case Source => "Source"
    case Type => "Type"
    case ReadOnly => "ReadOnly"
    case Consistency => "Consistency"
    case BindOptions => "BindOptions"
    case VolumeOptions => "VolumeOptions"
    case TmpfsOptions => "TmpfsOptions"
  }

  /** Distinct fields are read from distinct wire keys. */
  lemma WireKeysDistinct()
    ensures forall a, b :: WireKey(a) == WireKey(b) ==> a == b
  {
  }

  datatype Mount = Mount(
    target: Option<string>,
    source: Option<string>,
    mountType: Option<PortainerEnums.MountType>,
    readOnly: Option<bool>,
    consistency: Option<PortainerEnums.MountConsistency>,
    bindOptions: Option<BindOptionsRecord.BindOptions>,
    volumeOptions: Option<VolumeOptionsRecord.VolumeOptions>,
    tmpfsOptions: Option<TmpfsOptionsRecord.TmpfsOptions>)

  function DecodeMountType(j: Json): Result<PortainerEnums.MountType, DecodeError> {
    DecodeRawString(j, PortainerEnums.MountTypeFromRaw)
  }

  function DecodeConsistency(j: Json): Result<PortainerEnums.MountConsistency, DecodeError> {
    DecodeRawString(j, PortainerEnums.MountConsistencyFromRaw)
  }

  /**
   * The synthesized `init(from:)`. Every field is optional, so an object with
   * none of the keys decodes to a mount whose fields are all `None`; an
   * unknown type or consistency fails the whole mount.
   */
  function Decode(j: Json): (r: Result<Mount, DecodeError>)
    ensures r.Success? ==> j.JObject?
    ensures j.JObject? && (forall k :: WireKey(k) !in j.fields) ==> r == Success(Mount(None, None, None, None, None, None, None, None))
    ensures (j.JObject? && WireKey(Type) in j.fields && j.fields[WireKey(Type)].JString?
             && PortainerEnums.MountTypeFromRaw(j.fields[WireKey(Type)].s).None?) ==> r.Failure?
    ensures (j.JObject? && WireKey(Consistency) in j.fields && j.fields[WireKey(Consistency)].JString?
             && PortainerEnums.MountConsistencyFromRaw(j.fields[WireKey(Consistency)].s).None?) ==> r.Failure?
  {
    if !j.JObject? then Unexpected(j)
    else
      var o := j.fields;
      var target :- Optional(o, WireKey(Target), DecodeString);
      var source :- Optional(o, WireKey(Source), DecodeString);
      var mountType :- Optional(o, WireKey(Type), DecodeMountType);
      var readOnly :- Optional(o, WireKey(ReadOnly), DecodeBool);
      var consistency :- Optional(o, WireKey(Consistency), DecodeConsistency);
      var bindOptions :- Optional(o, WireKey(BindOptions), BindOptionsRecord.Decode);
      var volumeOptions :- Optional(o, WireKey(VolumeOptions), VolumeOptionsRecord.Decode);
      var tmpfsOptions :- Optional(o, WireKey(TmpfsOptions), TmpfsOptionsRecord.Decode);
      Success(Mount(target, source, mountType, readOnly, consistency, bindOptions, volumeOptions, tmpfsOptions))
  }

  function MountTypeWire(t: PortainerEnums.MountType): Json {
    JString(PortainerEnums.MountTypeRawValue(t))
  }

  function ConsistencyWire(c: PortainerEnums.MountConsistency): Json {
    JString(PortainerEnums.MountConsistencyRawValue(c))
  }

  /** The wire object the API sends for `m`, absent fields as `null`. */
  function WireForm(m: Mount): Json {
    JObject(map[
      WireKey(Target) := OrNull(m.target, (s: string) => JString(s)),
      WireKey(Source) := OrNull(m.source, (s: string) => JString(s)),
      WireKey(Type) := OrNull(m.mountType, MountTypeWire),
      WireKey(ReadOnly) := OrNull(m.readOnly, (b: bool) => JBool(b)),
      WireKey(Consistency) := OrNull(m.consistency, ConsistencyWire),
      WireKey(BindOptions) := OrNull(m.bindOptions, BindOptionsRecord.WireForm),
      WireKey(VolumeOptions) := OrNull(m.volumeOptions, VolumeOptionsRecord.WireForm),
      WireKey(TmpfsOptions) := OrNull(m.tmpfsOptions, TmpfsOptionsRecord.WireForm)])
  }

  /** `o` holds every field of `m` under its wire key, in the form the API sends it. */
  ghost predicate CarriesFields(o: map<string, Json>, m: Mount) {
    && (forall k :: WireKey(k) in o)
    && o[WireKey(Target)] == OrNull(m.target, (s: string) => JString(s))
    && o[WireKey(Source)] == OrNull(m.source, (s: string) => JString(s))
    && o[WireKey(Type)] == OrNull(m.mountType, MountTypeWire)
    && o[WireKey(ReadOnly)] == OrNull(m.readOnly, (b: bool) => JBool(b))
    && o[WireKey(Consistency)] == OrNull(m.consistency, ConsistencyWire)
    && o[WireKey(BindOptions)] == OrNull(m.bindOptions, BindOptionsRecord.WireForm)
    && o[WireKey(VolumeOptions)] == OrNull(m.volumeOptions, VolumeOptionsRecord.WireForm)
    && o[WireKey(TmpfsOptions)] == OrNull(m.tmpfsOptions, TmpfsOptionsRecord.WireForm)
  }

  lemma WireFormCarriesFields(m: Mount)
    ensures CarriesFields(WireForm(m).fields, m)
  {
  }

  /** Each field of `m` is what its wire key in `o` decodes to. */
  predicate FieldsDecodeTo(o: map<string, Json>, m: Mount) {
    && Optional(o, WireKey(Target), DecodeString) == Success(m.target)
    && Optional(o, WireKey(Source), DecodeString) == Success(m.source)
    && Optional(o, WireKey(Type), DecodeMountType) == Success(m.mountType)
    && Optional(o, WireKey(ReadOnly), DecodeBool) == Success(m.readOnly)
    && Optional(o, WireKey(Consistency), DecodeConsistency) == Success(m.consistency)
    && Optional(o, WireKey(BindOptions), BindOptionsRecord.Decode) == Success(m.bindOptions)
    && Optional(o, WireKey(VolumeOptions), VolumeOptionsRecord.Decode) == Success(m.volumeOptions)
    && Optional(o, WireKey(TmpfsOptions), TmpfsOptionsRecord.Decode) == Success(m.tmpfsOptions)
  }

  /** An object decodes to `m` exactly when each of its eight fields decodes to `m`'s value for it. */
  lemma DecodeIffFieldsDecodeTo(o: map<string, Json>, m: Mount)
    ensures Decode(JObject(o)) == Success(m) <==> FieldsDecodeTo(o, m)
  {
  }

  /** The four scalar fields of `m` decode back from an object that carries them. */
  lemma DecodeCarriedScalars(o: map<string, Json>, m: Mount)
    requires CarriesFields(o, m)
    ensures Optional(o, WireKey(Target), DecodeString) == Success(m.target)
    ensures Optional(o, WireKey(Source), DecodeString) == Success(m.source)
    ensures Optional(o, WireKey(Type), DecodeMountType) == Success(m.mountType)
    ensures Optional(o, WireKey(ReadOnly), DecodeBool) == Success(m.readOnly)
    ensures Optional(o, WireKey(Consistency), DecodeConsistency) == Success(m.consistency)
  {
    if m.mountType.Some? {
      PortainerEnums.MountTypeRoundTrip(m.mountType.value);
    }
    if m.consistency.Some? {
      PortainerEnums.MountConsistencyRoundTrip(m.consistency.value);
    }
    OptionalOfOrNull(o, WireKey(Target), m.target, (s: string) => JString(s), DecodeString);
    OptionalOfOrNull(o, WireKey(Source), m.source, (s: string) => JString(s), DecodeString);
    OptionalOfOrNull(o, WireKey(Type), m.mountType, MountTypeWire, DecodeMountType);
    OptionalOfOrNull(o, WireKey(ReadOnly), m.readOnly, (b: bool) => JBool(b), DecodeBool);
    OptionalOfOrNull(o, WireKey(Consistency), m.consistency, ConsistencyWire, DecodeConsistency);
  }

  /** The three option records of `m` decode back from an object that carries them. */
  lemma DecodeCarriedOptions(o: map<string, Json>, m: Mount)
    requires CarriesFields(o, m)
    ensures Optional(o, WireKey(BindOptions), BindOptionsRecord.Decode) == Success(m.bindOptions)
    ensures Optional(o, WireKey(VolumeOptions), VolumeOptionsRecord.Decode) == Success(m.volumeOptions)
    ensures Optional(o, WireKey(TmpfsOptions), TmpfsOptionsRecord.Decode) == Success(m.tmpfsOptions)
  {
    if m.bindOptions.Some? {
      BindOptionsRecord.DecodeWireForm(m.bindOptions.value);
    }
    if m.volumeOptions.Some? {
      VolumeOptionsRecord.DecodeWireForm(m.volumeOptions.value);
    }
    if m.tmpfsOptions.Some? {
      TmpfsOptionsRecord.DecodeWireForm(m.tmpfsOptions.value);
    }
    OptionalOfOrNull(o, WireKey(BindOptions), m.bindOptions, BindOptionsRecord.WireForm, BindOptionsRecord.Decode);
    OptionalOfOrNull(o, WireKey(VolumeOptions), m.volumeOptions, VolumeOptionsRecord.WireForm, VolumeOptionsRecord.Decode);
    OptionalOfOrNull(o, WireKey(TmpfsOptions), m.tmpfsOptions, TmpfsOptionsRecord.WireForm, TmpfsOptionsRecord.Decode);
  }

  /** Any object that carries the fields of `m` under their keys decodes to `m`, whatever other keys it has. */
  lemma DecodeCarriedFields(o: map<string, Json>, m: Mount)
    requires CarriesFields(o, m)
    ensures Decode(JObject(o)) == Success(m)
  {
    DecodeCarriedScalars(o, m);
    DecodeCarriedOptions(o, m);
    DecodeIffFieldsDecodeTo(o, m);
  }

  /** Every mount decodes from its wire form. */
  lemma DecodeWireForm(m: Mount)
    ensures Decode(WireForm(m)) == Success(m)
  {
    WireFormCarriesFields(m);
    DecodeCarriedFields(WireForm(m).fields, m);
  }

  // ---------------------------------------------------------------------------
  // Equality

  /** `Mount.==`: compares target, source, type and read-only flag, and nothing else. */
  predicate Equal(lhs: Mount, rhs: Mount) {
    lhs.target == rhs.target && lhs.source == rhs.source && lhs.mountType == rhs.mountType && lhs.readOnly == rhs.readOnly
  }

  /** A mount with its consistency and the three option records erased. */
  function DefiningFields(m: Mount): Mount {
    m.(consistency := None, bindOptions := None, volumeOptions := None, tmpfsOptions := None)
  }

  /** Two mounts are `==` exactly when they agree once the four ignored fields are erased. */
  lemma EqualIffDefiningFieldsAgree(a: Mount, b: Mount)
    ensures Equal(a, b) <==> DefiningFields(a) == DefiningFields(b)
  {
    if DefiningFields(a) == DefiningFields(b) {
      assert DefiningFields(a).target == DefiningFields(b).target;
      assert DefiningFields(a).source == DefiningFields(b).source;
      assert DefiningFields(a).mountType == DefiningFields(b).mountType;
      assert DefiningFields(a).readOnly == DefiningFields(b).readOnly;
    }
  }

  /** `==` is reflexive, symmetric and transitive. */
  lemma EqualIsEquivalence(a: Mount, b: Mount, c: Mount)
    ensures Equal(a, a)
    ensures Equal(a, b) ==> Equal(b, a)
    ensures Equal(a, b) && Equal(b, c) ==> Equal(a, c)
  {
  }

  /** Changing the consistency or any option record leaves a mount `==` to what it was. */
  lemma EqualIgnoresOptions(
    m: Mount,
    consistency: Option<PortainerEnums.MountConsistency>,
    bindOptions: Option<BindOptionsRecord.BindOptions>,
    volumeOptions: Option<VolumeOptionsRecord.VolumeOptions>,
    tmpfsOptions: Option<TmpfsOptionsRecord.TmpfsOptions>)
    ensures Equal(m, m.(consistency := consistency, bindOptions := bindOptions, volumeOptions := volumeOptions, tmpfsOptions := tmpfsOptions))
  {
  }

  /** `==` is strictly coarser than identity: two different mounts can be `==`. */
  lemma EqualIsCoarserThanIdentity()
    ensures exists a: Mount, b: Mount :: Equal(a, b) && a != b
  {
    var a := Mount(None, None, None, None, None, None, None, None);
    var b := a.(consistency := Some(PortainerEnums.Cached));
    assert Equal(a, b) && a != b;
  }
}
