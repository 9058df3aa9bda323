/**
 * `PortainerKit.ContainerState`: the state block of a container inspection,
 * its `CodingKeys` table, and the synthesized decoder. Every field except the
 * two timestamps is required.
 */
module ContainerStateRecord {
  import opened Wrappers
  import opened JsonDecoding
  import PortainerEnums

  /** `ContainerState.CodingKeys`. */
  datatype CodingKey = Status | Running | Paused | Restarting | OOMKilled | Dead | Pid | Error | StartedAt | FinishedAt

  function WireKey(k: CodingKey): string {
    match k
    case Status => "Status"
    case Running => "Running"
    case Paused => "Paused"
    case Restarting => "Restarting"
    case OOMKilled => "OOMKilled"
    case Dead => "Dead"
    case Pid => "Pid"
    case Error => "Error"
    case StartedAt => "StartedAt"
    case FinishedAt => "FinishedAt"
  }

  /** Distinct fields are read from distinct wire keys. */
  lemma WireKeysDistinct()
    ensures forall a, b :: WireKey(a) == WireKey(b) ==> a == b
  {
  }

  /** The fields declared without `?`. */
  predicate IsRequired(k: CodingKey) {
    k != StartedAt && k != FinishedAt
  }

  datatype ContainerState = ContainerState(
    status: PortainerEnums.ContainerStatus,
    running: bool,
    paused: bool,
    restarting: bool,
    oomKilled: bool,
    dead: bool,
    pid: Int64,
    error: string,
    startedAt: Option<Date>,
    finishedAt: Option<Date>)

  function DecodeStatus(j: Json): Result<PortainerEnums.ContainerStatus, DecodeError> {
    DecodeRawString(j, PortainerEnums.ContainerStatusFromRaw)
  }

  /**
   * The synthesized `init(from:)`, fields in declaration order; `decodeDate`
   * is the decoder's date strategy. Decoding succeeds only when every required
   * key is present and not `null` (each required field is then the value on
   * the wire, see `DecodedFieldsAreOnTheWire`); a timestamp is `None` exactly
   * when its key is missing or `null`, and otherwise what the date strategy
   * reads from it.
   */
  function Decode(j: Json, decodeDate: Json -> Result<Date, DecodeError>): (r: Result<ContainerState, DecodeError>)
    ensures r.Success? ==> j.JObject? && forall k :: IsRequired(k) ==> WireKey(k) in j.fields && j.fields[WireKey(k)] != JNull
    ensures r.Success? && WireKey(StartedAt) !in j.fields ==> r.value.startedAt == None
    ensures r.Success? && WireKey(FinishedAt) !in j.fields ==> r.value.finishedAt == None
    ensures r.Success? ==> (r.value.startedAt.None? <==> Absent(j.fields, WireKey(StartedAt)))
    ensures r.Success? ==> (r.value.finishedAt.None? <==> Absent(j.fields, WireKey(FinishedAt)))
    ensures r.Success? && r.value.startedAt.Some? ==> decodeDate(j.fields[WireKey(StartedAt)]) == Success(r.value.startedAt.value)
    ensures r.Success? && r.value.finishedAt.Some? ==> decodeDate(j.fields[WireKey(FinishedAt)]) == Success(r.value.finishedAt.value)
  {
    if !j.JObject? then Unexpected(j)
    else
      var o := j.fields;
      var status :- Required(o, WireKey(Status), DecodeStatus);
      var running :- Required(o, WireKey(Running), DecodeBool);
      var paused :- Required(o, WireKey(Paused), DecodeBool);
      var restarting :- Required(o, WireKey(Restarting), DecodeBool);
      var oomKilled :- Required(o, WireKey(OOMKilled), DecodeBool);
      var dead :- Required(o, WireKey(Dead), DecodeBool);
      var pid :- Required(o, WireKey(Pid), DecodeInt64);
      var error :- Required(o, WireKey(Error), DecodeString);
      var startedAt :- Optional(o, WireKey(StartedAt), decodeDate);
      var finishedAt :- Optional(o, WireKey(FinishedAt), decodeDate);
      Success(ContainerState(status, running, paused, restarting, oomKilled, dead, pid, error, startedAt, finishedAt))
  }

  /** Each field of `s` is what its wire key in `o` decodes to. */
  predicate FieldsDecodeTo(o: map<string, Json>, s: ContainerState, decodeDate: Json -> Result<Date, DecodeError>) {
    && Required(o, WireKey(Status), DecodeStatus) == Success(s.status)
    && Required(o, WireKey(Running), DecodeBool) == Success(s.running)
    && Required(o, WireKey(Paused), DecodeBool) == Success(s.paused)
    && Required(o, WireKey(Restarting), DecodeBool) == Success(s.restarting)
    && Required(o, WireKey(OOMKilled), DecodeBool) == Success(s.oomKilled)
    && Required(o, WireKey(Dead), DecodeBool) == Success(s.dead)
    && Required(o, WireKey(Pid), DecodeInt64) == Success(s.pid)
    && Required(o, WireKey(Error), DecodeString) == Success(s.error)
    && Optional(o, WireKey(StartedAt), decodeDate) == Success(s.startedAt)
    && Optional(o, WireKey(FinishedAt), decodeDate) == Success(s.finishedAt)
  }

  /** An object decodes to `s` exactly when each of its ten fields decodes to `s`'s value for it. */
  lemma DecodeIffFieldsDecodeTo(o: map<string, Json>, s: ContainerState, decodeDate: Json -> Result<Date, DecodeError>)
    ensures Decode(JObject(o), decodeDate) == Success(s) <==> FieldsDecodeTo(o, s, decodeDate)
  {
    if Decode(JObject(o), decodeDate) == Success(s) {
      DecodeGivesFieldResults(o, decodeDate);
    }
    if FieldsDecodeTo(o, s, decodeDate) {
      DecodeOfFieldResults(o, s, decodeDate);
    }
  }

  /** A successful decode is made of what each field decodes to. */
  lemma DecodeGivesFieldResults(o: map<string, Json>, decodeDate: Json -> Result<Date, DecodeError>)
    requires Decode(JObject(o), decodeDate).Success?
    ensures FieldsDecodeTo(o, Decode(JObject(o), decodeDate).value, decodeDate)
  {
    var status := Required(o, WireKey(Status), DecodeStatus);
    var running := Required(o, WireKey(Running), DecodeBool);
    var paused := Required(o, WireKey(Paused), DecodeBool);
    var restarting := Required(o, WireKey(Restarting), DecodeBool);
    var oomKilled := Required(o, WireKey(OOMKilled), DecodeBool);
    var dead := Required(o, WireKey(Dead), DecodeBool);
    var pid := Required(o, WireKey(Pid), DecodeInt64);
    var error := Required(o, WireKey(Error), DecodeString);
    var startedAt := Optional(o, WireKey(StartedAt), decodeDate);
    var finishedAt := Optional(o, WireKey(FinishedAt), decodeDate);
    assert status.Success? && running.Success? && paused.Success? && restarting.Success? && oomKilled.Success?;
    assert dead.Success? && pid.Success? && error.Success? && startedAt.Success? && finishedAt.Success?;
    assert Decode(JObject(o), decodeDate).value == ContainerState(
      status.value, running.value, paused.value, restarting.value, oomKilled.value,
      dead.value, pid.value, error.value, startedAt.value, finishedAt.value);
  }

  /** `Decode` assembles a state from what its ten fields decode to. */
  lemma DecodeOfFieldResults(o: map<string, Json>, s: ContainerState, decodeDate: Json -> Result<Date, DecodeError>)
    requires FieldsDecodeTo(o, s, decodeDate)
    ensures Decode(JObject(o), decodeDate) == Success(s)
  {
  }

  /** The required fields of a decoded state are the values on the wire. */
  lemma DecodedFieldsAreOnTheWire(j: Json, decodeDate: Json -> Result<Date, DecodeError>)
    requires Decode(j, decodeDate).Success?
    ensures var s := Decode(j, decodeDate).value;
      && j.JObject?
      && (forall k :: IsRequired(k) ==> WireKey(k) in j.fields)
      && j.fields[WireKey(Status)] == JString(PortainerEnums.ContainerStatusRawValue(s.status))
      && j.fields[WireKey(Running)] == JBool(s.running)
      && j.fields[WireKey(Paused)] == JBool(s.paused)
      && j.fields[WireKey(Restarting)] == JBool(s.restarting)
      && j.fields[WireKey(OOMKilled)] == JBool(s.oomKilled)
      && j.fields[WireKey(Dead)] == JBool(s.dead)
      && j.fields[WireKey(Pid)] == JNumber(s.pid)
      && j.fields[WireKey(Error)] == JString(s.error)
  {
    var s := Decode(j, decodeDate).value;
    DecodeIffFieldsDecodeTo(j.fields, s, decodeDate);
  }

  /** A state block without one of its required keys does not decode. */
  lemma MissingRequiredKeyFails(j: Json, decodeDate: Json -> Result<Date, DecodeError>, k: CodingKey)
    requires j.JObject? && IsRequired(k) && WireKey(k) !in j.fields
    ensures Decode(j, decodeDate).Failure?
  {
  }

  /** The wire object the API sends for `s`, each field under its own key and absent timestamps as `null`. */
  function WireForm(s: ContainerState, encodeDate: Date -> Json): Json {
    JObject(map[
      WireKey(Status) := JString(PortainerEnums.ContainerStatusRawValue(s.status)),
      WireKey(Running) := JBool(s.running),
      WireKey(Paused) := JBool(s.paused),
      WireKey(Restarting) := JBool(s.restarting),
      WireKey(OOMKilled) := JBool(s.oomKilled),
      WireKey(Dead) := JBool(s.dead),
      WireKey(Pid) := JNumber(s.pid),
      WireKey(Error) := JString(s.error),
      WireKey(StartedAt) := OrNull(s.startedAt, encodeDate),
      WireKey(FinishedAt) := OrNull(s.finishedAt, encodeDate)])
  }

  /** `o` holds every field of `s` under its wire key, in the form the API sends it. */
  ghost predicate CarriesFields(o: map<string, Json>, s: ContainerState, encodeDate: Date -> Json) {
    && (forall k :: WireKey(k) in o)
    && o[WireKey(Status)] == JString(PortainerEnums.ContainerStatusRawValue(s.status))
    && o[WireKey(Running)] == JBool(s.running)
    && o[WireKey(Paused)] == JBool(s.paused)
    && o[WireKey(Restarting)] == JBool(s.restarting)
    && o[WireKey(OOMKilled)] == JBool(s.oomKilled)
    && o[WireKey(Dead)] == JBool(s.dead)
    && o[WireKey(Pid)] == JNumber(s.pid)
    && o[WireKey(Error)] == JString(s.error)
    && o[WireKey(StartedAt)] == OrNull(s.startedAt, encodeDate)
    && o[WireKey(FinishedAt)] == OrNull(s.finishedAt, encodeDate)
  }

  lemma WireFormCarriesFields(s: ContainerState, encodeDate: Date -> Json)
    ensures CarriesFields(WireForm(s, encodeDate).fields, s, encodeDate)
  {
  }

  /**
   * Any object that carries the fields of `s` under their keys decodes to
   * `s`, whatever other keys it has, provided the date strategy round-trips.
   */
  lemma DecodeCarriedFields(o: map<string, Json>, s: ContainerState, encodeDate: Date -> Json, decodeDate: Json -> Result<Date, DecodeError>)
    requires CarriesFields(o, s, encodeDate)
    requires forall d :: encodeDate(d) != JNull && decodeDate(encodeDate(d)) == Success(d)
    ensures Decode(JObject(o), decodeDate) == Success(s)
  {
    PortainerEnums.ContainerStatusRoundTrip(s.status);
    assert Required(o, WireKey(Status), DecodeStatus) == Success(s.status);
    assert Required(o, WireKey(Running), DecodeBool) == Success(s.running);
    assert Required(o, WireKey(Paused), DecodeBool) == Success(s.paused);
    assert Required(o, WireKey(Restarting), DecodeBool) == Success(s.restarting);
    assert Required(o, WireKey(OOMKilled), DecodeBool) == Success(s.oomKilled);
    assert Required(o, WireKey(Dead), DecodeBool) == Success(s.dead);
    assert Required(o, WireKey(Pid), DecodeInt64) == Success(s.pid);
    assert Required(o, WireKey(Error), DecodeString) == Success(s.error);
    OptionalOfOrNull(o, WireKey(StartedAt), s.startedAt, encodeDate, decodeDate);
    OptionalOfOrNull(o, WireKey(FinishedAt), s.finishedAt, encodeDate, decodeDate);
    DecodeOfFieldResults(o, s, decodeDate);
  }

  /** Every state decodes from its wire form, provided the date strategy round-trips. */
  lemma DecodeWireForm(s: ContainerState, encodeDate: Date -> Json, decodeDate: Json -> Result<Date, DecodeError>)
    requires forall d :: encodeDate(d) != JNull && decodeDate(encodeDate(d)) == Success(d)
    ensures Decode(WireForm(s, encodeDate), decodeDate) == Success(s)
  {
    WireFormCarriesFields(s, encodeDate);
    DecodeCarriedFields(WireForm(s, encodeDate).fields, s, encodeDate, decodeDate);
  }
}
