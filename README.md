# Harbour: PortainerKit wire model and the Stacks screen, in Dafny

This project models two pieces of the Harbour app, a client for Portainer, and proves what they promise.

1. **PortainerKit's common wire types** (`Types/Common.swift`). This part covers:
   - the fixed-value enums and their raw values;
   - the hand-written lifecycle ordering of `ContainerStatus`;
   - the state each `ExecuteAction` should leave a container in;
   - the `CodingKeys` tables and synthesized decoders of `ContainerState`, `HealthConfig`, `Mount` (with `BindOptions`, `VolumeOptions`, `DriverConfig` and `TmpfsOptions`) and `Port`;
   - the hand-written `Mount.==`.

   Decoding follows the rules of Swift's synthesized `Decodable` conformance:
   - A non-optional field needs its key present and its value not `null`.
   - An optional field turns a missing key or a `null` into `nil`.
   - An unknown raw value, or a number that does not fit the field's integer type, fails as corrupted data.

   Each record comes with its canonical wire form and a proof that the wire form decodes back to the record.
2. **`StacksView.ViewModel`**. This part covers:
   - the list of stacks the Stacks screen displays: real stacks, optionally "limited" stacks that only containers refer to, the active-endpoint filter, the search filter, and the sort by name;
   - the `viewState` decision;
   - when the empty-list placeholder is visible.

   All of these are pure functions of explicit inputs: the store contents, the preferences, the selected endpoint and the query. Apple's locale-aware text operations are passed in as parameters. The central lemma, `DisplayedCount`, states how many times each item occurs in the displayed list. The other list properties follow from it: membership, limited-stack uniqueness, that the filters only remove items, and that the input order does not matter.

Files:
- `wrappers.dfy`: `Option` and `Result`.
- `enums.dfy`: module `PortainerEnums`.
- `json.dfy`: module `JsonDecoding`, the JSON value and the per-kind decoders.
- `container_state.dfy`, `health_config.dfy`, `mount.dfy` and `port.dfy`: one module per record.
- `stacks_view_model.dfy`: module `StacksViewModel`.


## Model

| member | source | states |
|---|---|---|
| PortainerEnums.ParseRaw | Modules/PortainerKit/Sources/PortainerKit/Types/Common.swift:14-21 | `init?(rawValue:)`: a parsed value is a listed case whose raw value is the input; `None` only when no listed case has that raw value |
| PortainerEnums.ParseRawOfRawValue | Modules/PortainerKit/Sources/PortainerKit/Types/Common.swift:14-21 | when the raw values are pairwise distinct, every case's raw value parses back to that case |
| PortainerEnums.ContainerStatusRawValuesDistinct | Modules/PortainerKit/Sources/PortainerKit/Types/Common.swift:14-21 | the seven status raw values are pairwise distinct |
| PortainerEnums.ContainerStatusFromRaw | Modules/PortainerKit/Sources/PortainerKit/Types/Common.swift:14-21 | `init?(rawValue:)`: a parsed value is a status whose raw value is the input, and `nil` comes back exactly when no case has that raw value |
| PortainerEnums.ContainerStatusRoundTrip | Modules/PortainerKit/Sources/PortainerKit/Types/Common.swift:14-21 | parsing a status's raw value gives the status back |
| PortainerEnums.ContainerStatusAcceptsExactly | Modules/PortainerKit/Sources/PortainerKit/Types/Common.swift:14-21 | the status parser accepts exactly "created" … "dead", mapping each to its case; every other string fails |
| PortainerEnums.FirstIndex | Modules/PortainerKit/Sources/PortainerKit/Types/Common.swift:25-26 | `firstIndex(of:) ?? -1`: -1 exactly when absent, otherwise an index holding the element with no earlier occurrence |
| PortainerEnums.LifecycleIndex | Modules/PortainerKit/Sources/PortainerKit/Types/Common.swift:24-26 | every status is in the comparison list, so the `?? -1` fallback is unreachable; the index is the lifecycle rank, in 0..6 |
| PortainerEnums.FirstIndexOfDistinct | Modules/PortainerKit/Sources/PortainerKit/Types/Common.swift:24-25 | in a list without repetitions, the first index of the element at position k is k |
| PortainerEnums.StatusLess | Modules/PortainerKit/Sources/PortainerKit/Types/Common.swift:23-28 | `<` compares the `firstIndex(of:)` positions of both statuses in the case list; its meaning is stated by the two lemmas below |
| PortainerEnums.StatusLessIsLifecycleOrder | Modules/PortainerKit/Sources/PortainerKit/Types/Common.swift:23-28 | `lhs < rhs` iff lhs comes earlier in created, running, paused, restarting, removing, exited, dead |
| PortainerEnums.StatusLessIsStrictTotalOrder | Modules/PortainerKit/Sources/PortainerKit/Types/Common.swift:23-28 | `<` is irreflexive and transitive, and exactly one of `a<b`, `b<a`, `a==b` holds |
| PortainerEnums.EndpointStatusRawValuesDistinct | Modules/PortainerKit/Sources/PortainerKit/Types/Common.swift:31-34 | the endpoint-status raw values 1 and 2 are distinct |
| PortainerEnums.EndpointStatusFromRaw | Modules/PortainerKit/Sources/PortainerKit/Types/Common.swift:31-34 | `init?(rawValue:)`: a parsed value is an endpoint status whose raw value is the input, and `nil` comes back exactly when no case has that raw value |
| PortainerEnums.EndpointStatusRoundTrip | Modules/PortainerKit/Sources/PortainerKit/Types/Common.swift:31-34 | parsing an endpoint status's raw value gives it back |
| PortainerEnums.EndpointStatusAcceptsExactly | Modules/PortainerKit/Sources/PortainerKit/Types/Common.swift:31-34 | accepts exactly 1→up and 2→down; every other integer fails |
| PortainerEnums.EndpointTypeRawValuesDistinct | Modules/PortainerKit/Sources/PortainerKit/Types/Common.swift:36-40 | the endpoint-type raw values 1, 2 and 3 are distinct |
| PortainerEnums.EndpointTypeFromRaw | Modules/PortainerKit/Sources/PortainerKit/Types/Common.swift:36-40 | `init?(rawValue:)`: a parsed value is an endpoint type whose raw value is the input, and `nil` comes back exactly when no case has that raw value |
| PortainerEnums.EndpointTypeRoundTrip | Modules/PortainerKit/Sources/PortainerKit/Types/Common.swift:36-40 | parsing an endpoint type's raw value gives it back |
| PortainerEnums.EndpointTypeAcceptsExactly | Modules/PortainerKit/Sources/PortainerKit/Types/Common.swift:36-40 | accepts exactly 1→docker, 2→agent and 3→azure; every other integer fails |
| PortainerEnums.ExecuteActionRawValuesDistinct | Modules/PortainerKit/Sources/PortainerKit/Types/Common.swift:42-48 | the six action raw values are distinct |
| PortainerEnums.ExecuteActionFromRaw | Modules/PortainerKit/Sources/PortainerKit/Types/Common.swift:42-48 | `init?(rawValue:)`: a parsed value is an action whose raw value is the input, and `nil` comes back exactly when no case has that raw value |
| PortainerEnums.ExecuteActionRoundTrip | Modules/PortainerKit/Sources/PortainerKit/Types/Common.swift:42-48 | parsing an action's raw value gives it back |
| PortainerEnums.ExecuteActionAcceptsExactly | Modules/PortainerKit/Sources/PortainerKit/Types/Common.swift:42-48 | accepts exactly the six action names; every other string fails |
| PortainerEnums.ExpectedState | Modules/PortainerKit/Sources/PortainerKit/Types/Common.swift:50-59 | `expectedState` is total and never yields created, removing or dead |
| PortainerEnums.ExpectedStateImage | Modules/PortainerKit/Sources/PortainerKit/Types/Common.swift:50-59 | a status is some action's expected state iff it is running, paused, restarting or exited; start and unpause collide, as do stop and kill, so the mapping is not injective |
| PortainerEnums.MountConsistencyRawValuesDistinct | Modules/PortainerKit/Sources/PortainerKit/Types/Common.swift:62-67 | the four consistency raw values are distinct |
| PortainerEnums.MountConsistencyFromRaw | Modules/PortainerKit/Sources/PortainerKit/Types/Common.swift:62-67 | `init?(rawValue:)`: a parsed value is a consistency whose raw value is the input, and `nil` comes back exactly when no case has that raw value |
| PortainerEnums.MountConsistencyRoundTrip | Modules/PortainerKit/Sources/PortainerKit/Types/Common.swift:62-67 | parsing a consistency's raw value gives it back |
| PortainerEnums.MountConsistencyAcceptsExactly | Modules/PortainerKit/Sources/PortainerKit/Types/Common.swift:62-67 | accepts exactly "default", "consistent", "cached" and "delegated"; anything else fails rather than defaulting |
| PortainerEnums.MountTypeRawValuesDistinct | Modules/PortainerKit/Sources/PortainerKit/Types/Common.swift:69-73 | the three mount-type raw values are distinct |
| PortainerEnums.MountTypeFromRaw | Modules/PortainerKit/Sources/PortainerKit/Types/Common.swift:69-73 | `init?(rawValue:)`: a parsed value is a mount type whose raw value is the input, and `nil` comes back exactly when no case has that raw value |
| PortainerEnums.MountTypeRoundTrip | Modules/PortainerKit/Sources/PortainerKit/Types/Common.swift:69-73 | parsing a mount type's raw value gives it back |
| PortainerEnums.MountTypeAcceptsExactly | Modules/PortainerKit/Sources/PortainerKit/Types/Common.swift:69-73 | accepts exactly "bind", "volume" and "tmpfs"; anything else fails |
| PortainerEnums.PropagationRawValuesDistinct | Modules/PortainerKit/Sources/PortainerKit/Types/Common.swift:105-112 | the six propagation raw values are distinct |
| PortainerEnums.PropagationFromRaw | Modules/PortainerKit/Sources/PortainerKit/Types/Common.swift:105-112 | `init?(rawValue:)`: a parsed value is a propagation mode whose raw value is the input, and `nil` comes back exactly when no case has that raw value |
| PortainerEnums.PropagationRoundTrip | Modules/PortainerKit/Sources/PortainerKit/Types/Common.swift:105-112 | parsing a propagation's raw value gives it back |
| PortainerEnums.PropagationAcceptsExactly | Modules/PortainerKit/Sources/PortainerKit/Types/Common.swift:105-112 | accepts exactly "private", "rprivate", "shared", "rshared", "slave" and "rslave"; anything else fails |
| PortainerEnums.PortTypeRawValuesDistinct | Modules/PortainerKit/Sources/PortainerKit/Types/Common.swift:565-568 | "tcp" and "udp" are distinct |
| PortainerEnums.PortTypeFromRaw | Modules/PortainerKit/Sources/PortainerKit/Types/Common.swift:565-568 | `init?(rawValue:)`: a parsed value is a port type whose raw value is the input, and `nil` comes back exactly when no case has that raw value |
| PortainerEnums.PortTypeRoundTrip | Modules/PortainerKit/Sources/PortainerKit/Types/Common.swift:565-568 | parsing a port type's raw value gives it back |
| PortainerEnums.PortTypeAcceptsExactly | Modules/PortainerKit/Sources/PortainerKit/Types/Common.swift:565-568 | accepts exactly "tcp" and "udp"; anything else fails |
| JsonDecoding.DecodeBool | Modules/PortainerKit/Sources/PortainerKit/Types/Common.swift:188-192 | a `Bool` field accepts exactly a JSON boolean and yields its value |
| JsonDecoding.DecodeString | Modules/PortainerKit/Sources/PortainerKit/Types/Common.swift:194 | a `String` field accepts exactly a JSON string and yields its text |
| JsonDecoding.DecodeInt64 | Modules/PortainerKit/Sources/PortainerKit/Types/Common.swift:193 | an `Int` field accepts exactly the numbers that fit in 64 bits, unchanged; a number out of range is corrupted data |
| JsonDecoding.DecodeUInt16 | Modules/PortainerKit/Sources/PortainerKit/Types/Common.swift:571-572 | a `UInt16` field accepts exactly the numbers 0..65535, unchanged; a number out of range is corrupted data |
| JsonDecoding.DecodeElements | Modules/PortainerKit/Sources/PortainerKit/Types/Common.swift:260 | an array decodes iff every element does, into the elements' values in order |
| JsonDecoding.DecodeArray | Modules/PortainerKit/Sources/PortainerKit/Types/Common.swift:260 | `[T]` decodes iff the value is an array whose every element decodes, and then yields each element's decoded value in order |
| JsonDecoding.DecodeStringDictionary | Modules/PortainerKit/Sources/PortainerKit/Types/Common.swift:238 | `[String: String]` decodes iff the value is an object of strings, into a map with the same keys and values |
| JsonDecoding.DecodeRawString | Modules/PortainerKit/Sources/PortainerKit/Types/Common.swift:62-73 | a `String`-backed enum decodes iff the value is a string its parser accepts; an unknown string is corrupted data |
| JsonDecoding.Required | Modules/PortainerKit/Sources/PortainerKit/Types/Common.swift:187-194 | a non-optional field: a missing key is "key not found", a `null` is "value not found"; a present non-null value makes the field succeed iff the value decodes, with the value's result or its error kind |
| JsonDecoding.Optional | Modules/PortainerKit/Sources/PortainerKit/Types/Common.swift:195-196 | an optional field: a missing key or `null` gives `nil`; otherwise it succeeds iff the value decodes |
| JsonDecoding.OptionalOfOrNull | Modules/PortainerKit/Sources/PortainerKit/Types/Common.swift:195-196 | an optional field written as its value or `null` decodes back to the same optional |
| JsonDecoding.DecodeStringArrayWire | Modules/PortainerKit/Sources/PortainerKit/Types/Common.swift:260 | a string array decodes from its wire form |
| JsonDecoding.DecodeStringDictionaryWire | Modules/PortainerKit/Sources/PortainerKit/Types/Common.swift:238 | a string dictionary decodes from its wire form |
| ContainerStateRecord.WireKeysDistinct | Modules/PortainerKit/Sources/PortainerKit/Types/Common.swift:174-185 | the `CodingKeys` table maps distinct fields to distinct keys |
| ContainerStateRecord.Decode | Modules/PortainerKit/Sources/PortainerKit/Types/Common.swift:173-196 | a decoded state came from an object holding all eight required keys with non-null values; StartedAt or FinishedAt is `nil` exactly when its key is missing or `null`, and otherwise what the date strategy reads |
| ContainerStateRecord.DecodeIffFieldsDecodeTo | Modules/PortainerKit/Sources/PortainerKit/Types/Common.swift:173-196 | an object decodes to a state exactly when each of its ten fields, read as required or optional, decodes to that state's value for it |
| ContainerStateRecord.DecodeGivesFieldResults | Modules/PortainerKit/Sources/PortainerKit/Types/Common.swift:187-196 | a successful decode is made of what each of the ten fields decodes to |
| ContainerStateRecord.DecodeOfFieldResults | Modules/PortainerKit/Sources/PortainerKit/Types/Common.swift:187-196 | a state is assembled from what its ten fields decode to |
| ContainerStateRecord.DecodedFieldsAreOnTheWire | Modules/PortainerKit/Sources/PortainerKit/Types/Common.swift:187-194 | a decoded state's status, flags, pid and error are exactly the values under their keys on the wire |
| ContainerStateRecord.MissingRequiredKeyFails | Modules/PortainerKit/Sources/PortainerKit/Types/Common.swift:187-194 | an object without any one of Status, Running, Paused, Restarting, OOMKilled, Dead, Pid or Error does not decode |
| ContainerStateRecord.WireFormCarriesFields | Modules/PortainerKit/Sources/PortainerKit/Types/Common.swift:174-196 | the wire form holds every field under its own key |
| ContainerStateRecord.DecodeCarriedFields | Modules/PortainerKit/Sources/PortainerKit/Types/Common.swift:173-196 | any object carrying a state's fields under their keys decodes to that state, whatever other keys it has |
| ContainerStateRecord.DecodeWireForm | Modules/PortainerKit/Sources/PortainerKit/Types/Common.swift:173-196 | every state decodes from its wire form, given a date strategy that round-trips |
| HealthConfigRecord.WireKeysDistinct | Modules/PortainerKit/Sources/PortainerKit/Types/Common.swift:252-258 | the `CodingKeys` table maps distinct fields to distinct keys |
| HealthConfigRecord.DecodeTest | Modules/PortainerKit/Sources/PortainerKit/Types/Common.swift:260 | `[String]` decodes iff the value is an array of strings, and the wire value is then exactly those strings in order |
| HealthConfigRecord.Decode | Modules/PortainerKit/Sources/PortainerKit/Types/Common.swift:251-264 | a decoded health check came from an object with all five keys present and non-null; its test command is the string array on the wire and its durations and retry count are the numbers on the wire |
| HealthConfigRecord.DecodeIffFieldsDecodeTo | Modules/PortainerKit/Sources/PortainerKit/Types/Common.swift:251-264 | an object decodes to a health check exactly when each of its five required fields decodes to that check's value for it |
| HealthConfigRecord.DecodeWireForm | Modules/PortainerKit/Sources/PortainerKit/Types/Common.swift:251-264 | every health check decodes from its wire form |
| BindOptionsRecord.Decode | Modules/PortainerKit/Sources/PortainerKit/Types/Common.swift:100-114 | a missing or `null` Propagation decodes to `nil`; a string Propagation decodes iff it is one of the six modes, to the mode with that raw value |
| BindOptionsRecord.DecodeIffFieldsDecodeTo | Modules/PortainerKit/Sources/PortainerKit/Types/Common.swift:100-114 | an object decodes to bind options exactly when its Propagation field decodes to their value |
| BindOptionsRecord.DecodeWireForm | Modules/PortainerKit/Sources/PortainerKit/Types/Common.swift:100-114 | bind options decode from their wire form |
| DriverConfigRecord.WireKeysDistinct | Modules/PortainerKit/Sources/PortainerKit/Types/Common.swift:232-235 | the `CodingKeys` table maps distinct fields to distinct keys |
| DriverConfigRecord.Decode | Modules/PortainerKit/Sources/PortainerKit/Types/Common.swift:231-238 | only an object decodes; each field is `nil` exactly when its key is missing or `null`, and otherwise the name string or the dictionary on the wire |
| DriverConfigRecord.DecodeIffFieldsDecodeTo | Modules/PortainerKit/Sources/PortainerKit/Types/Common.swift:231-238 | an object, partial or not, decodes to a config exactly when each of its two fields decodes to that config's value for it |
| DriverConfigRecord.DecodeWireForm | Modules/PortainerKit/Sources/PortainerKit/Types/Common.swift:231-238 | a driver config decodes from its wire form |
| VolumeOptionsRecord.WireKeysDistinct | Modules/PortainerKit/Sources/PortainerKit/Types/Common.swift:603-607 | the `CodingKeys` table maps distinct fields to distinct keys |
| VolumeOptionsRecord.Decode | Modules/PortainerKit/Sources/PortainerKit/Types/Common.swift:602-611 | only an object decodes; each field is `nil` exactly when its key is missing or `null`, and otherwise the flag, the labels dictionary or the driver config decoded from the wire |
| VolumeOptionsRecord.DecodeIffFieldsDecodeTo | Modules/PortainerKit/Sources/PortainerKit/Types/Common.swift:602-611 | an object, partial or not, decodes to volume options exactly when each of its three fields decodes to their value for it |
| VolumeOptionsRecord.DecodeWireForm | Modules/PortainerKit/Sources/PortainerKit/Types/Common.swift:602-611 | volume options, including a nested driver config, decode from their wire form |
| TmpfsOptionsRecord.WireKeysDistinct | Modules/PortainerKit/Sources/PortainerKit/Types/Common.swift:577-580 | the `CodingKeys` table maps distinct fields to distinct keys |
| TmpfsOptionsRecord.Decode | Modules/PortainerKit/Sources/PortainerKit/Types/Common.swift:576-584 | a size or mode that does not fit in 64 bits fails the record; each field is `nil` exactly when its key is missing or `null`, and otherwise the number on the wire |
| TmpfsOptionsRecord.DecodeIffFieldsDecodeTo | Modules/PortainerKit/Sources/PortainerKit/Types/Common.swift:576-584 | an object decodes to tmpfs options exactly when each of its two fields decodes to their value for it |
| TmpfsOptionsRecord.DecodeWireForm | Modules/PortainerKit/Sources/PortainerKit/Types/Common.swift:576-584 | tmpfs options decode from their wire form |
| MountRecord.WireKeysDistinct | Modules/PortainerKit/Sources/PortainerKit/Types/Common.swift:480-489 | the `CodingKeys` table maps distinct fields to distinct keys |
| MountRecord.Decode | Modules/PortainerKit/Sources/PortainerKit/Types/Common.swift:479-498 | every field is optional, so an object with none of the eight keys decodes to a mount with every field `nil`; an unknown Type or Consistency string fails the whole mount |
| MountRecord.WireFormCarriesFields | Modules/PortainerKit/Sources/PortainerKit/Types/Common.swift:480-498 | the wire form holds every field under its own key |
| MountRecord.DecodeIffFieldsDecodeTo | Modules/PortainerKit/Sources/PortainerKit/Types/Common.swift:479-498 | an object decodes to a mount exactly when each of its eight optional fields decodes to that mount's value for it |
| MountRecord.DecodeCarriedScalars | Modules/PortainerKit/Sources/PortainerKit/Types/Common.swift:491-495 | target, source, type, read-only flag and consistency decode back from an object that carries them |
| MountRecord.DecodeCarriedOptions | Modules/PortainerKit/Sources/PortainerKit/Types/Common.swift:496-498 | the three option records decode back from an object that carries them |
| MountRecord.DecodeCarriedFields | Modules/PortainerKit/Sources/PortainerKit/Types/Common.swift:479-498 | any object carrying a mount's fields under their keys decodes to that mount |
| MountRecord.DecodeWireForm | Modules/PortainerKit/Sources/PortainerKit/Types/Common.swift:479-498 | every mount decodes from its wire form |
| MountRecord.Equal | Modules/PortainerKit/Sources/PortainerKit/Types/Common.swift:500-502 | `==` compares target, source, type and read-only flag and nothing else; its meaning is stated by the lemmas below |
| MountRecord.EqualIffDefiningFieldsAgree | Modules/PortainerKit/Sources/PortainerKit/Types/Common.swift:500-502 | `==` holds iff the mounts agree once consistency and the three option records are erased, i.e. it depends only on target, source, type and read-only flag |
| MountRecord.EqualIsEquivalence | Modules/PortainerKit/Sources/PortainerKit/Types/Common.swift:500-502 | `==` is reflexive, symmetric and transitive |
| MountRecord.EqualIgnoresOptions | Modules/PortainerKit/Sources/PortainerKit/Types/Common.swift:500-502 | changing consistency, bind, volume or tmpfs options leaves a mount `==` to what it was |
| MountRecord.EqualIsCoarserThanIdentity | Modules/PortainerKit/Sources/PortainerKit/Types/Common.swift:500-502 | two different mounts can be `==` |
| PortRecord.WireKeysDistinct | Modules/PortainerKit/Sources/PortainerKit/Types/Common.swift:558-563 | the `CodingKeys` table maps distinct fields to distinct keys |
| PortRecord.Decode | Modules/PortainerKit/Sources/PortainerKit/Types/Common.swift:557-573 | a PrivatePort or PublicPort number outside 0..65535 fails the whole port; a decoded port number is the number on the wire; an absent private port means the key was missing or `null` |
| PortRecord.DecodeIffFieldsDecodeTo | Modules/PortainerKit/Sources/PortainerKit/Types/Common.swift:557-573 | an object decodes to a port exactly when each of its four optional fields decodes to that port's value for it |
| PortRecord.DecodeWireForm | Modules/PortainerKit/Sources/PortainerKit/Types/Common.swift:557-573 | every port decodes from its wire form |
| StacksViewModel.Filter | Harbour/UI/Views/StacksView/StacksView+ViewModel.swift:63-67 | `filter` keeps each accepted element as often as it occurs and drops every rejected one |
| StacksViewModel.Dedup | Harbour/UI/Views/StacksView/StacksView+ViewModel.swift:57 | `Set(...)` enumerated: no repetitions, and the same elements as its input |
| StacksViewModel.DistinctCount | Harbour/UI/Views/StacksView/StacksView+ViewModel.swift:57 | in a list without repetitions every element occurs exactly once |
| StacksViewModel.RealItems | Harbour/UI/Views/StacksView/StacksView+ViewModel.swift:49 | one real item per stack, in order; each stack occurs as an item as often as in the store, and there are no limited items |
| StacksViewModel.ContainerStackNames | Harbour/UI/Views/StacksView/StacksView+ViewModel.swift:54-55 | `compactMap(\.stack)`: a name is listed iff some container refers to it |
| StacksViewModel.LimitedStackNames | Harbour/UI/Views/StacksView/StacksView+ViewModel.swift:52-57 | the limited names have no repetitions, and a name is among them iff a container refers to it and no real stack has it |
| StacksViewModel.LimitedItems | Harbour/UI/Views/StacksView/StacksView+ViewModel.swift:57-58 | `names.map(StackItem.init)`: one limited item per name, in order, so each name's item occurs as often as the name, and no real items |
| StacksViewModel.WithLimited | Harbour/UI/Views/StacksView/StacksView+ViewModel.swift:51-60 | the real items come first, unchanged; with the preference off nothing is added; every added item is a limited item whose name some container refers to and no real item has, and no name is added twice |
| StacksViewModel.WithLimitedCount | Harbour/UI/Views/StacksView/StacksView+ViewModel.swift:51-60 | the limited step adds exactly one limited item per container stack name that is not a real stack's name, and none otherwise |
| StacksViewModel.OnEndpoint | Harbour/UI/Views/StacksView/StacksView+ViewModel.swift:62-67 | an item passes the endpoint test when it has no endpoint or the selected one; a limited item always passes |
| StacksViewModel.FilterByEndpoint | Harbour/UI/Views/StacksView/StacksView+ViewModel.swift:62-68 | without the preference or a selected endpoint nothing changes; otherwise an item stays, as often as it occurred, iff it has no endpoint or the selected one |
| StacksViewModel.MatchesQuery | Harbour/UI/Views/StacksView/StacksView+ViewModel.swift:71-74 | an item matches when its name or its identifier text contains the query, by the passed-in locale-aware containment |
| StacksViewModel.FilterByQuery | Harbour/UI/Views/StacksView/StacksView+ViewModel.swift:70-75 | a blank query changes nothing; otherwise an item stays, as often as it occurred, iff its name or identifier text contains the query |
| StacksViewModel.Insert | Harbour/UI/Views/StacksView/StacksView+ViewModel.swift:77 | insertion adds exactly the one item |
| StacksViewModel.SortByName | Harbour/UI/Views/StacksView/StacksView+ViewModel.swift:77 | the sort is a permutation of its input |
| StacksViewModel.Displayed | Harbour/UI/Views/StacksView/StacksView+ViewModel.swift:48-78 | the displayed list is never longer than the stacks and containers together |
| StacksViewModel.NamesOfRealItems | Harbour/UI/Views/StacksView/StacksView+ViewModel.swift:52 | `realStackNames` holds exactly the names of the store's stacks |
| StacksViewModel.DisplayedCount | Harbour/UI/Views/StacksView/StacksView+ViewModel.swift:48-78 | each item occurs in the displayed list as often as the store supplies it when it passes both active filters, and not at all otherwise; a limited stack is supplied once when the preference is on, a container names it and no real stack does |
| StacksViewModel.DisplayedIsSubMultiset | Harbour/UI/Views/StacksView/StacksView+ViewModel.swift:63-75 | the filters only remove: the list is a sub-multiset of the real items plus the limited items |
| StacksViewModel.NoLimitedItemsWhenOff | Harbour/UI/Views/StacksView/StacksView+ViewModel.swift:49-51 | with limited stacks switched off every displayed item is a real stack |
| StacksViewModel.LimitedItemsAreUniqueAndFresh | Harbour/UI/Views/StacksView/StacksView+ViewModel.swift:51-59 | with limited stacks on, each container stack name no real stack has becomes exactly one limited item, and a real stack's name never becomes one |
| StacksViewModel.EndpointFilterKeepsLimited | Harbour/UI/Views/StacksView/StacksView+ViewModel.swift:62-67 | the endpoint filter keeps every limited item |
| StacksViewModel.EndpointFilterKeepsReal | Harbour/UI/Views/StacksView/StacksView+ViewModel.swift:62-67 | the endpoint filter keeps a real stack iff its endpoint is unknown or the selected one |
| StacksViewModel.SuppliedIgnoresInputOrder | Harbour/UI/Views/StacksView/StacksView+ViewModel.swift:49-59 | what the store supplies depends on the stacks only as a multiset and on the containers only through the names they refer to |
| StacksViewModel.CountIgnoresInputOrder | Harbour/UI/Views/StacksView/StacksView+ViewModel.swift:48-78 | each item's count in the list is the same for stacks and containers given in any order |
| StacksViewModel.DisplayedIgnoresInputOrder | Harbour/UI/Views/StacksView/StacksView+ViewModel.swift:48-78 | reordering the stacks or containers, or repeating a container's stack name, displays the same multiset of items |
| StacksViewModel.PrependKeepsSorted | Harbour/UI/Views/StacksView/StacksView+ViewModel.swift:77 | an item that comes after none of a sorted list can go in front of it |
| StacksViewModel.TailSorted | Harbour/UI/Views/StacksView/StacksView+ViewModel.swift:77 | the tail of a sorted list is sorted |
| StacksViewModel.ConsKeepsSorted | Harbour/UI/Views/StacksView/StacksView+ViewModel.swift:77 | a head that no later item precedes keeps a sorted list sorted |
| StacksViewModel.InsertKeepsSorted | Harbour/UI/Views/StacksView/StacksView+ViewModel.swift:77 | insertion into a sorted list keeps it sorted, for a strict weak order |
| StacksViewModel.SortByNameIsSorted | Harbour/UI/Views/StacksView/StacksView+ViewModel.swift:77 | the sort's output is in ascending name order, for a strict weak order |
| StacksViewModel.DisplayedIsSorted | Harbour/UI/Views/StacksView/StacksView+ViewModel.swift:77 | no displayed item comes before an earlier one under the case-insensitive comparison |
| StacksViewModel.InFlight | Harbour/UI/Views/StacksView/StacksView+ViewModel.swift:33-37 | `!(task?.isCancelled ?? true)`: a task counts as in flight only when it exists and is not cancelled |
| StacksViewModel.ComputeViewState | Harbour/UI/Views/StacksView/StacksView+ViewModel.swift:30-46 | an in-flight fetch gives reloading; otherwise an in-flight store refresh gives loading when the store has no stacks and reloading when it has; otherwise a recorded error gives failure with that error; otherwise success; the states that carry stacks carry the store's |
| StacksViewModel.IsBackgroundPlaceholderVisible | Harbour/UI/Views/StacksView/StacksView+ViewModel.swift:80-91 | the placeholder shows iff the state is success and the displayed list is empty |
| StacksViewModel.PlaceholderVisibleIff | Harbour/UI/Views/StacksView/StacksView+ViewModel.swift:30-91 | the placeholder shows iff nothing is being fetched, no error is recorded and the filtered list is empty, whether or not the store holds stacks |

## Left out

- Networking, `JSONDecoder` itself and its date strategy. A date is read and written by functions the caller supplies. `ContainerStateRecord.DecodeWireForm` assumes that this pair round-trips.
- JsonDecoding.Json: numbers are integers only. A fractional number, a number written with an exponent, and duplicate object keys are not modelled.
- JsonDecoding.DecodeStringDictionary: a non-string value is reported as a type mismatch at the dictionary's own path, not at the offending key. The coding paths of errors are otherwise only approximated.
- JsonDecoding.DecodeInt64: Swift's `Int` is taken as 64 bits, the width on the platforms the app runs on.
- Other records of `Common.swift` are not part of this model, because nothing in the modelled logic depends on them: `AccessPolicy`, `ContainerConfig`, `DockerSnapshot`, `EndpointExtension`, `MountPoint` and the rest. `HostConfig` has no fields at all.
- `Mount`'s synthesized `hash(into:)` is not modelled. It feeds all eight stored fields to the hasher, while `==` compares only four, so two mounts that are `==` need not hash alike. No lemma claims that hashing agrees with `==`.
- `ExecuteAction` is not `Decodable`; its parser is `init?(rawValue:)`, which is the same function.
- `getStacks` and `setStackState` are not modelled. They are async tasks with cooperative cancellation that call into `PortainerStore`, which is not part of this model. A task is reduced to its `isCancelled` flag, and a missing task counts as not in flight.
- `isStatusProgressViewVisible` is not modelled, because it depends on `ViewState.showAdditionalLoadingView`, which is not part of this model.
- StacksViewModel.IsBackgroundPlaceholderVisible: `ViewState` is not part of this model. Its `isLoading` is taken as true exactly for loading and reloading, and only the success case reads it.
- StacksViewModel.Text: `localizedCaseInsensitiveContains`, `localizedCaseInsensitiveCompare`, `String.isReallyEmpty` and `StackItem.id.description` are parameters. Locale rules, case folding and how an identifier prints are not modelled.
- StacksViewModel.StackItem: the type is not part of this model. A real item's name and endpoint are taken to be its stack's, and a limited item's name is its label; a limited item has no endpoint.
- StacksViewModel.Dedup: a Swift `Set` enumerates in an unspecified order. The model lists names in one fixed order, so only the multiset of the displayed list is claimed to be independent of input order. The final sort decides the order of items with different names.
- StacksViewModel.SortByName: `sorted(by:)` does not promise an order for items whose names compare equal. The model uses one particular order, and only sortedness and permutation are claimed.
- StacksViewModel.DisplayedIsSorted: sortedness is proved only for comparators that are strict weak orders, which is what `sorted(by:)` requires of its argument.
