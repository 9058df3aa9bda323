/**
 * The fixed-value enums of PortainerKit's wire model: the container lifecycle
 * status with its hand-written ordering, the endpoint status and type (integer
 * raw values), the container actions with the state each should produce, and
 * the string-valued enums of mounts, bind propagation and ports.
 *
 * Swift's synthesized `init?(rawValue:)` accepts exactly the raw values of the
 * declared cases. Here every enum lists its cases once (`All...`), gives each
 * case its raw value, and parses with `ParseRaw`, a search of that list.
 */
module PortainerEnums {
  import opened Wrappers

  // ---------------------------------------------------------------------------
  // Raw-value parsing, shared by every enum

  /** Raw values of the listed cases are pairwise distinct. */
  ghost predicate InjectiveOn<T, R>(cases: seq<T>, rawValue: T -> R) {
    forall i, j :: 0 <= i < |cases| && 0 <= j < |cases| && rawValue(cases[i]) == rawValue(cases[j]) ==> i == j
  }

  /** `init?(rawValue:)`: the listed case whose raw value is `raw`, if any. */
  function ParseRaw<T, R(==)>(cases: seq<T>, rawValue: T -> R, raw: R): (r: Option<T>)
    ensures r.Some? ==> r.value in cases && rawValue(r.value) == raw
    ensures r.None? ==> forall i :: 0 <= i < |cases| ==> rawValue(cases[i]) != raw
  {
    if cases == [] then None
    else if rawValue(cases[0]) == raw then Some(cases[0])
    else
      var r := ParseRaw(cases[1..], rawValue, raw);
      assert r.None? ==> forall i :: 1 <= i < |cases| ==> rawValue(cases[i]) == rawValue(cases[1..][i - 1]);
      r
  }

  /** When the raw values are distinct, a case's own raw value parses back to it. */
  lemma {:induction false} ParseRawOfRawValue<T, R>(cases: seq<T>, rawValue: T -> R, i: nat)
    requires i < |cases| && InjectiveOn(cases, rawValue)
    ensures ParseRaw(cases, rawValue, rawValue(cases[i])) == Some(cases[i])
  {
    var r := ParseRaw(cases, rawValue, rawValue(cases[i]));
    var j :| 0 <= j < |cases| && cases[j] == r.value;
    assert rawValue(cases[j]) == rawValue(cases[i]);
  }

  // ---------------------------------------------------------------------------
  // ContainerStatus

  datatype ContainerStatus = Created | Running | Paused | Restarting | Removing | Exited | Dead

  const AllContainerStatuses: seq<ContainerStatus> :=
    [Created, Running, Paused, Restarting, Removing, Exited, Dead]

  function ContainerStatusRawValue(s: ContainerStatus): string {
    match s
    case Created => "created"
    case Running => "running"
    case Paused => "paused"
    case Restarting => "restarting"
    case Removing => "removing"
    case Exited => "exited"
    case Dead => "dead"
  }

  /** `init?(rawValue:)`: the case whose raw value is `raw`, and `None` when no case has it. */
  function ContainerStatusFromRaw(raw: string): (r: Option<ContainerStatus>)
    ensures r.Some? ==> ContainerStatusRawValue(r.value) == raw
    ensures r.None? <==> forall x: ContainerStatus :: ContainerStatusRawValue(x) != raw
  {
    ParseRaw(AllContainerStatuses, ContainerStatusRawValue, raw)
  }

  /** The raw values of the 7 cases are pairwise distinct. */
  lemma ContainerStatusRawValuesDistinct()
    ensures InjectiveOn(AllContainerStatuses, ContainerStatusRawValue)
  {
  }

  /** Parsing a case's raw value gives the case back. */
  lemma ContainerStatusRoundTrip(s: ContainerStatus)
    ensures ContainerStatusFromRaw(ContainerStatusRawValue(s)) == Some(s)
  {
    ContainerStatusRawValuesDistinct();
    ParseRawOfRawValue(AllContainerStatuses, ContainerStatusRawValue, match s case Created => 0 case Running => 1 case Paused => 2 case Restarting => 3 case Removing => 4 case Exited => 5 case Dead => 6);
  }

  /** The status accepts exactly the seven lower-case case names; any other string fails. */
  lemma ContainerStatusAcceptsExactly(raw: string)
    ensures ContainerStatusFromRaw(raw) ==
      if raw == "created" then Some(Created)
      else if raw == "running" then Some(Running)
      else if raw == "paused" then Some(Paused)
      else if raw == "restarting" then Some(Restarting)
      else if raw == "removing" then Some(Removing)
      else if raw == "exited" then Some(Exited)
      else if raw == "dead" then Some(Dead)
      else None
  {
    if ContainerStatusFromRaw(raw).None? {
      assert forall i :: 0 <= i < 7 ==> ContainerStatusRawValue(AllContainerStatuses[i]) != raw;
    }
  }

  /** The list the hand-written `<` searches. */
  const LifecycleOrder: seq<ContainerStatus> :=
    [Created, Running, Paused, Restarting, Removing, Exited, Dead]

  /** `xs.firstIndex(of: x) ?? -1`. */
  function FirstIndex<T(==)>(xs: seq<T>, x: T): (r: int)
    ensures -1 <= r < |xs|
    ensures r == -1 <==> x !in xs
    ensures 0 <= r ==> xs[r] == x && x !in xs[..r]
  {
    if xs == [] then -1
    else if xs[0] == x then 0
    else
      var i := FirstIndex(xs[1..], x);
      assert xs[1..] == xs[1..][..];
      if i == -1 then -1
      else
        assert xs[..i + 1] == [xs[0]] + xs[1..][..i];
        i + 1
  }

  /** `ContainerStatus.<`: compares the positions of both statuses in `LifecycleOrder`. */
  predicate StatusLess(lhs: ContainerStatus, rhs: ContainerStatus) {
    FirstIndex(LifecycleOrder, lhs) < FirstIndex(LifecycleOrder, rhs)
  }

  /** Position of a status in the lifecycle, as the declaration lists them. */
  function LifecycleRank(s: ContainerStatus): nat {
    match s
    case Created => 0
    case Running => 1
    case Paused => 2
    case Restarting => 3
    case Removing => 4
    case Exited => 5
    case Dead => 6
  }

  /**
   * Every status is in the list, so the `?? -1` fallback never applies: the
   * index found is the lifecycle rank, between 0 and 6.
   */
  lemma LifecycleIndex(s: ContainerStatus)
    ensures s in LifecycleOrder
    ensures FirstIndex(LifecycleOrder, s) == LifecycleRank(s)
    ensures 0 <= FirstIndex(LifecycleOrder, s) <= 6
  {
    var k := LifecycleRank(s);
    assert LifecycleOrder[k] == s;
    assert forall i, j :: 0 <= i < j < 7 ==> LifecycleOrder[i] != LifecycleOrder[j];
    FirstIndexOfDistinct(LifecycleOrder, k);
  }

  /** In a list without repetitions, the first index of the element at `k` is `k`. */
  lemma FirstIndexOfDistinct<T>(xs: seq<T>, k: nat)
    requires k < |xs|
    requires forall i, j :: 0 <= i < j < |xs| ==> xs[i] != xs[j]
    ensures FirstIndex(xs, xs[k]) == k
  {
  }

  /** `lhs < rhs` holds exactly when `lhs` comes earlier in created, running, paused, restarting, removing, exited, dead. */
  lemma StatusLessIsLifecycleOrder(lhs: ContainerStatus, rhs: ContainerStatus)
    ensures StatusLess(lhs, rhs) <==> LifecycleRank(lhs) < LifecycleRank(rhs)
  {
    LifecycleIndex(lhs);
    LifecycleIndex(rhs);
  }

  /** `<` is a strict total order: irreflexive, transitive, and exactly one of `a < b`, `b < a`, `a == b` holds. */
  lemma StatusLessIsStrictTotalOrder(a: ContainerStatus, b: ContainerStatus, c: ContainerStatus)
    ensures !StatusLess(a, a)
    ensures StatusLess(a, b) && StatusLess(b, c) ==> StatusLess(a, c)
    ensures (StatusLess(a, b) && !StatusLess(b, a) && a != b)
         || (!StatusLess(a, b) && StatusLess(b, a) && a != b)
         || (!StatusLess(a, b) && !StatusLess(b, a) && a == b)
  {
    StatusLessIsLifecycleOrder(a, b);
    StatusLessIsLifecycleOrder(b, a);
    StatusLessIsLifecycleOrder(b, c);
    StatusLessIsLifecycleOrder(a, c);
  }

  // ---------------------------------------------------------------------------
  // EndpointStatus and EndpointType: integer raw values starting at 1

  datatype EndpointStatus = Up | Down

  const AllEndpointStatuses: seq<EndpointStatus> := [Up, Down]

  function EndpointStatusRawValue(s: EndpointStatus): int {
    match s
    case Up => 1
    case Down => 2
  }

  /** `init?(rawValue:)`: the case whose raw value is `raw`, and `None` when no case has it. */
  function EndpointStatusFromRaw(raw: int): (r: Option<EndpointStatus>)
    ensures r.Some? ==> EndpointStatusRawValue(r.value) == raw
    ensures r.None? <==> forall x: EndpointStatus :: EndpointStatusRawValue(x) != raw
  {
    ParseRaw(AllEndpointStatuses, EndpointStatusRawValue, raw)
  }

  /** The raw values of the 2 cases are pairwise distinct. */
  lemma EndpointStatusRawValuesDistinct()
    ensures InjectiveOn(AllEndpointStatuses, EndpointStatusRawValue)
  {
  }

  /** Parsing a case's raw value gives the case back. */
  lemma EndpointStatusRoundTrip(s: EndpointStatus)
    ensures EndpointStatusFromRaw(EndpointStatusRawValue(s)) == Some(s)
  {
    EndpointStatusRawValuesDistinct();
    ParseRawOfRawValue(AllEndpointStatuses, EndpointStatusRawValue, match s case Up => 0 case Down => 1);
  }

  /** Exactly 1 (up) and 2 (down) are accepted; every other integer fails. */
  lemma EndpointStatusAcceptsExactly(raw: int)
    ensures EndpointStatusFromRaw(raw) ==
      if raw == 1 then Some(Up)
      else if raw == 2 then Some(Down)
      else None
  {
    if EndpointStatusFromRaw(raw).None? {
      assert forall i :: 0 <= i < 2 ==> EndpointStatusRawValue(AllEndpointStatuses[i]) != raw;
    }
  }

  datatype EndpointType = Docker | Agent | Azure

  const AllEndpointTypes: seq<EndpointType> := [Docker, Agent, Azure]

  function EndpointTypeRawValue(t: EndpointType): int {
    match t
    case Docker => 1
    case Agent => 2
    case Azure => 3
  }

  /** `init?(rawValue:)`: the case whose raw value is `raw`, and `None` when no case has it. */
  function EndpointTypeFromRaw(raw: int): (r: Option<EndpointType>)
    ensures r.Some? ==> EndpointTypeRawValue(r.value) == raw
    ensures r.None? <==> forall x: EndpointType :: EndpointTypeRawValue(x) != raw
  {
    ParseRaw(AllEndpointTypes, EndpointTypeRawValue, raw)
  }

  /** The raw values of the 3 cases are pairwise distinct. */
  lemma EndpointTypeRawValuesDistinct()
    ensures InjectiveOn(AllEndpointTypes, EndpointTypeRawValue)
  {
  }

  /** Parsing a case's raw value gives the case back. */
  lemma EndpointTypeRoundTrip(t: EndpointType)
    ensures EndpointTypeFromRaw(EndpointTypeRawValue(t)) == Some(t)
  {
    EndpointTypeRawValuesDistinct();
    ParseRawOfRawValue(AllEndpointTypes, EndpointTypeRawValue, match t case Docker => 0 case Agent => 1 case Azure => 2);
  }

  /** Exactly 1 (docker), 2 (agent) and 3 (azure) are accepted; every other integer fails. */
  lemma EndpointTypeAcceptsExactly(raw: int)
    ensures EndpointTypeFromRaw(raw) ==
      if raw == 1 then Some(Docker)
      else if raw == 2 then Some(Agent)
      else if raw == 3 then Some(Azure)
      else None
  {
    if EndpointTypeFromRaw(raw).None? {
      assert forall i :: 0 <= i < 3 ==> EndpointTypeRawValue(AllEndpointTypes[i]) != raw;
    }
  }

  // ---------------------------------------------------------------------------
  // ExecuteAction

  datatype ExecuteAction = Start | Stop | Restart | Kill | Pause | Unpause

  const AllExecuteActions: seq<ExecuteAction> := [Start, Stop, Restart, Kill, Pause, Unpause]

  function ExecuteActionRawValue(a: ExecuteAction): string {
    match a
    case Start => "start"
    case Stop => "stop"
    case Restart => "restart"
    case Kill => "kill"
    case Pause => "pause"
    case Unpause => "unpause"
  }

  /** `init?(rawValue:)`: the case whose raw value is `raw`, and `None` when no case has it. */
  function ExecuteActionFromRaw(raw: string): (r: Option<ExecuteAction>)
    ensures r.Some? ==> ExecuteActionRawValue(r.value) == raw
    ensures r.None? <==> forall x: ExecuteAction :: ExecuteActionRawValue(x) != raw
  {
    ParseRaw(AllExecuteActions, ExecuteActionRawValue, raw)
  }

  /** The raw values of the 6 cases are pairwise distinct. */
  lemma ExecuteActionRawValuesDistinct()
    ensures InjectiveOn(AllExecuteActions, ExecuteActionRawValue)
  {
  }

  /** Parsing a case's raw value gives the case back. */
  lemma ExecuteActionRoundTrip(a: ExecuteAction)
    ensures ExecuteActionFromRaw(ExecuteActionRawValue(a)) == Some(a)
  {
    ExecuteActionRawValuesDistinct();
    ParseRawOfRawValue(AllExecuteActions, ExecuteActionRawValue, match a case Start => 0 case Stop => 1 case Restart => 2 case Kill => 3 case Pause => 4 case Unpause => 5);
  }

  /** Exactly the six action names are accepted. */
  lemma ExecuteActionAcceptsExactly(raw: string)
    ensures ExecuteActionFromRaw(raw) ==
      if raw == "start" then Some(Start)
      else if raw == "stop" then Some(Stop)
      else if raw == "restart" then Some(Restart)
      else if raw == "kill" then Some(Kill)
      else if raw == "pause" then Some(Pause)
      else if raw == "unpause" then Some(Unpause)
      else None
  {
    if ExecuteActionFromRaw(raw).None? {
      assert forall i :: 0 <= i < 6 ==> ExecuteActionRawValue(AllExecuteActions[i]) != raw;
    }
  }

  /** `ExecuteAction.expectedState`: the status a container should reach after the action. */
  function ExpectedState(a: ExecuteAction): (s: ContainerStatus)
    ensures s != Created && s != Removing && s != Dead
  {
    match a
    case Start => Running
    case Stop => Exited
    case Restart => Restarting
    case Kill => Exited
    case Pause => Paused
    case Unpause => Running
  }

  /**
   * The statuses some action leads to are exactly running, paused, restarting
   * and exited; start and unpause share one, and so do stop and kill, so the
   * mapping is not injective.
   */
  lemma ExpectedStateImage(s: ContainerStatus)
    ensures (exists a :: ExpectedState(a) == s) <==> s in {Running, Paused, Restarting, Exited}
    ensures ExpectedState(Start) == ExpectedState(Unpause) && ExpectedState(Stop) == ExpectedState(Kill)
  {
    if s == Running { assert ExpectedState(Start) == s; }
    if s == Paused { assert ExpectedState(Pause) == s; }
    if s == Restarting { assert ExpectedState(Restart) == s; }
    if s == Exited { assert ExpectedState(Stop) == s; }
  }

  // ---------------------------------------------------------------------------
  // MountConsistency, MountType, BindOptions.Propagation, Port.PortType

  datatype MountConsistency = Default | Consistent | Cached | Delegated

  const AllMountConsistencies: seq<MountConsistency> := [Default, Consistent, Cached, Delegated]

  function MountConsistencyRawValue(c: MountConsistency): string {
    match c
    case Default => "default"
    case Consistent => "consistent"
    case Cached => "cached"
    case Delegated => "delegated"
  }

  /** `init?(rawValue:)`: the case whose raw value is `raw`, and `None` when no case has it. */
  function MountConsistencyFromRaw(raw: string): (r: Option<MountConsistency>)
    ensures r.Some? ==> MountConsistencyRawValue(r.value) == raw
    ensures r.None? <==> forall x: MountConsistency :: MountConsistencyRawValue(x) != raw
  {
    ParseRaw(AllMountConsistencies, MountConsistencyRawValue, raw)
  }

  /** The raw values of the 4 cases are pairwise distinct. */
  lemma MountConsistencyRawValuesDistinct()
    ensures InjectiveOn(AllMountConsistencies, MountConsistencyRawValue)
  {
  }

  /** Parsing a case's raw value gives the case back. */
  lemma MountConsistencyRoundTrip(c: MountConsistency)
    ensures MountConsistencyFromRaw(MountConsistencyRawValue(c)) == Some(c)
  {
    MountConsistencyRawValuesDistinct();
    ParseRawOfRawValue(AllMountConsistencies, MountConsistencyRawValue, match c case Default => 0 case Consistent => 1 case Cached => 2 case Delegated => 3);
  }

  /** Exactly "default", "consistent", "cached" and "delegated" are accepted; an unknown string fails rather than defaulting. */
  lemma MountConsistencyAcceptsExactly(raw: string)
    ensures MountConsistencyFromRaw(raw) ==
      if raw == "default" then Some(Default)
      else if raw == "consistent" then Some(Consistent)
      else if raw == "cached" then Some(Cached)
      else if raw == "delegated" then Some(Delegated)
      else None
  {
    if MountConsistencyFromRaw(raw).None? {
      assert forall i :: 0 <= i < 4 ==> MountConsistencyRawValue(AllMountConsistencies[i]) != raw;
    }
  }

  datatype MountType = Bind | Volume | Tmpfs

  const AllMountTypes: seq<MountType> := [Bind, Volume, Tmpfs]

  function MountTypeRawValue(t: MountType): string {
    match t
    case Bind => "bind"
    case Volume => "volume"
    case Tmpfs => "tmpfs"
  }

  /** `init?(rawValue:)`: the case whose raw value is `raw`, and `None` when no case has it. */
  function MountTypeFromRaw(raw: string): (r: Option<MountType>)
    ensures r.Some? ==> MountTypeRawValue(r.value) == raw
    ensures r.None? <==> forall x: MountType :: MountTypeRawValue(x) != raw
  {
    ParseRaw(AllMountTypes, MountTypeRawValue, raw)
  }

  /** The raw values of the 3 cases are pairwise distinct. */
  lemma MountTypeRawValuesDistinct()
    ensures InjectiveOn(AllMountTypes, MountTypeRawValue)
  {
  }

  /** Parsing a case's raw value gives the case back. */
  lemma MountTypeRoundTrip(t: MountType)
    ensures MountTypeFromRaw(MountTypeRawValue(t)) == Some(t)
  {
    MountTypeRawValuesDistinct();
    ParseRawOfRawValue(AllMountTypes, MountTypeRawValue, match t case Bind => 0 case Volume => 1 case Tmpfs => 2);
  }

  /** Exactly "bind", "volume" and "tmpfs" are accepted. */
  lemma MountTypeAcceptsExactly(raw: string)
    ensures MountTypeFromRaw(raw) ==
      if raw == "bind" then Some(Bind)
      else if raw == "volume" then Some(Volume)
      else if raw == "tmpfs" then Some(Tmpfs)
      else None
  {
    if MountTypeFromRaw(raw).None? {
      assert forall i :: 0 <= i < 3 ==> MountTypeRawValue(AllMountTypes[i]) != raw;
    }
  }

  /** `BindOptions.Propagation`. */
  datatype Propagation = Private | RPrivate | Shared | RShared | Slave | RSlave

  const AllPropagations: seq<Propagation> := [Private, RPrivate, Shared, RShared, Slave, RSlave]

  function PropagationRawValue(p: Propagation): string {
    match p
    case Private => "private"
    case RPrivate => "rprivate"
    case Shared => "shared"
    case RShared => "rshared"
    case Slave => "slave"
    case RSlave => "rslave"
  }

  /** `init?(rawValue:)`: the case whose raw value is `raw`, and `None` when no case has it. */
  function PropagationFromRaw(raw: string): (r: Option<Propagation>)
    ensures r.Some? ==> PropagationRawValue(r.value) == raw
    ensures r.None? <==> forall x: Propagation :: PropagationRawValue(x) != raw
  {
    ParseRaw(AllPropagations, PropagationRawValue, raw)
  }

  /** The raw values of the 6 cases are pairwise distinct. */
  lemma PropagationRawValuesDistinct()
    ensures InjectiveOn(AllPropagations, PropagationRawValue)
  {
  }

  /** Parsing a case's raw value gives the case back. */
  lemma PropagationRoundTrip(p: Propagation)
    ensures PropagationFromRaw(PropagationRawValue(p)) == Some(p)
  {
    PropagationRawValuesDistinct();
    ParseRawOfRawValue(AllPropagations, PropagationRawValue, match p case Private => 0 case RPrivate => 1 case Shared => 2 case RShared => 3 case Slave => 4 case RSlave => 5);
  }

  /** Exactly the six propagation modes are accepted. */
  lemma PropagationAcceptsExactly(raw: string)
    ensures PropagationFromRaw(raw) ==
      if raw == "private" then Some(Private)
      else if raw == "rprivate" then Some(RPrivate)
      else if raw == "shared" then Some(Shared)
      else if raw == "rshared" then Some(RShared)
      else if raw == "slave" then Some(Slave)
      else if raw == "rslave" then Some(RSlave)
      else None
  {
    if PropagationFromRaw(raw).None? {
      assert forall i :: 0 <= i < 6 ==> PropagationRawValue(AllPropagations[i]) != raw;
    }
  }

  /** `Port.PortType`. */
  datatype PortType = Tcp | Udp

  const AllPortTypes: seq<PortType> := [Tcp, Udp]

  function PortTypeRawValue(t: PortType): string {
    match t
    case Tcp => "tcp"
    case Udp => "udp"
  }

  /** `init?(rawValue:)`: the case whose raw value is `raw`, and `None` when no case has it. */
  function PortTypeFromRaw(raw: string): (r: Option<PortType>)
    ensures r.Some? ==> PortTypeRawValue(r.value) == raw
    ensures r.None? <==> forall x: PortType :: PortTypeRawValue(x) != raw
  {
    ParseRaw(AllPortTypes, PortTypeRawValue, raw)
  }

  /** The raw values of the 2 cases are pairwise distinct. */
  lemma PortTypeRawValuesDistinct()
    ensures InjectiveOn(AllPortTypes, PortTypeRawValue)
  {
  }

  /** Parsing a case's raw value gives the case back. */
  lemma PortTypeRoundTrip(t: PortType)
    ensures PortTypeFromRaw(PortTypeRawValue(t)) == Some(t)
  {
    PortTypeRawValuesDistinct();
    ParseRawOfRawValue(AllPortTypes, PortTypeRawValue, match t case Tcp => 0 case Udp => 1);
  }

  /** Exactly "tcp" and "udp" are accepted. */
  lemma PortTypeAcceptsExactly(raw: string)
    ensures PortTypeFromRaw(raw) ==
      if raw == "tcp" then Some(Tcp)
      else if raw == "udp" then Some(Udp)
      else None
  {
    if PortTypeFromRaw(raw).None? {
      assert forall i :: 0 <= i < 2 ==> PortTypeRawValue(AllPortTypes[i]) != raw;
    }
  }
}
