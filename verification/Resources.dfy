/** Names and the declared topology: which members a pair of replica counts asks for, and which
    it is shedding. Identity follows the pod ordinal. */
module Resources {
  import opened Text
  import opened Decimal
  import opened Memgraph
  import opened Planner

  const BOLT_PORT := 7687
  const MANAGEMENT_PORT := 10000
  const REPLICATION_PORT := 20000
  const COORDINATOR_PORT := 12000

  datatype Spec = Spec(
    name: string,
    namespace: string,
    clusterDomain: string,
    coordinators: nat,
    dataInstances: nat)

  /** Where clients reach exposed members: one address for the coordinators, one per data ordinal. */
  datatype ExternalAddresses = ExternalAddresses(coordinators: string, data: map<nat, string>)

  function DataInstanceName(ordinal: nat): string { "instance_" + FormatInt(ordinal) }
  function CoordinatorInstanceName(ordinal: nat): string { "coordinator_" + FormatInt(ordinal) }
  function PodName(statefulSet: string, ordinal: nat): string { statefulSet + "-" + FormatInt(ordinal) }
  function CoordinatorSetName(spec: Spec): string { spec.name + "-coordinator" }
  function DataSetName(spec: Spec): string { spec.name + "-data" }

  function HostPort(host: string, port: nat): (address: string)
    ensures address != ""
  {
    host + ":" + FormatInt(port)
  }

  function PodFqdn(spec: Spec, service: string, ordinal: nat): string {
    PodName(service, ordinal) + "." + service + "." + spec.namespace + ".svc." + spec.clusterDomain
  }

  function AnnouncedBolt(fqdn: string, external: string): string {
    if external != "" then external else HostPort(fqdn, BOLT_PORT)
  }

  function Coordinator(spec: Spec, ordinal: nat, external: string): CoordinatorSpec {
    var fqdn := PodFqdn(spec, CoordinatorSetName(spec), ordinal);
    CoordinatorSpec(ordinal, AnnouncedBolt(fqdn, external), HostPort(fqdn, COORDINATOR_PORT),
      HostPort(fqdn, MANAGEMENT_PORT))
  }

  function DataInstance(spec: Spec, ordinal: nat, external: string): DataInstanceSpec {
    var fqdn := PodFqdn(spec, DataSetName(spec), ordinal);
    DataInstanceSpec(DataInstanceName(ordinal), AnnouncedBolt(fqdn, external), HostPort(fqdn, MANAGEMENT_PORT),
      HostPort(fqdn, REPLICATION_PORT))
  }

  function ExternalData(external: ExternalAddresses, ordinal: nat): string {
    if ordinal in external.data then external.data[ordinal] else ""
  }

  /** The members the given counts declare, and the ones beyond them that are applied still. */
  function TopologyFor(spec: Spec, external: ExternalAddresses, appliedCoordinators: nat, appliedData: nat): Topology {
    Topology(
      seq(spec.coordinators, o requires 0 <= o => Coordinator(spec, o, external.coordinators)),
      seq(spec.dataInstances, o requires 0 <= o => DataInstance(spec, o, ExternalData(external, o))),
      seq(Beyond(spec.coordinators, appliedCoordinators),
          o requires 0 <= o => Coordinator(spec, spec.coordinators + o, "")),
      seq(Beyond(spec.dataInstances, appliedData),
          o requires 0 <= o => DataInstance(spec, spec.dataInstances + o, "")))
  }

  function Beyond(declared: nat, applied: nat): nat {
    if applied <= declared then 0 else applied - declared
  }

  /** One member for each ordinal of a range, in order. */
  method ForOrdinals<T>(first: nat, end: nat, member: nat -> T) returns (members: seq<T>)
    requires first <= end
    ensures members == seq(end - first, o requires 0 <= o => member(first + o))
  {
    members := [];
    for ordinal := first to end
      invariant |members| == ordinal - first
      invariant forall o: nat :: o < |members| ==> members[o] == member(first + o)
    {
      members := members + [member(ordinal)];
    }
  }

  method DeclaredTopology(spec: Spec, external: ExternalAddresses, appliedCoordinators: nat, appliedData: nat)
    returns (topology: Topology)
    ensures topology == TopologyFor(spec, external, appliedCoordinators, appliedData)
  {
    var coordinators := ForOrdinals(0, spec.coordinators, o => Coordinator(spec, o, external.coordinators));
    var dataInstances := ForOrdinals(0, spec.dataInstances, o => DataInstance(spec, o, ExternalData(external, o)));
    var retiringCoordinators := RetiringCoordinators(spec, appliedCoordinators);
    var retiringDataInstances := RetiringDataInstances(spec, appliedData);
    topology := Topology(coordinators, dataInstances, retiringCoordinators, retiringDataInstances);
  }

  method RetiringCoordinators(spec: Spec, applied: nat) returns (retiring: seq<CoordinatorSpec>)
    ensures retiring == seq(Beyond(spec.coordinators, applied),
                            o requires 0 <= o => Coordinator(spec, spec.coordinators + o, ""))
  {
    if applied <= spec.coordinators {
      return [];
    }
    retiring := ForOrdinals(spec.coordinators, applied, o => Coordinator(spec, o, ""));
  }

  method RetiringDataInstances(spec: Spec, applied: nat) returns (retiring: seq<DataInstanceSpec>)
    ensures retiring == seq(Beyond(spec.dataInstances, applied),
                            o requires 0 <= o => DataInstance(spec, spec.dataInstances + o, ""))
  {
    if applied <= spec.dataInstances {
      return [];
    }
    retiring := ForOrdinals(spec.dataInstances, applied, o => DataInstance(spec, o, ""));
  }

  /* ---- What the planner relies on in a topology ---- */

  ghost predicate DistinctCoordinators(cs: seq<CoordinatorSpec>) {
    forall i, j :: 0 <= i < j < |cs| ==> cs[i].Name() != cs[j].Name()
  }

  ghost predicate DistinctInstances(ds: seq<DataInstanceSpec>) {
    forall i, j :: 0 <= i < j < |ds| ==> ds[i].name != ds[j].name
  }

  /** Every member of either role, staying or retiring. */
  function AllCoordinators(t: Topology): seq<CoordinatorSpec> { t.coordinators + t.retiringCoordinators }
  function AllInstances(t: Topology): seq<DataInstanceSpec> { t.dataInstances + t.retiringDataInstances }

  ghost predicate ValidTopology(t: Topology) {
    && t.coordinators != [] && t.dataInstances != []
    && DistinctCoordinators(AllCoordinators(t)) && DistinctInstances(AllInstances(t))
    && (forall c :: c in AllCoordinators(t) ==> c.Name() != "" && c.boltServer != "")
    && (forall i :: i in AllInstances(t) ==> i.name != "" && i.boltServer != "")
    && (forall c, i :: c in AllCoordinators(t) && i in AllInstances(t) ==> c.Name() != i.name)
  }

  lemma InstanceNamesAreInjective(m: nat, n: nat)
    ensures DataInstanceName(m) == DataInstanceName(n) ==> m == n
  {
    if DataInstanceName(m) == DataInstanceName(n) {
      assert FormatInt(m) == DataInstanceName(m)[|"instance_"|..];
      assert FormatInt(n) == DataInstanceName(n)[|"instance_"|..];
      FormatIsInjective(m, n);
    }
  }

  lemma CoordinatorNamesAreInjective(c: CoordinatorSpec, d: CoordinatorSpec)
    ensures c.Name() == d.Name() ==> c.id == d.id
  {
    if c.Name() == d.Name() {
      assert FormatInt(c.id) == c.Name()[|"coordinator_"|..];
      assert FormatInt(d.id) == d.Name()[|"coordinator_"|..];
      FormatIsInjective(c.id, d.id);
    }
  }

  lemma RolesNeverShareAName(c: CoordinatorSpec, ordinal: nat)
    ensures c.Name() != DataInstanceName(ordinal)
  {
    assert c.Name()[0] == 'c';
    assert DataInstanceName(ordinal)[0] == 'i';
  }

  /** The member of each ordinal, whichever part of the topology it is in. */
  lemma CoordinatorOf(spec: Spec, external: ExternalAddresses, appliedCoordinators: nat, appliedData: nat, i: nat)
    requires i < |AllCoordinators(TopologyFor(spec, external, appliedCoordinators, appliedData))|
    ensures var c := AllCoordinators(TopologyFor(spec, external, appliedCoordinators, appliedData))[i];
      c.id == i && c.Name() != "" && c.boltServer != ""
  {
    var t := TopologyFor(spec, external, appliedCoordinators, appliedData);
    if i >= spec.coordinators {
      assert AllCoordinators(t)[i] == t.retiringCoordinators[i - spec.coordinators] == Coordinator(spec, i, "");
    } else {
      assert AllCoordinators(t)[i] == t.coordinators[i] == Coordinator(spec, i, external.coordinators);
    }
  }

  lemma InstanceOf(spec: Spec, external: ExternalAddresses, appliedCoordinators: nat, appliedData: nat, i: nat)
    requires i < |AllInstances(TopologyFor(spec, external, appliedCoordinators, appliedData))|
    ensures var d := AllInstances(TopologyFor(spec, external, appliedCoordinators, appliedData))[i];
      d.name == DataInstanceName(i) && d.boltServer != ""
  {
    var t := TopologyFor(spec, external, appliedCoordinators, appliedData);
    if i >= spec.dataInstances {
      assert AllInstances(t)[i] == t.retiringDataInstances[i - spec.dataInstances] == DataInstance(spec, i, "");
    } else {
      assert AllInstances(t)[i] == t.dataInstances[i] == DataInstance(spec, i, ExternalData(external, i));
    }
  }

  lemma OrdinalsAreValid(t: Topology)
    requires t.coordinators != [] && t.dataInstances != []
    requires forall i :: 0 <= i < |AllCoordinators(t)| ==>
               var c := AllCoordinators(t)[i]; c.id == i && c.Name() != "" && c.boltServer != ""
    requires forall i :: 0 <= i < |AllInstances(t)| ==>
               var d := AllInstances(t)[i]; d.name == DataInstanceName(i) && d.boltServer != ""
    ensures ValidTopology(t)
  {
    var cs, ds := AllCoordinators(t), AllInstances(t);
    forall i, j | 0 <= i < j < |cs| ensures cs[i].Name() != cs[j].Name() {
      CoordinatorNamesAreInjective(cs[i], cs[j]);
    }
    forall i, j | 0 <= i < j < |ds| ensures ds[i].name != ds[j].name {
      InstanceNamesAreInjective(i, j);
    }
    forall c, i | c in cs && i in ds ensures c.Name() != i.name {
      var k :| 0 <= k < |ds| && ds[k] == i;
      RolesNeverShareAName(c, k);
    }
  }

  /** Any counts with a member of each role give a topology the planner can rely on: no two members
      share a name, retiring or not, and every one of them is announced somewhere. */
  lemma TopologiesAreValid(spec: Spec, external: ExternalAddresses, appliedCoordinators: nat, appliedData: nat)
    requires spec.coordinators > 0 && spec.dataInstances > 0
    ensures ValidTopology(TopologyFor(spec, external, appliedCoordinators, appliedData))
  {
    var t := TopologyFor(spec, external, appliedCoordinators, appliedData);
    forall i | 0 <= i < |AllCoordinators(t)|
      ensures var c := AllCoordinators(t)[i]; c.id == i && c.Name() != "" && c.boltServer != ""
    {
      CoordinatorOf(spec, external, appliedCoordinators, appliedData, i);
    }
    forall i | 0 <= i < |AllInstances(t)|
      ensures var d := AllInstances(t)[i]; d.name == DataInstanceName(i) && d.boltServer != ""
    {
      InstanceOf(spec, external, appliedCoordinators, appliedData, i);
    }
    OrdinalsAreValid(t);
  }

  /* ---- Addresses ---- */

  /** A member's pod, by the name the network knows it under. */
  ghost predicate IsPodHost(spec: Spec, component: string, ordinal: nat, host: string) {
    host == spec.name + "-" + component + "-" + FormatInt(ordinal) + "." + spec.name + "-" + component
              + "." + spec.namespace + ".svc." + spec.clusterDomain
  }

  /** Every address of a member is on its own pod, each at its own port; but for the one it is announced
      at to clients, where it is exposed. */
  ghost predicate CoordinatorAt(spec: Spec, c: CoordinatorSpec, ordinal: nat, external: string) {
    && c.id == ordinal && c.Name() == "coordinator_" + FormatInt(ordinal)
    && exists host :: IsPodHost(spec, "coordinator", ordinal, host)
         && c.boltServer == (if external == "" then host + ":7687" else external)
         && c.managementServer == host + ":10000" && c.coordinatorServer == host + ":12000"
  }

  ghost predicate DataInstanceAt(spec: Spec, i: DataInstanceSpec, ordinal: nat, external: string) {
    && i.name == "instance_" + FormatInt(ordinal)
    && exists host :: IsPodHost(spec, "data", ordinal, host)
         && i.boltServer == (if external == "" then host + ":7687" else external)
         && i.managementServer == host + ":10000" && i.replicationServer == host + ":20000"
  }

  lemma BoltPortPrints()
    ensures FormatInt(BOLT_PORT) == "7687"
  {
    PrintsInTens(0, 7);
    PrintsInTens(7, 6);
    assert FormatInt(76) == "76";
    PrintsInTens(76, 8);
    assert FormatInt(768) == "768";
    PrintsInTens(768, 7);
    assert FormatInt(7687) == "7687";
  }

  lemma ManagementPortPrints()
    ensures FormatInt(MANAGEMENT_PORT) == "10000"
  {
    PrintsInTens(0, 1);
    PrintsInTens(1, 0);
    assert FormatInt(10) == "10";
    PrintsInTens(10, 0);
    assert FormatInt(100) == "100";
    PrintsInTens(100, 0);
    assert FormatInt(1000) == "1000";
    PrintsInTens(1000, 0);
    assert FormatInt(10000) == "10000";
  }

  lemma ReplicationPortPrints()
    ensures FormatInt(REPLICATION_PORT) == "20000"
  {
    PrintsInTens(0, 2);
    PrintsInTens(2, 0);
    assert FormatInt(20) == "20";
    PrintsInTens(20, 0);
    assert FormatInt(200) == "200";
    PrintsInTens(200, 0);
    assert FormatInt(2000) == "2000";
    PrintsInTens(2000, 0);
    assert FormatInt(20000) == "20000";
  }

  lemma CoordinatorPortPrints()
    ensures FormatInt(COORDINATOR_PORT) == "12000"
  {
    PrintsInTens(0, 1);
    PrintsInTens(1, 2);
    assert FormatInt(12) == "12";
    PrintsInTens(12, 0);
    assert FormatInt(120) == "120";
    PrintsInTens(120, 0);
    assert FormatInt(1200) == "1200";
    PrintsInTens(1200, 0);
    assert FormatInt(12000) == "12000";
  }

  lemma PortsPrint()
    ensures FormatInt(BOLT_PORT) == "7687" && FormatInt(MANAGEMENT_PORT) == "10000"
    ensures FormatInt(REPLICATION_PORT) == "20000" && FormatInt(COORDINATOR_PORT) == "12000"
  {
    BoltPortPrints();
    ManagementPortPrints();
    ReplicationPortPrints();
    CoordinatorPortPrints();
  }

  lemma CoordinatorIsAt(spec: Spec, ordinal: nat, external: string)
    ensures CoordinatorAt(spec, Coordinator(spec, ordinal, external), ordinal, external)
  {
    var host := PodFqdn(spec, CoordinatorSetName(spec), ordinal);
    HostIs(spec, "coordinator", ordinal);
    assert CoordinatorSetName(spec) == spec.name + "-" + "coordinator";
    PortsFollow(host);
  }

  lemma DataInstanceIsAt(spec: Spec, ordinal: nat, external: string)
    ensures DataInstanceAt(spec, DataInstance(spec, ordinal, external), ordinal, external)
  {
    var host := PodFqdn(spec, DataSetName(spec), ordinal);
    HostIs(spec, "data", ordinal);
    assert DataSetName(spec) == spec.name + "-" + "data";
    PortsFollow(host);
  }

  lemma HostIs(spec: Spec, component: string, ordinal: nat)
    ensures IsPodHost(spec, component, ordinal, PodFqdn(spec, spec.name + "-" + component, ordinal))
  {
    var set_, digits := spec.name + "-" + component, FormatInt(ordinal);
    var host := PodFqdn(spec, set_, ordinal);
    assert host == set_ + "-" + digits + "." + set_ + "." + spec.namespace + ".svc." + spec.clusterDomain;
    var front := set_ + "-" + digits + ".";
    assert front + set_ == front + spec.name + "-" + component;
  }

  lemma PortsFollow(host: string)
    ensures HostPort(host, BOLT_PORT) == host + ":7687" && HostPort(host, MANAGEMENT_PORT) == host + ":10000"
    ensures HostPort(host, REPLICATION_PORT) == host + ":20000" && HostPort(host, COORDINATOR_PORT) == host + ":12000"
  {
    PortsPrint();
    assert ":" + "7687" == ":7687" && ":" + "10000" == ":10000" && ":" + "20000" == ":20000" && ":" + "12000" == ":12000";
    assert forall port: string :: (host + ":") + port == host + (":" + port);
  }

  lemma DigitsThenDot(m: nat, n: nat, r: string, s: string)
    requires FormatInt(m) + "." + r == FormatInt(n) + "." + s
    ensures m == n
  {
    var text := FormatInt(m) + "." + r;
    assert text[|FormatInt(m)|] == '.' && text[|FormatInt(n)|] == '.';
    assert forall i :: 0 <= i < |FormatInt(m)| ==> text[i] == FormatInt(m)[i];
    assert forall i :: 0 <= i < |FormatInt(n)| ==> text[i] == FormatInt(n)[i];
    assert FormatInt(m) == text[..|FormatInt(m)|];
    FormatIsInjective(m, n);
  }

  /** No address is shared by two pods, whichever ports it is at. */
  lemma PodsShareNoAddress(spec: Spec, component: string, m: nat, host: string, port: string, n: nat, other: string, otherPort: string)
    requires IsPodHost(spec, component, m, host) && IsPodHost(spec, component, n, other)
    requires host + port == other + otherPort
    ensures m == n
  {
    var front := spec.name + "-" + component + "-";
    var rest := spec.name + "-" + component + "." + spec.namespace + ".svc." + spec.clusterDomain;
    HostSplits(spec, component, m, host);
    HostSplits(spec, component, n, other);
    assert (host + port)[|front|..] == FormatInt(m) + "." + (rest + port);
    assert (other + otherPort)[|front|..] == FormatInt(n) + "." + (rest + otherPort);
    DigitsThenDot(m, n, rest + port, rest + otherPort);
  }

  lemma HostSplits(spec: Spec, component: string, n: nat, host: string)
    requires IsPodHost(spec, component, n, host)
    ensures host == (spec.name + "-" + component + "-") + (FormatInt(n) + "."
                    + (spec.name + "-" + component + "." + spec.namespace + ".svc." + spec.clusterDomain))
  {
  }

  lemma RolesShareNoAddress(spec: Spec, m: nat, host: string, port: string, n: nat, other: string, otherPort: string)
    requires IsPodHost(spec, "coordinator", m, host) && IsPodHost(spec, "data", n, other)
    ensures host + port != other + otherPort
  {
    var at := |spec.name| + 1;
    HostSplits(spec, "coordinator", m, host);
    HostSplits(spec, "data", n, other);
    assert (host + port)[at] == "coordinator"[0] == 'c';
    assert (other + otherPort)[at] == "data"[0] == 'd';
  }

  /** The members of a topology by ordinal, the retiring ones after the declared ones, each at its own
      pod; declared ones announced where they are exposed, retiring ones never. */
  lemma TopologyExactly(spec: Spec, external: ExternalAddresses, appliedCoordinators: nat, appliedData: nat)
    ensures var t := TopologyFor(spec, external, appliedCoordinators, appliedData);
      && |t.coordinators| == spec.coordinators && |t.dataInstances| == spec.dataInstances
      && |t.coordinators| + |t.retiringCoordinators| == (if appliedCoordinators > spec.coordinators then appliedCoordinators else spec.coordinators)
      && |t.dataInstances| + |t.retiringDataInstances| == (if appliedData > spec.dataInstances then appliedData else spec.dataInstances)
      && (forall o: nat :: o < |t.coordinators| ==> CoordinatorAt(spec, t.coordinators[o], o, external.coordinators))
      && (forall o: nat :: o < |t.dataInstances| ==>
            DataInstanceAt(spec, t.dataInstances[o], o, if o in external.data then external.data[o] else ""))
      && (forall k: nat :: k < |t.retiringCoordinators| ==> CoordinatorAt(spec, t.retiringCoordinators[k], spec.coordinators + k, ""))
      && (forall k: nat :: k < |t.retiringDataInstances| ==>
            DataInstanceAt(spec, t.retiringDataInstances[k], spec.dataInstances + k, ""))
  {
    TopologyCoordinators(spec, external, appliedCoordinators, appliedData);
    TopologyInstances(spec, external, appliedCoordinators, appliedData);
  }

  lemma TopologyCoordinators(spec: Spec, external: ExternalAddresses, appliedCoordinators: nat, appliedData: nat)
    ensures var t := TopologyFor(spec, external, appliedCoordinators, appliedData);
      && (forall o: nat :: o < |t.coordinators| ==> CoordinatorAt(spec, t.coordinators[o], o, external.coordinators))
      && (forall k: nat :: k < |t.retiringCoordinators| ==> CoordinatorAt(spec, t.retiringCoordinators[k], spec.coordinators + k, ""))
  {
    var t := TopologyFor(spec, external, appliedCoordinators, appliedData);
    forall o: nat | o < |t.coordinators| ensures CoordinatorAt(spec, t.coordinators[o], o, external.coordinators) {
      assert t.coordinators[o] == Coordinator(spec, o, external.coordinators);
      CoordinatorIsAt(spec, o, external.coordinators);
    }
    forall k: nat | k < |t.retiringCoordinators|
      ensures CoordinatorAt(spec, t.retiringCoordinators[k], spec.coordinators + k, "")
    {
      assert t.retiringCoordinators[k] == Coordinator(spec, spec.coordinators + k, "");
      CoordinatorIsAt(spec, spec.coordinators + k, "");
    }
  }

  lemma TopologyInstances(spec: Spec, external: ExternalAddresses, appliedCoordinators: nat, appliedData: nat)
    ensures var t := TopologyFor(spec, external, appliedCoordinators, appliedData);
      && (forall o: nat :: o < |t.dataInstances| ==>
            DataInstanceAt(spec, t.dataInstances[o], o, if o in external.data then external.data[o] else ""))
      && (forall k: nat :: k < |t.retiringDataInstances| ==>
            DataInstanceAt(spec, t.retiringDataInstances[k], spec.dataInstances + k, ""))
  {
    var t := TopologyFor(spec, external, appliedCoordinators, appliedData);
    forall o: nat | o < |t.dataInstances|
      ensures DataInstanceAt(spec, t.dataInstances[o], o, if o in external.data then external.data[o] else "")
    {
      assert t.dataInstances[o] == DataInstance(spec, o, ExternalData(external, o));
      DataInstanceIsAt(spec, o, ExternalData(external, o));
    }
    forall k: nat | k < |t.retiringDataInstances|
      ensures DataInstanceAt(spec, t.retiringDataInstances[k], spec.dataInstances + k, "")
    {
      assert t.retiringDataInstances[k] == DataInstance(spec, spec.dataInstances + k, "");
      DataInstanceIsAt(spec, spec.dataInstances + k, "");
    }
  }

  /* ---- Pod ordinals ---- */

  /** Reads a pod's name back as the StatefulSet would have printed it; any other name has no ordinal. */
  function PodOrdinal(statefulSet: string, pod: string): Option<nat> {
    match CutPrefix(pod, statefulSet + "-")
    case None => None
    case Some(suffix) => Ordinal(suffix)
  }

  /** A suffix that is a number exactly as it is printed, in range. */
  function Ordinal(suffix: string): Option<nat> {
    match ParseInt32(suffix)
    case None => None
    case Some(n) => if n < 0 || FormatInt(n) != suffix then None else Some(n)
  }

  lemma OrdinalExactly(suffix: string, n: nat)
    ensures Ordinal(suffix) == Some(n) <==> n <= MAX_INT32 && suffix == FormatInt(n)
  {
    ParseOfFormat(n);
  }

  /** Printing and parsing an ordinal are inverses: the names accepted are exactly the names of the
      StatefulSet's own pods. */
  lemma PodOrdinalExactly(statefulSet: string, pod: string, n: nat)
    ensures PodOrdinal(statefulSet, pod) == Some(n) <==> n <= MAX_INT32 && pod == PodName(statefulSet, n)
  {
    var prefix := statefulSet + "-";
    if prefix <= pod {
      OrdinalExactly(pod[|prefix|..], n);
      assert pod == prefix + pod[|prefix|..];
      assert PodName(statefulSet, n) == prefix + FormatInt(n);
      assert (prefix + FormatInt(n))[|prefix|..] == FormatInt(n);
    } else {
      assert prefix <= PodName(statefulSet, n);
    }
  }
}
