/** Which coordinator's view a pass plans on, and where it sends its commands. */
module LeaderView {
  import opened Text
  import opened Memgraph
  import opened Planner

  datatype Endpoint = Endpoint(name: string, address: string)

  /** The coordinators as they can be reached: what each address answers to SHOW INSTANCES, if it
      answers, and whether a second connection to it gets through. */
  datatype Network = Network(shows: string -> Option<seq<Instance>>, dials: string -> bool)

  datatype Observation =
    | Found(address: string, view: seq<Instance>)
    | NoCoordinatorLeader
    | NoCoordinatorAnswered

  function EndpointAddress(endpoints: seq<Endpoint>, name: string): Option<string> {
    if endpoints == [] then None
    else if endpoints[0].name == name then Some(endpoints[0].address)
    else EndpointAddress(endpoints[1..], name)
  }

  function AnnouncedAddress(view: seq<Instance>, name: string): Option<string> {
    if view == [] then None
    else if view[0].name == name && view[0].boltServer != "" then Some(view[0].boltServer)
    else AnnouncedAddress(view[1..], name)
  }

  /** The leader's pod address, or the one it is announced at when the operator does not run it. */
  function LeaderAddress(endpoints: seq<Endpoint>, view: seq<Instance>, name: string): Option<string> {
    if EndpointAddress(endpoints, name).Some? then EndpointAddress(endpoints, name) else AnnouncedAddress(view, name)
  }

  /** What trying one coordinator comes to. */
  datatype Attempt = Usable(address: string) | Leaderless | Unusable

  function Try(endpoints: seq<Endpoint>, network: Network, e: Endpoint): Attempt {
    match network.shows(e.address)
    case None => Unusable
    case Some(view) =>
      var leader := LeaderName(view);
      if leader == e.name then Usable(e.address)
      else if leader == "" then Leaderless
      else
        match LeaderAddress(endpoints, view, leader)
        case None => Unusable
        case Some(address) => if network.dials(address) then Usable(address) else Unusable
  }

  /** The first usable coordinator decides; without one, whether any answered without a leader does. */
  ghost predicate Observes(endpoints: seq<Endpoint>, network: Network, o: Observation) {
    match o
    case Found(address, view) =>
      exists i :: 0 <= i < |endpoints| && Try(endpoints, network, endpoints[i]) == Usable(address)
                  && network.shows(endpoints[i].address) == Some(view)
                  && forall j :: 0 <= j < i ==> !Try(endpoints, network, endpoints[j]).Usable?
    case NoCoordinatorLeader =>
      && (forall e :: e in endpoints ==> !Try(endpoints, network, e).Usable?)
      && (exists e :: e in endpoints && Try(endpoints, network, e) == Leaderless)
    case NoCoordinatorAnswered =>
      forall e :: e in endpoints ==> Try(endpoints, network, e) == Unusable
  }

  method ObserveCluster(endpoints: seq<Endpoint>, network: Network) returns (o: Observation)
    ensures Observes(endpoints, network, o)
  {
    var leaderless := false;
    for i := 0 to |endpoints|
      invariant forall j :: 0 <= j < i ==> !Try(endpoints, network, endpoints[j]).Usable?
      invariant leaderless <==> exists j :: 0 <= j < i && Try(endpoints, network, endpoints[j]) == Leaderless
    {
      var e := endpoints[i];
      var shown := network.shows(e.address);
      if shown.None? {
        continue;
      }
      var leader := LeaderName(shown.value);
      if leader == e.name {
        return Found(e.address, shown.value);
      }
      if leader == "" {
        leaderless := true;
        continue;
      }
      var address := LeaderAddress(endpoints, shown.value, leader);
      if address.Some? && network.dials(address.value) {
        return Found(address.value, shown.value);
      }
    }
    return if leaderless then NoCoordinatorLeader else NoCoordinatorAnswered;
  }

  /** Where a coordinator of that name is reached: at its pod where the operator runs it, and otherwise at
      the first address the view announces it at. */
  ghost predicate IsReachedAt(endpoints: seq<Endpoint>, view: seq<Instance>, name: string, address: string) {
    if exists e :: e in endpoints && e.name == name then
      exists i :: 0 <= i < |endpoints| && endpoints[i] == Endpoint(name, address) && forall j :: 0 <= j < i ==> endpoints[j].name != name
    else
      AnnouncedFirst(view, name, address)
  }

  lemma {:induction false} EndpointExactly(endpoints: seq<Endpoint>, name: string)
    ensures EndpointAddress(endpoints, name).None? <==> forall e :: e in endpoints ==> e.name != name
    ensures EndpointAddress(endpoints, name).Some? ==>
              exists i :: 0 <= i < |endpoints| && endpoints[i] == Endpoint(name, EndpointAddress(endpoints, name).value)
                && forall j :: 0 <= j < i ==> endpoints[j].name != name
  {
    if endpoints != [] && endpoints[0].name != name {
      EndpointExactly(endpoints[1..], name);
      assert forall e :: e in endpoints <==> e == endpoints[0] || e in endpoints[1..];
      if EndpointAddress(endpoints, name).Some? {
        var i :| 0 <= i < |endpoints[1..]| && endpoints[1..][i] == Endpoint(name, EndpointAddress(endpoints, name).value)
                 && forall j :: 0 <= j < i ==> endpoints[1..][j].name != name;
        assert endpoints[i + 1] == endpoints[1..][i];
        assert forall j :: 0 <= j < i + 1 ==> j == 0 || endpoints[j] == endpoints[1..][j - 1];
      }
    }
  }

  ghost predicate AnnouncedFirst(view: seq<Instance>, name: string, address: string) {
    exists i :: 0 <= i < |view| && view[i].name == name && view[i].boltServer == address != ""
      && forall j :: 0 <= j < i ==> view[j].name != name || view[j].boltServer == ""
  }

  lemma {:induction false} AnnouncedExactly(view: seq<Instance>, name: string, address: string)
    ensures AnnouncedAddress(view, name) == Some(address) <==> AnnouncedFirst(view, name, address)
  {
    if view != [] {
      AnnouncedExactly(view[1..], name, address);
      if !(view[0].name == name && view[0].boltServer != "") {
        if AnnouncedFirst(view[1..], name, address) {
          var i :| 0 <= i < |view[1..]| && view[1..][i].name == name && view[1..][i].boltServer == address != ""
                   && forall j :: 0 <= j < i ==> view[1..][j].name != name || view[1..][j].boltServer == "";
          assert view[i + 1] == view[1..][i];
          assert forall j :: 0 <= j < i + 1 ==> j == 0 || view[j] == view[1..][j - 1];
        }
        if AnnouncedFirst(view, name, address) {
          var i :| 0 <= i < |view| && view[i].name == name && view[i].boltServer == address != ""
                   && forall j :: 0 <= j < i ==> view[j].name != name || view[j].boltServer == "";
          assert view[i] == view[1..][i - 1];
          assert forall j :: 0 <= j < i - 1 ==> view[1..][j] == view[j + 1];
        }
      }
    }
  }

  lemma {:induction false} FirstReachedAt(endpoints: seq<Endpoint>, name: string, address: string)
    ensures EndpointAddress(endpoints, name) == Some(address) <==>
              exists i :: 0 <= i < |endpoints| && endpoints[i] == Endpoint(name, address) && forall j :: 0 <= j < i ==> endpoints[j].name != name
  {
    EndpointExactly(endpoints, name);
    if i :| 0 <= i < |endpoints| && endpoints[i] == Endpoint(name, address) && forall j :: 0 <= j < i ==> endpoints[j].name != name {
      assert endpoints[i] in endpoints;
      var found := EndpointAddress(endpoints, name);
      var k :| 0 <= k < |endpoints| && endpoints[k] == Endpoint(name, found.value) && forall j :: 0 <= j < k ==> endpoints[j].name != name;
      assert i == k;
    }
  }

  lemma ReachedExactly(endpoints: seq<Endpoint>, view: seq<Instance>, name: string, address: string)
    ensures LeaderAddress(endpoints, view, name) == Some(address) <==> IsReachedAt(endpoints, view, name, address)
  {
    EndpointExactly(endpoints, name);
    FirstReachedAt(endpoints, name, address);
    AnnouncedExactly(view, name, address);
  }

  /** The name of the first row that leads, or none. */
  ghost predicate Leads(view: seq<Instance>, name: string) {
    if forall i :: 0 <= i < |view| ==> !view[i].IsLeader() then name == ""
    else exists i :: 0 <= i < |view| && view[i].IsLeader() && view[i].name == name && forall j :: 0 <= j < i ==> !view[j].IsLeader()
  }

  lemma {:induction false} LeaderNameLeads(view: seq<Instance>)
    ensures Leads(view, LeaderName(view))
  {
    if view != [] && !view[0].IsLeader() {
      LeaderNameLeads(view[1..]);
      if i :| 0 <= i < |view| && view[i].IsLeader() {
        assert view[1..][i - 1] == view[i];
        var k :| 0 <= k < |view[1..]| && view[1..][k].IsLeader() && view[1..][k].name == LeaderName(view[1..])
                 && forall j :: 0 <= j < k ==> !view[1..][j].IsLeader();
        assert view[k + 1] == view[1..][k];
        assert forall j :: 0 <= j < k + 1 ==> j == 0 || view[j] == view[1..][j - 1];
      } else {
        assert forall i :: 0 <= i < |view[1..]| ==> view[1..][i] == view[i + 1];
      }
    }
  }

  /** A coordinator can be used when it answers and leads itself, or names a leader that can be dialled
      where that one is reached; it answers leaderless when its rows name nobody. */
  lemma TriedExactly(endpoints: seq<Endpoint>, network: Network, e: Endpoint, address: string)
    ensures Try(endpoints, network, e) == Usable(address) <==>
              && network.shows(e.address).Some?
              && var leader := LeaderName(network.shows(e.address).value);
                 || (leader == e.name && address == e.address)
                 || (leader !in {"", e.name} && network.dials(address)
                     && IsReachedAt(endpoints, network.shows(e.address).value, leader, address))
    ensures Try(endpoints, network, e) == Leaderless <==>
              network.shows(e.address).Some? && LeaderName(network.shows(e.address).value) == "" && e.name != ""
  {
    if network.shows(e.address).Some? {
      var view := network.shows(e.address).value;
      ReachedExactly(endpoints, view, LeaderName(view), address);
      if LeaderAddress(endpoints, view, LeaderName(view)).Some? {
        ReachedExactly(endpoints, view, LeaderName(view), LeaderAddress(endpoints, view, LeaderName(view)).value);
      }
    }
  }

  /** What the coordinators promise of the views they serve: one that names a leader answers with that
      leader's own view, forwarded or not; one that names none may answer anything. */
  ghost predicate ServesLeadersView(endpoints: seq<Endpoint>, network: Network, leader: string, view: seq<Instance>) {
    && leader != "" && LeaderName(view) == leader
    && forall e :: e in endpoints && network.shows(e.address).Some? && LeaderName(network.shows(e.address).value) != "" ==>
         network.shows(e.address).value == view
  }

  lemma {:induction false} EndpointIsFound(endpoints: seq<Endpoint>, e: Endpoint)
    requires e in endpoints && forall i, j :: 0 <= i < j < |endpoints| ==> endpoints[i].name != endpoints[j].name
    ensures EndpointAddress(endpoints, e.name) == Some(e.address)
  {
    if endpoints[0] != e {
      var i :| 0 <= i < |endpoints| && endpoints[i] == e;
      assert endpoints[1..][i - 1] == e;
      EndpointIsFound(endpoints[1..], e);
    }
  }

  /** A pass never plans on a stale view, nor sends a command to a coordinator it does not take for the
      leader: whatever is found is the leader's view, and the connection is to the leader's pod where
      the operator runs it, to its announced address where it does not. */
  lemma PlansOnTheLeadersView(endpoints: seq<Endpoint>, network: Network, o: Observation, leader: string, view: seq<Instance>)
    requires forall i, j :: 0 <= i < j < |endpoints| ==> endpoints[i].name != endpoints[j].name
    requires forall e :: e in endpoints ==> e.name != ""
    requires ServesLeadersView(endpoints, network, leader, view) && Observes(endpoints, network, o)
    ensures o.Found? ==> o.view == view && IsReachedAt(endpoints, view, leader, o.address)
    ensures (exists e :: e in endpoints && e.name == leader && network.shows(e.address).Some?
                         && LeaderName(network.shows(e.address).value) != "") ==> o.Found?
  {
    if o.Found? {
      var i :| 0 <= i < |endpoints| && Try(endpoints, network, endpoints[i]) == Usable(o.address)
               && network.shows(endpoints[i].address) == Some(o.view);
      assert endpoints[i] in endpoints;
      if endpoints[i].name == leader {
        EndpointIsFound(endpoints, endpoints[i]);
      }
      ReachedExactly(endpoints, view, leader, o.address);
    }
  }
}
