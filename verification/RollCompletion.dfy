/** Every roll can be finished: from wherever a run has come, what is down can come back, the cluster can
    heal, and passes can restart what is left. */
module RollCompletion {
  import opened Text
  import opened Memgraph
  import opened Planner
  import opened Resources
  import opened Cluster
  import opened Rollout
  import opened Observation
  import opened Roll

  /* ---- What a pass reads in a healed cluster ---- */

  function RowOf(name: string, role: string): Memgraph.Instance { Memgraph.Instance(name, name, "", "", "up", role) }

  function HealedView(setup: Setup): seq<Memgraph.Instance> {
    seq(setup.data, o requires 0 <= o < setup.data => RowOf(DataInstanceName(o), if o == 0 then "main" else "replica"))
    + seq(setup.coordinators, o requires 0 <= o < setup.coordinators =>
            RowOf(CoordinatorInstanceName(o), if o == 0 then "leader" else "follower"))
  }

  function CaughtUpRow(o: nat): ReplicationLag { ReplicationLag(DataInstanceName(o), [DatabaseLag("memgraph", 0, 0)]) }

  function HealedLag(setup: Setup): seq<ReplicationLag> {
    seq(setup.data, o requires 0 <= o < setup.data => CaughtUpRow(o))
  }

  function HealedReads(setup: Setup): Reads {
    Reads(CurrentSet(setup.dataRevision, setup.data), 1, CurrentSet(setup.coordinatorRevision, setup.coordinators), 1,
          HealedView(setup), HealedLag(setup))
  }

  lemma Plays(name: string)
    ensures RowOf(name, "main").IsMain() && !RowOf(name, "main").IsLeader()
    ensures RowOf(name, "leader").IsLeader() && !RowOf(name, "leader").IsMain()
    ensures !RowOf(name, "replica").IsMain() && !RowOf(name, "replica").IsLeader()
    ensures !RowOf(name, "follower").IsMain() && !RowOf(name, "follower").IsLeader()
    ensures forall role :: RowOf(name, role).IsUp()
  {
    RolesDiffer();
    assert |"leader"| == 6 && |"main"| == 4 && |"replica"| == 7 && |"follower"| == 8;
    assert EqualFold("leader", "leader") && EqualFold("up", "up") && EqualFold("main", "main");
  }

  lemma NamesDiffer(m: nat, n: nat)
    ensures DataInstanceName(m) != CoordinatorInstanceName(n)
    ensures CoordinatorInstanceName(m) == CoordinatorInstanceName(n) ==> m == n
    ensures DataInstanceName(m) == DataInstanceName(n) ==> m == n
  {
    assert DataInstanceName(m)[0] == 'i' && CoordinatorInstanceName(n)[0] == 'c';
    CoordinatorNamesAreInjective(CoordinatorSpec(m, "", "", ""), CoordinatorSpec(n, "", "", ""));
    InstanceNamesAreInjective(m, n);
  }

  /** The rows are all up and named differently; one is MAIN and one leads. */
  ghost predicate AllPlay(view: seq<Memgraph.Instance>, main: nat, leader: nat) {
    && UniqueNames(view) && main < |view| && leader < |view|
    && forall i :: 0 <= i < |view| ==> view[i].IsUp() && (view[i].IsMain() <==> i == main) && (view[i].IsLeader() <==> i == leader)
  }

  lemma ViewNamesDiffer(setup: Setup)
    ensures UniqueNames(HealedView(setup))
  {
    var view := HealedView(setup);
    forall i, j | 0 <= i < j < |view| ensures view[i].name != view[j].name {
      if j < setup.data {
        NamesDiffer(i, j);
      } else if i < setup.data {
        NamesDiffer(i, j - setup.data);
      } else {
        NamesDiffer(i - setup.data, j - setup.data);
      }
    }
  }

  lemma ViewPlays(setup: Setup)
    requires setup.data > 0 && setup.coordinators > 0
    ensures AllPlay(HealedView(setup), 0, setup.data)
  {
    var view := HealedView(setup);
    ViewNamesDiffer(setup);
    forall i | 0 <= i < |view|
      ensures view[i].IsUp() && (view[i].IsMain() <==> i == 0) && (view[i].IsLeader() <==> i == setup.data)
    {
      Plays(view[i].name);
    }
  }

  lemma RowAt(view: seq<Memgraph.Instance>, main: nat, leader: nat, i: nat)
    requires AllPlay(view, main, leader) && i < |view|
    ensures Up(Index(view), view[i].name)
    ensures IsMain(Index(view), view[i].name) <==> i == main
    ensures IsLeader(Index(view), view[i].name) <==> i == leader
  {
    IndexOfUniqueNames(view);
  }

  lemma OneOfEach(view: seq<Memgraph.Instance>, main: nat, leader: nat)
    requires AllPlay(view, main, leader)
    ensures AtMostOneMain(Index(view)) && AtMostOneLeader(Index(view))
  {
    forall n | n in Index(view)
      ensures IsMain(Index(view), n) ==> n == view[main].name
      ensures IsLeader(Index(view), n) ==> n == view[leader].name
    {
      var i :| 0 <= i < |view| && view[i].name == n;
      RowAt(view, main, leader, i);
    }
  }

  lemma {:induction false} ListedInLag(lag: seq<ReplicationLag>, i: nat)
    requires i < |lag|
    ensures lag[i].instance in IndexLag(lag)
  {
    if i < |lag| - 1 {
      assert lag[..|lag| - 1][i] == lag[i];
      ListedInLag(lag[..|lag| - 1], i);
    }
  }

  lemma AllCaughtUp(setup: Setup, o: nat)
    requires o < setup.data
    ensures CaughtUp(IndexLag(HealedLag(setup)), DataInstanceName(o))
  {
    var lag := HealedLag(setup);
    ListedInLag(lag, o);
    assert lag[o].instance == DataInstanceName(o);
    var row := IndexLag(lag)[DataInstanceName(o)];
    var i :| 0 <= i < |lag| && lag[i] == row;
    assert row == CaughtUpRow(i);
  }

  ghost predicate EverybodyUp(setup: Setup, w: World) { forall p :: setup.Has(p) ==> w.IsUp(p) }

  lemma RowOfMember(setup: Setup, p: Place)
    requires setup.Has(p)
    ensures var i := if p.kind == Data then p.ordinal else setup.data + p.ordinal;
      i < |HealedView(setup)| && HealedView(setup)[i].name == Roll.Instance(p.kind)(p.ordinal)
  {
  }

  lemma MemberIsUp(setup: Setup, p: Place)
    requires setup.data > 0 && setup.coordinators > 0 && setup.Has(p)
    ensures Up(Index(HealedView(setup)), Roll.Instance(p.kind)(p.ordinal))
  {
    ViewPlays(setup);
    RowOfMember(setup, p);
    RowAt(HealedView(setup), 0, setup.data, if p.kind == Data then p.ordinal else setup.data + p.ordinal);
  }

  lemma MainAndLeaderInView(setup: Setup)
    requires setup.data > 0 && setup.coordinators > 0
    ensures IsMain(Index(HealedView(setup)), DataInstanceName(0)) && IsLeader(Index(HealedView(setup)), CoordinatorInstanceName(0))
  {
    ViewPlays(setup);
    RowOfMember(setup, Place(Data, 0));
    RowOfMember(setup, Place(Coordinators, 0));
    RowAt(HealedView(setup), 0, setup.data, 0);
    RowAt(HealedView(setup), 0, setup.data, setup.data);
  }

  lemma MembersInView(setup: Setup)
    requires setup.data > 0 && setup.coordinators > 0
    ensures var rows := Index(HealedView(setup));
      && (forall p :: setup.Has(p) ==> Up(rows, Roll.Instance(p.kind)(p.ordinal)))
      && IsMain(rows, DataInstanceName(0)) && IsLeader(rows, CoordinatorInstanceName(0))
      && AtMostOneMain(rows) && AtMostOneLeader(rows)
  {
    ViewPlays(setup);
    OneOfEach(HealedView(setup), 0, setup.data);
    MainAndLeaderInView(setup);
    forall p | setup.Has(p) ensures Up(Index(HealedView(setup)), Roll.Instance(p.kind)(p.ordinal)) {
      MemberIsUp(setup, p);
    }
  }

  function CurrentSet(revision: string, replicas: nat): Option<SetObject> { Some(SetObject(1, 1, revision, replicas, replicas)) }

  /** The parts of a healed cluster, read separately. */
  ghost predicate SetsAreCurrent(setup: Setup, r: Reads) {
    && r.dataSet == CurrentSet(setup.dataRevision, setup.data) && r.dataGeneration == 1
    && r.coordinatorSet == CurrentSet(setup.coordinatorRevision, setup.coordinators) && r.coordinatorGeneration == 1
  }

  ghost predicate ViewIsHealed(setup: Setup, rows: Rows) {
    && (forall p :: setup.Has(p) ==> Up(rows, Roll.Instance(p.kind)(p.ordinal)))
    && (exists o: nat :: o < setup.data && IsMain(rows, DataInstanceName(o)))
    && (exists o: nat :: o < setup.coordinators && IsLeader(rows, CoordinatorInstanceName(o)))
    && AtMostOneMain(rows) && AtMostOneLeader(rows)
  }

  lemma HealedInParts(setup: Setup, w: World, r: Reads)
    requires EverybodyUp(setup, w) && SetsAreCurrent(setup, r) && ViewIsHealed(setup, Index(r.view))
    requires forall o: nat :: o < setup.data ==> CaughtUp(IndexLag(r.lag), DataInstanceName(o))
    ensures Healed(setup, w, r)
  {
    forall kind: Kind ensures r.StatefulSet(kind).Some? && !IsStale(r.StatefulSet(kind).value, r.Generation(kind))
                              && r.StatefulSet(kind).value.readyReplicas >= setup.Replicas(kind)
                              && r.StatefulSet(kind).value.updateRevision == setup.Revision(kind) {}
  }

  lemma ReadsAreHealed(setup: Setup, w: World)
    requires setup.data > 0 && setup.coordinators > 0 && EverybodyUp(setup, w)
    ensures Healed(setup, w, HealedReads(setup))
  {
    MembersInView(setup);
    forall o: nat | o < setup.data ensures CaughtUp(IndexLag(HealedLag(setup)), DataInstanceName(o)) {
      AllCaughtUp(setup, o);
    }
    HealedInParts(setup, w, HealedReads(setup));
  }

  /* ---- Going on ---- */

  /** The run goes on to there; and each pod deleted on the way was deleted by a pass in a healed cluster. */
  ghost predicate ContinuesTo(setup: Setup, states: seq<World>, actions: seq<Action>, more: seq<World>, all: seq<Action>, w: World)
    requires |states| > 0
  {
    && Roll.Run(setup, more, all) && states <= more && actions <= all && more[|more| - 1] == w
    && |w.log| <= |states[|states| - 1].log| + HealedPasses(setup, more, all, |all|)
  }

  ghost predicate CanReach(setup: Setup, states: seq<World>, actions: seq<Action>, w: World)
    requires |states| > 0
  {
    exists more, all :: ContinuesTo(setup, states, actions, more, all, w)
  }

  lemma {:induction false} HealedPassesOfLonger(setup: Setup, states: seq<World>, actions: seq<Action>,
                                                more: seq<World>, all: seq<Action>, k: nat)
    requires states <= more && actions <= all && k <= |actions| < |states| && |all| < |more|
    ensures HealedPasses(setup, more, all, k) == HealedPasses(setup, states, actions, k)
  {
    if k > 0 {
      HealedPassesOfLonger(setup, states, actions, more, all, k - 1);
      assert more[k - 1] == states[k - 1] && all[k - 1] == actions[k - 1];
    }
  }

  lemma RunOneMore(setup: Setup, states: seq<World>, actions: seq<Action>, w: World, a: Action, w': World)
    requires Roll.Run(setup, states, actions) && states[|states| - 1] == w && Step(setup, w, a, w')
    ensures Roll.Run(setup, states + [w'], actions + [a])
  {
    var more, all := states + [w'], actions + [a];
    forall k: nat | k < |all| ensures Steps(setup, more, all, k) {
      if k < |actions| {
        assert Steps(setup, states, actions, k);
        assert more[k] == states[k] && more[k + 1] == states[k + 1] && all[k] == actions[k];
      } else {
        assert more[k] == w && more[k + 1] == w' && all[k] == a;
      }
    }
  }

  lemma CountOneMore(setup: Setup, states: seq<World>, actions: seq<Action>, w: World, a: Action, w': World)
    requires |states| == |actions| + 1 && states[|states| - 1] == w
    ensures HealedPasses(setup, states + [w'], actions + [a], |actions| + 1)
              == HealedPasses(setup, states, actions, |actions|) + if IsHealedPass(setup, w, a) then 1 else 0
  {
    HealedPassesOfLonger(setup, states, actions, states + [w'], actions + [a], |actions|);
  }

  /** A step that deletes a pod only as a pass in a healed cluster. */
  ghost predicate StepsWell(setup: Setup, w: World, a: Action, w': World) {
    Step(setup, w, a, w') && |w'.log| <= |w.log| + if IsHealedPass(setup, w, a) then 1 else 0
  }

  lemma ContinuesOneMore(setup: Setup, states: seq<World>, actions: seq<Action>, more: seq<World>, all: seq<Action>,
                         w: World, a: Action, w': World)
    requires |states| > 0 && ContinuesTo(setup, states, actions, more, all, w) && StepsWell(setup, w, a, w')
    ensures CanReach(setup, states, actions, w')
  {
    RunOneMore(setup, more, all, w, a, w');
    CountOneMore(setup, more, all, w, a, w');
    assert ContinuesTo(setup, states, actions, more + [w'], all + [a], w');
  }

  lemma Onward(setup: Setup, states: seq<World>, actions: seq<Action>, w: World, a: Action, w': World)
    requires |states| > 0 && CanReach(setup, states, actions, w) && StepsWell(setup, w, a, w')
    ensures CanReach(setup, states, actions, w')
  {
    var more, all :| ContinuesTo(setup, states, actions, more, all, w);
    ContinuesOneMore(setup, states, actions, more, all, w, a, w');
  }

  lemma ReachedKeepsInv(setup: Setup, states: seq<World>, actions: seq<Action>, w: World)
    requires |states| > 0 && CanReach(setup, states, actions, w)
    ensures Initial(setup, states[0]) && Inv(setup, states[0], w)
  {
    var more, all :| ContinuesTo(setup, states, actions, more, all, w);
    RunKeepsInv(setup, more, all, |more| - 1);
    assert more[0] == states[0];
  }

  /* ---- Mending ---- */

  function NewPod(setup: Setup, kind: Kind): PodObject { PodObject("new", "new", setup.Revision(kind), false, false, "", "") }

  lemma ComesBack(setup: Setup, states: seq<World>, actions: seq<Action>, w: World, p: Place) returns (w': World)
    requires |states| > 0 && CanReach(setup, states, actions, w) && setup.Has(p) && !w.IsUp(p)
    ensures CanReach(setup, states, actions, w') && w'.log == w.log
    ensures w'.IsUp(p) && forall q :: q != p ==> (w'.IsUp(q) <==> w.IsUp(q))
  {
    var gone, back := w, w;
    if p in w.pods && w.pods[p].deleting {
      gone := w.(pods := w.pods - {p});
      Onward(setup, states, actions, w, Goes(p), gone);
    }
    back := gone;
    if p !in gone.pods {
      back := gone.(pods := gone.pods[p := NewPod(setup, p.kind)]);
      Onward(setup, states, actions, gone, IsRecreated(p, NewPod(setup, p.kind)), back);
    }
    w' := back.(pods := back.pods[p := back.pods[p].(ready := true)]);
    Onward(setup, states, actions, back, Probes(p, true), w');
  }

  /** One pod at most is down, so that one coming back leaves everybody up. */
  lemma Mends(setup: Setup, states: seq<World>, actions: seq<Action>, w: World) returns (w': World)
    requires |states| > 0 && CanReach(setup, states, actions, w)
    ensures CanReach(setup, states, actions, w') && w'.log == w.log && EverybodyUp(setup, w')
  {
    ReachedKeepsInv(setup, states, actions, w);
    if p :| setup.Has(p) && !w.IsUp(p) {
      w' := ComesBack(setup, states, actions, w, p);
    } else {
      w' := w;
    }
  }

  /* ---- Finishing ---- */

  /** A pass in the healed cluster, while something is left: one more pod is restarted. */
  lemma DeletesOne(setup: Setup, init: World, w: World, r: Reads) returns (w': World)
    requires Initial(setup, init) && AllKept(setup, init, w) && Healed(setup, w, r) && !(ToDo(setup, init) <= Places(w.log))
    ensures Step(setup, w, Passes(r, true), w') && |w'.log| == |w.log| + 1
  {
    HealedPassIsDone(setup, init, w, r);
    DecidedDeleteIsLogged(setup, w, r);
    w' := Deleted(w, Acting(setup, w, r), Decide(setup, w, r).pod, r);
  }

  lemma HealedStepsWell(setup: Setup, w: World, r: Reads, w': World)
    requires Healed(setup, w, r) && Step(setup, w, Passes(r, true), w') && |w'.log| == |w.log| + 1
    ensures StepsWell(setup, w, Passes(r, true), w')
  {
    assert IsHealedPass(setup, w, Passes(r, true));
  }

  lemma RestartsOne(setup: Setup, states: seq<World>, actions: seq<Action>, w: World) returns (w': World)
    requires |states| > 0 && CanReach(setup, states, actions, w) && EverybodyUp(setup, w) && setup.coordinators > 0
    requires !(ToDo(setup, states[0]) <= Places(w.log))
    ensures CanReach(setup, states, actions, w') && |w'.log| == |w.log| + 1
  {
    ReachedKeepsInv(setup, states, actions, w);
    ReadsAreHealed(setup, w);
    w' := DeletesOne(setup, states[0], w, HealedReads(setup));
    HealedStepsWell(setup, w, HealedReads(setup), w');
    Onward(setup, states, actions, w, Passes(HealedReads(setup), true), w');
  }

  lemma LogIsBounded(setup: Setup, init: World, w: World)
    requires Initial(setup, init) && Inv(setup, init, w)
    ensures Places(w.log) <= ToDo(setup, init) && |w.log| <= |ToDo(setup, init)|
  {
    DistinctPlaces(init, w.log);
    forall p | p in Places(w.log) ensures p in ToDo(setup, init) {
      var i :| 0 <= i < |w.log| && w.log[i].place == p;
      assert setup.Has(p) && PlaceKept(setup, init, w, p);
    }
    if Places(w.log) != ToDo(setup, init) {
      SmallerIsFewer(Places(w.log), ToDo(setup, init));
    }
  }

  lemma {:induction false} Finishes(setup: Setup, states: seq<World>, actions: seq<Action>, w: World) returns (last: World)
    requires |states| > 0 && CanReach(setup, states, actions, w) && setup.coordinators > 0
    ensures CanReach(setup, states, actions, last) && EverybodyUp(setup, last) && Places(last.log) == ToDo(setup, states[0])
    decreases |ToDo(setup, states[0])| - |w.log|
  {
    last := Mends(setup, states, actions, w);
    ReachedKeepsInv(setup, states, actions, last);
    LogIsBounded(setup, states[0], last);
    if !(ToDo(setup, states[0]) <= Places(last.log)) {
      var next := RestartsOne(setup, states, actions, last);
      ReachedKeepsInv(setup, states, actions, next);
      LogIsBounded(setup, states[0], next);
      last := Finishes(setup, states, actions, next);
    }
  }

  /** From wherever a roll has come, some continuation restarts every pod that is left and ends in a
      healed cluster whose pass reports Done. On the way every delete is a healed pass's; so from the
      start there are as many healed passes as there were outdated pods. */
  lemma EveryRollCanFinish(setup: Setup, states: seq<World>, actions: seq<Action>) returns (more: seq<World>, all: seq<Action>)
    requires Roll.Run(setup, states, actions) && setup.coordinators > 0
    ensures Roll.Run(setup, more, all) && states <= more && actions <= all
    ensures var last := more[|more| - 1];
      && Places(last.log) == ToDo(setup, states[0])
      && Healed(setup, last, HealedReads(setup)) && Decide(setup, last, HealedReads(setup)).Done?
    ensures HealedPasses(setup, more, all, |all|) + |states[|states| - 1].log| >= |ToDo(setup, states[0])|
  {
    var w := states[|states| - 1];
    assert ContinuesTo(setup, states, actions, states, actions, w);
    var last := Finishes(setup, states, actions, w);
    ReachedKeepsInv(setup, states, actions, last);
    DistinctPlaces(states[0], last.log);
    ReadsAreHealed(setup, last);
    HealedPassIsDone(setup, states[0], last, HealedReads(setup));
    more, all :| ContinuesTo(setup, states, actions, more, all, last);
  }

  /* ---- A roll of every pod ---- */

  function AllPlaces(setup: Setup): set<Place> {
    (set o: nat | o < setup.data :: Place(Data, o)) + set o: nat | o < setup.coordinators :: Place(Coordinators, o)
  }

  function OldWorld(setup: Setup, old_: PodObject): World { World(map p | p in AllPlaces(setup) :: old_, []) }

  lemma OldWorldStarts(setup: Setup, old_: PodObject)
    requires setup.data > 0 && setup.dataRevision != "" && setup.coordinatorRevision != ""
    requires old_.IsReady() && old_.revisionHash !in {"", setup.dataRevision, setup.coordinatorRevision} && old_.uid !in setup.exempt
    ensures Initial(setup, OldWorld(setup, old_)) && ToDo(setup, OldWorld(setup, old_)) == AllPlaces(setup) != {}
  {
    forall p ensures p in AllPlaces(setup) <==> setup.Has(p) {
      assert p == Place(p.kind, p.ordinal);
    }
    assert Place(Data, 0) in AllPlaces(setup);
  }

  lemma NothingYet(setup: Setup, init: World)
    requires Initial(setup, init)
    ensures Roll.Run(setup, [init], [])
  {
  }

  /** A roll that starts with every pod outdated and restarts each, by as many healed passes. */
  lemma AnOutdatedRollFinishes(setup: Setup, old_: PodObject) returns (states: seq<World>, actions: seq<Action>)
    requires setup.data > 0 && setup.coordinators > 0 && setup.dataRevision != "" && setup.coordinatorRevision != ""
    requires old_.IsReady() && old_.revisionHash !in {"", setup.dataRevision, setup.coordinatorRevision} && old_.uid !in setup.exempt
    ensures Roll.Run(setup, states, actions) && ToDo(setup, states[0]) == AllPlaces(setup) != {}
    ensures HealedPasses(setup, states, actions, |actions|) >= |ToDo(setup, states[0])|
    ensures Decide(setup, states[|states| - 1], HealedReads(setup)).Done?
  {
    var init := OldWorld(setup, old_);
    OldWorldStarts(setup, old_);
    NothingYet(setup, init);
    states, actions := EveryRollCanFinish(setup, [init], []);
    assert states[0] == init && init.log == [];
  }
}
