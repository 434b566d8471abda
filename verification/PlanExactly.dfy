/** Which commands a plan holds and in what order, said of the declared topology, the rows of the view
    and the lag rows alone. */
module PlanExactly {
  import opened Text
  import opened Memgraph
  import opened Planner
  import opened Resources
  import opened Cluster
  import opened PlannerMeaning
  import opened PlannerSafety

  type Lags = map<string, ReplicationLag>

  /* ---- What each command is planned for ---- */

  ghost predicate Answers(rows: Rows, name: string) { name in rows && rows[name].IsUp() }

  /** Reachable, and listed with at least one database and none behind. */
  ghost predicate MayTakeOver(rows: Rows, lag: Lags, name: string) {
    && Answers(rows, name)
    && name in lag && lag[name].databases != [] && forall d :: d in lag[name].databases ==> d.txnsBehindMain <= 0
  }

  ghost predicate SomebodyMay(t: Topology, rows: Rows, lag: Lags) {
    exists i :: 0 <= i < |t.dataInstances| && MayTakeOver(rows, lag, t.dataInstances[i].name)
  }

  ghost predicate RetiringMainIs(t: Topology, rows: Rows, name: string) {
    && name in rows && rows[name].IsMain()
    && exists i :: 0 <= i < |t.retiringDataInstances| && t.retiringDataInstances[i].name == name
  }

  /** Exactly the instances that may take over, in the order they are declared in. */
  ghost predicate AllWhoMay(t: Topology, rows: Rows, lag: Lags, names: seq<string>) {
    && (forall n :: n in names <==> exists i :: 0 <= i < |t.dataInstances| && t.dataInstances[i].name == n && MayTakeOver(rows, lag, n))
    && InDeclaredOrder(t.dataInstances, names)
  }

  ghost predicate InDeclaredOrder(ds: seq<DataInstanceSpec>, names: seq<string>) {
    forall a, b :: 0 <= a < b < |names| ==> DeclaredBefore(ds, names[a], names[b])
  }

  ghost predicate DeclaredBefore(ds: seq<DataInstanceSpec>, m: string, n: string) {
    exists i, j :: 0 <= i < j < |ds| && ds[i].name == m && ds[j].name == n
  }

  /** The first declared instance that answers, or the first declared one when none does. */
  ghost predicate FirstChoice(t: Topology, rows: Rows, name: string) {
    exists i :: 0 <= i < |t.dataInstances| && t.dataInstances[i].name == name
      && if Answers(rows, name) then forall j :: 0 <= j < i ==> !Answers(rows, t.dataInstances[j].name)
         else i == 0 && forall j :: 0 <= j < |t.dataInstances| ==> !Answers(rows, t.dataInstances[j].name)
  }

  ghost predicate Wanted(t: Topology, rows: Rows, lag: Lags, command: Command) {
    match command
    case AddCoordinator(c) => c in t.coordinators && (c.Name() !in rows || rows[c.Name()].boltServer == "")
    case RegisterInstance(i) => i in t.dataInstances && i.name !in rows
    case UpdateCoordinatorBoltServer(c) =>
      c in t.coordinators && c.Name() in rows && rows[c.Name()].boltServer !in {"", c.boltServer}
    case UpdateInstanceBoltServer(i) => i in t.dataInstances && i.name in rows && rows[i.name].boltServer !in {"", i.boltServer}
    case DemoteInstance(name) => RetiringMainIs(t, rows, name) && SomebodyMay(t, rows, lag)
    case SetInstanceToMain(candidates, restore) =>
      || (RetiringMainIs(t, rows, restore) && candidates != [] && AllWhoMay(t, rows, lag, candidates))
      || (restore == "" && (forall n :: n in rows ==> !rows[n].IsMain())
          && exists target :: candidates == [target] && FirstChoice(t, rows, target))
    case UnregisterInstance(name) =>
      && name in rows && (exists i :: i in t.retiringDataInstances && i.name == name)
      && (rows[name].IsMain() ==> SomebodyMay(t, rows, lag))
    case RemoveCoordinator(c) =>
      c in t.retiringCoordinators && c.Name() in rows && rows[c.Name()].boltServer != "" && !rows[c.Name()].IsLeader()
    case YieldLeadership(name) =>
      name in rows && rows[name].IsLeader() && exists c :: c in t.retiringCoordinators && c.Name() == name
  }

  lemma {:induction false} FirstReachableIs(ds: seq<DataInstanceSpec>, rows: Rows)
    requires exists i :: 0 <= i < |ds| && Reachable(rows, ds[i].name)
    ensures exists i :: 0 <= i < |ds| && ds[i].name == FirstReachable(ds, rows) && Reachable(rows, ds[i].name)
                        && forall j :: 0 <= j < i ==> !Reachable(rows, ds[j].name)
  {
    if !Reachable(rows, ds[0].name) {
      var i :| 0 <= i < |ds| && Reachable(rows, ds[i].name);
      assert ds[1..][i - 1] == ds[i];
      FirstReachableIs(ds[1..], rows);
      var k :| 0 <= k < |ds[1..]| && ds[1..][k].name == FirstReachable(ds[1..], rows) && Reachable(rows, ds[1..][k].name)
               && forall j :: 0 <= j < k ==> !Reachable(rows, ds[1..][j].name);
      forall j | 0 <= j < k + 1 ensures !Reachable(rows, ds[j].name) {
        assert j > 0 ==> ds[1..][j - 1] == ds[j];
      }
      assert ds[k + 1] == ds[1..][k];
    }
  }

  /** The target of a promotion out of nothing. */
  lemma TargetIsFirstChoice(t: Topology, rows: Rows)
    requires t.dataInstances != []
    ensures FirstChoice(t, rows, PromotionTarget(t.dataInstances, rows))
  {
    var ds := t.dataInstances;
    if exists i :: 0 <= i < |ds| && Reachable(rows, ds[i].name) {
      FirstReachableIs(ds, rows);
      var i :| 0 <= i < |ds| && ds[i].name == FirstReachable(ds, rows) && Reachable(rows, ds[i].name)
               && forall j :: 0 <= j < i ==> !Reachable(rows, ds[j].name);
      assert PromotionTarget(ds, rows) == ds[i].name;
      assert forall j :: 0 <= j < i ==> !Answers(rows, ds[j].name);
    } else {
      forall j | 0 <= j < |ds| ensures !Answers(rows, ds[j].name) {
        assert !Reachable(rows, ds[j].name);
      }
    }
  }

  lemma {:induction false} CandidatesMay(ds: seq<DataInstanceSpec>, rows: Rows, lag: Lags)
    ensures forall n :: n in HandoverCandidates(ds, rows, lag) <==>
              exists i :: 0 <= i < |ds| && ds[i].name == n && MayTakeOver(rows, lag, n)
  {
    if ds != [] {
      var shorter, last := ds[..|ds| - 1], ds[|ds| - 1];
      CandidatesMay(shorter, rows, lag);
      var before, names := HandoverCandidates(shorter, rows, lag), HandoverCandidates(ds, rows, lag);
      assert names == before + if MayTakeOver(rows, lag, last.name) then [last.name] else [];
      forall n ensures n in names <==> exists i :: 0 <= i < |ds| && ds[i].name == n && MayTakeOver(rows, lag, n) {
        if n in before {
          var i :| 0 <= i < |shorter| && shorter[i].name == n && MayTakeOver(rows, lag, n);
          assert ds[i] == shorter[i];
        }
        if i :| 0 <= i < |ds| && ds[i].name == n && MayTakeOver(rows, lag, n) {
          assert i < |shorter| ==> shorter[i] == ds[i];
        }
      }
    }
  }

  lemma {:induction false} CandidatesInOrder(ds: seq<DataInstanceSpec>, rows: Rows, lag: Lags)
    ensures InDeclaredOrder(ds, HandoverCandidates(ds, rows, lag))
  {
    if ds != [] {
      var shorter, last := ds[..|ds| - 1], ds[|ds| - 1];
      CandidatesInOrder(shorter, rows, lag);
      CandidatesMay(shorter, rows, lag);
      var before, names := HandoverCandidates(shorter, rows, lag), HandoverCandidates(ds, rows, lag);
      assert names == before + if MayTakeOver(rows, lag, last.name) then [last.name] else [];
      forall a, b | 0 <= a < b < |names| ensures DeclaredBefore(ds, names[a], names[b]) {
        if b < |before| {
          assert DeclaredBefore(shorter, before[a], before[b]);
          var i, j :| 0 <= i < j < |shorter| && shorter[i].name == before[a] && shorter[j].name == before[b];
          assert ds[i] == shorter[i] && ds[j] == shorter[j];
        } else {
          assert before[a] in before;
          var i :| 0 <= i < |shorter| && shorter[i].name == before[a] && MayTakeOver(rows, lag, before[a]);
          assert ds[i] == shorter[i] && ds[|ds| - 1] == last;
        }
      }
    }
  }

  lemma MembershipHeldExactly(t: Topology, rows: Rows, lag: Lags, s: Situation, c: Command)
    requires Reads(t, rows, lag, s) && IsMembership(c)
    ensures c in Jobs(t, s) && Needed(s, c) <==> Wanted(t, rows, lag, c)
  {
    JobsAre(t, s);
    if c in Jobs(t, s) {
      JobsAreOnly(t, s, c);
    }
  }

  lemma CandidatesAreWhoMay(t: Topology, rows: Rows, lag: Lags)
    ensures (exists n :: Candidate(t, rows, lag, n)) <==> SomebodyMay(t, rows, lag)
  {
    if n :| Candidate(t, rows, lag, n) {
      var i :| i in t.dataInstances && i.name == n;
      var k :| 0 <= k < |t.dataInstances| && t.dataInstances[k] == i;
      assert MayTakeOver(rows, lag, t.dataInstances[k].name);
    }
    if k :| 0 <= k < |t.dataInstances| && MayTakeOver(rows, lag, t.dataInstances[k].name) {
      assert t.dataInstances[k] in t.dataInstances;
      assert Candidate(t, rows, lag, t.dataInstances[k].name);
    }
  }

  lemma RetiringMainRead(t: Topology, rows: Rows, lag: Lags, s: Situation, name: string)
    requires ValidRows(t, rows) && Reads(t, rows, lag, s)
    ensures RetiringMainIs(t, rows, name) <==> name != "" && name == s.retiringMain
    ensures s.Handover() <==> s.retiringMain != "" && SomebodyMay(t, rows, lag)
  {
    CandidatesAreWhoMay(t, rows, lag);
    assert RetiringMainIs(t, rows, name) <==> IsMain(rows, name) && Retires(t, name);
    if s.retiringMain != "" {
      assert IsMain(rows, s.retiringMain);
    }
  }

  lemma DepartureHeldExactly(t: Topology, rows: Rows, lag: Lags, s: Situation, c: Command)
    requires ValidTopology(t) && ValidRows(t, rows) && Reads(t, rows, lag, s)
    requires c.UnregisterInstance? || c.RemoveCoordinator? || c.YieldLeadership?
    ensures c in Jobs(t, s) && Needed(s, c) <==> Wanted(t, rows, lag, c)
  {
    JobsAre(t, s);
    if c in Jobs(t, s) {
      JobsAreOnly(t, s, c);
    }
    match c
    case UnregisterInstance(name) =>
      RetiresIs(t, name);
      RetiringMainRead(t, rows, lag, s, name);
    case RemoveCoordinator(r) =>
      assert IsLeader(rows, r.Name()) <==> r.Name() == s.leader;
    case YieldLeadership(name) =>
      assert IsLeader(rows, name) <==> name == s.leader;
  }

  lemma DemotionHeldExactly(t: Topology, rows: Rows, lag: Lags, s: Situation, c: Command)
    requires ValidRows(t, rows) && Reads(t, rows, lag, s) && c.DemoteInstance?
    ensures c in Jobs(t, s) && Needed(s, c) <==> Wanted(t, rows, lag, c)
  {
    RetiringMainRead(t, rows, lag, s, c.name);
    if c in Jobs(t, s) {
      JobsAreOnly(t, s, c);
    }
    if s.retiringMain != "" {
      assert Promotions(t, s)[0] in Jobs(t, s);
    }
  }

  /** Somebody is to be made MAIN: by a handover, or out of nothing. */
  ghost predicate NeedsAMain(t: Topology, rows: Rows, lag: Lags) {
    || (forall n :: n in rows ==> !rows[n].IsMain())
    || ((exists main :: RetiringMainIs(t, rows, main)) && SomebodyMay(t, rows, lag))
  }

  lemma PromotionHeldExactly(t: Topology, rows: Rows, lag: Lags, s: Situation, c: Command)
    requires ValidTopology(t) && ValidRows(t, rows) && Reads(t, rows, lag, s) && c.SetInstanceToMain?
    requires s.retiringMain != "" ==> s.successors == HandoverCandidates(t.dataInstances, rows, lag)
    ensures c in Jobs(t, s) && Needed(s, c) ==> Wanted(t, rows, lag, c)
  {
    RetiringMainRead(t, rows, lag, s, c.restore);
    if c in Jobs(t, s) && Needed(s, c) {
      JobsAreOnly(t, s, c);
      if s.retiringMain != "" {
        CandidatesMay(t.dataInstances, rows, lag);
        CandidatesInOrder(t.dataInstances, rows, lag);
      } else {
        TargetIsFirstChoice(t, rows);
        forall n | n in rows ensures !rows[n].IsMain() {
          assert !IsMain(rows, n);
        }
      }
    }
  }

  lemma PromotionIsHeld(t: Topology, rows: Rows, lag: Lags, s: Situation)
    requires ValidTopology(t) && ValidRows(t, rows) && Reads(t, rows, lag, s)
    ensures (exists c: Command :: c in Jobs(t, s) && c.SetInstanceToMain? && Needed(s, c)) <==> NeedsAMain(t, rows, lag)
  {
    JobsAre(t, s);
    RetiringMainRead(t, rows, lag, s, s.retiringMain);
    if c: Command :| c in Jobs(t, s) && c.SetInstanceToMain? && Needed(s, c) {
      JobsAreOnly(t, s, c);
      forall n | n in rows && s.retiringMain == "" ensures !rows[n].IsMain() {
        assert !IsMain(rows, n);
      }
    }
    if NeedsAMain(t, rows, lag) {
      NeededPromotion(t, rows, lag, s);
    }
  }

  lemma NeededPromotion(t: Topology, rows: Rows, lag: Lags, s: Situation)
    requires ValidTopology(t) && ValidRows(t, rows) && Reads(t, rows, lag, s) && NeedsAMain(t, rows, lag)
    ensures var c := Promotions(t, s)[|Promotions(t, s)| - 1];
      c in Promotions(t, s) && c.SetInstanceToMain? && Needed(s, c)
  {
    if main :| RetiringMainIs(t, rows, main) {
      RetiringMainRead(t, rows, lag, s, main);
      assert IsMain(rows, main);
    } else {
      RetiringMainRead(t, rows, lag, s, s.retiringMain);
      assert forall n :: !IsMain(rows, n);
    }
  }

  /** A plan holds a command exactly when it is wanted; it holds a promotion exactly when a MAIN is
      needed, and then one that is wanted: of the first declared instance that answers, or of the first
      declared one when none does, with nobody to restore; or, in a handover, of all who may take over
      in declared order, with the retiring MAIN to restore. */
  lemma PlanHoldsExactly(t: Topology, view: seq<Instance>, lag: seq<ReplicationLag>, c: Command)
    requires ValidTopology(t) && UniqueNames(view) && ValidRows(t, Index(view))
    ensures c in PlanFor(t, view, lag) ==> Wanted(t, Index(view), IndexLag(lag), c)
    ensures !c.SetInstanceToMain? && Wanted(t, Index(view), IndexLag(lag), c) ==> c in PlanFor(t, view, lag)
    ensures (exists p: Command :: p in PlanFor(t, view, lag) && p.SetInstanceToMain?) <==> NeedsAMain(t, Index(view), IndexLag(lag))
  {
    var s, rows, lags := Situate(t, view, lag), Index(view), IndexLag(lag);
    SituationReads(t, view, lag);
    SelectHolds(s, Jobs(t, s));
    PromotionIsHeld(t, rows, lags, s);
    if c.SetInstanceToMain? {
      PromotionHeldExactly(t, rows, lags, s, c);
    } else if c.DemoteInstance? {
      DemotionHeldExactly(t, rows, lags, s, c);
    } else if IsMembership(c) {
      MembershipHeldExactly(t, rows, lags, s, c);
    } else {
      DepartureHeldExactly(t, rows, lags, s, c);
    }
  }

  /** This command promotes, and no other of the plan does. */
  ghost predicate PromotesOnly(plan: seq<Command>, c: Command) {
    exists k :: 0 <= k < |plan| && plan[k] == c && c.SetInstanceToMain?
      && forall j :: 0 <= j < |plan| && plan[j].SetInstanceToMain? ==> j == k
  }

  lemma OnlyPromotion(t: Topology, plan: seq<Command>, p: Command)
    requires Ordered(t, plan) && p in plan && p.SetInstanceToMain?
    ensures PromotesOnly(plan, p)
  {
    var k :| 0 <= k < |plan| && plan[k] == p;
    forall i, j | 0 <= i < j < |plan| ensures !plan[i].SetInstanceToMain? || !plan[j].SetInstanceToMain? {
      assert InOrder(t, plan[i], plan[j]);
    }
  }

  lemma OnePromotion(t: Topology, view: seq<Instance>, lag: seq<ReplicationLag>) returns (p: Command)
    requires ValidTopology(t) && UniqueNames(view) && ValidRows(t, Index(view))
    requires NeedsAMain(t, Index(view), IndexLag(lag))
    ensures PromotesOnly(PlanFor(t, view, lag), p) && Wanted(t, Index(view), IndexLag(lag), p)
  {
    PlanHoldsExactly(t, view, lag, DemoteInstance(""));
    p :| p in PlanFor(t, view, lag) && p.SetInstanceToMain?;
    PlanHoldsExactly(t, view, lag, p);
    PlanIsOrdered(t, view, lag);
    OnlyPromotion(t, PlanFor(t, view, lag), p);
  }

  lemma OutOfNothing(t: Topology, rows: Rows, lag: Lags, p: Command)
    requires p.SetInstanceToMain? && Wanted(t, rows, lag, p) && forall n :: n in rows ==> !rows[n].IsMain()
    ensures exists target :: p == SetInstanceToMain([target], "") && FirstChoice(t, rows, target)
  {
    assert !RetiringMainIs(t, rows, p.restore);
    var target :| p.candidates == [target] && FirstChoice(t, rows, target);
    assert p == SetInstanceToMain([target], "");
  }

  /** With no MAIN in the view the plan promotes, once, one instance: the first declared one that is up,
      or, when none is, the first declared one. */
  lemma PromotesTheFirstUp(t: Topology, view: seq<Instance>, lag: seq<ReplicationLag>)
    requires ValidTopology(t) && UniqueNames(view) && ValidRows(t, Index(view))
    requires forall n :: n in Index(view) ==> !Index(view)[n].IsMain()
    ensures exists target :: PromotesOnly(PlanFor(t, view, lag), SetInstanceToMain([target], "")) && FirstChoice(t, Index(view), target)
  {
    var p := OnePromotion(t, view, lag);
    OutOfNothing(t, Index(view), IndexLag(lag), p);
  }

  /* ---- In what order ---- */

  /** The kinds of command in the order they run in. */
  function Rank(c: Command): nat {
    match c
    case AddCoordinator(_) => 0
    case RegisterInstance(_) => 1
    case UpdateCoordinatorBoltServer(_) => 2
    case UpdateInstanceBoltServer(_) => 3
    case DemoteInstance(_) => 4
    case SetInstanceToMain(_, _) => 5
    case UnregisterInstance(_) => 6
    case RemoveCoordinator(_) => 7
    case YieldLeadership(_) => 8
  }

  ghost predicate Earlier<T(!new)>(list: seq<T>, a: T, b: T) { exists i, j :: 0 <= i < j < |list| && list[i] == a && list[j] == b }

  /** An earlier kind, or of the same kind and about a member declared earlier. */
  ghost predicate InOrder(t: Topology, c: Command, d: Command) {
    || Rank(c) < Rank(d)
    || match (c, d)
       case (AddCoordinator(a), AddCoordinator(b)) => Earlier(t.coordinators, a, b)
       case (RegisterInstance(a), RegisterInstance(b)) => Earlier(t.dataInstances, a, b)
       case (UpdateCoordinatorBoltServer(a), UpdateCoordinatorBoltServer(b)) => Earlier(t.coordinators, a, b)
       case (UpdateInstanceBoltServer(a), UpdateInstanceBoltServer(b)) => Earlier(t.dataInstances, a, b)
       case (UnregisterInstance(a), UnregisterInstance(b)) => DeclaredBefore(t.retiringDataInstances, a, b)
       case (RemoveCoordinator(a), RemoveCoordinator(b)) => Earlier(t.retiringCoordinators, a, b)
       case _ => false
  }

  ghost predicate Ordered(t: Topology, commands: seq<Command>) {
    forall i, j :: 0 <= i < j < |commands| ==> InOrder(t, commands[i], commands[j])
  }

  ghost predicate RanksWithin(commands: seq<Command>, low: nat, high: nat) {
    forall i :: 0 <= i < |commands| ==> low <= Rank(commands[i]) < high
  }

  lemma OrderedConcat(t: Topology, a: seq<Command>, b: seq<Command>, low: nat, middle: nat, high: nat)
    requires low <= middle <= high
    requires Ordered(t, a) && Ordered(t, b) && RanksWithin(a, low, middle) && RanksWithin(b, middle, high)
    ensures Ordered(t, a + b) && RanksWithin(a + b, low, high)
  {
    forall i, j | 0 <= i < j < |a + b| ensures InOrder(t, (a + b)[i], (a + b)[j]) {
      if i < |a| && |a| <= j {
        assert Rank(a[i]) < Rank(b[j - |a|]);
      }
    }
  }

  lemma MembershipsOrdered(t: Topology)
    ensures Ordered(t, Memberships(t)) && RanksWithin(Memberships(t), 0, 4)
  {
    var a, r, u, v := Adds(t.coordinators), Registers(t.dataInstances),
        CoordinatorUpdates(t.coordinators), InstanceUpdates(t.dataInstances);
    OrderedConcat(t, a, r, 0, 1, 2);
    OrderedConcat(t, a + r, u, 0, 2, 3);
    OrderedConcat(t, a + r + u, v, 0, 3, 4);
  }

  lemma DeparturesOrdered(t: Topology, s: Situation)
    ensures Ordered(t, Departures(t, s)) && RanksWithin(Departures(t, s), 6, 9)
  {
    var u, r, y := Unregisters(t.retiringDataInstances), Removes(t.retiringCoordinators), Yields(t.retiringCoordinators, s.leader);
    forall i, j | 0 <= i < j < |u| ensures InOrder(t, u[i], u[j]) {
      assert t.retiringDataInstances[i].name == u[i].name && t.retiringDataInstances[j].name == u[j].name;
    }
    OrderedConcat(t, u, r, 6, 7, 8);
    OrderedConcat(t, u + r, y, 6, 8, 9);
  }

  lemma JobsOrdered(t: Topology, s: Situation)
    ensures Ordered(t, Jobs(t, s))
  {
    MembershipsOrdered(t);
    DeparturesOrdered(t, s);
    OrderedConcat(t, Memberships(t), Promotions(t, s), 0, 4, 6);
    OrderedConcat(t, Memberships(t) + Promotions(t, s), Departures(t, s), 0, 6, 9);
  }

  lemma {:induction false} SelectKeepsOrdered(t: Topology, s: Situation, jobs: seq<Command>)
    requires Ordered(t, jobs)
    ensures Ordered(t, Select(s, jobs))
  {
    if jobs != [] {
      var shorter, last := jobs[..|jobs| - 1], jobs[|jobs| - 1];
      SelectKeepsOrdered(t, s, shorter);
      SelectHolds(s, shorter);
      var kept := Select(s, shorter);
      forall i | 0 <= i < |kept| ensures InOrder(t, kept[i], last) {
        assert kept[i] in shorter;
        var k :| 0 <= k < |shorter| && shorter[k] == kept[i];
        assert InOrder(t, jobs[k], jobs[|jobs| - 1]);
      }
    }
  }

  /** A plan adds, registers, re-announces, demotes, promotes, unregisters, removes and yields, in that
      order, each kind in declared order; and demotes, promotes and yields once at most. */
  lemma PlanIsOrdered(t: Topology, view: seq<Instance>, lag: seq<ReplicationLag>)
    ensures Ordered(t, PlanFor(t, view, lag))
  {
    var s := Situate(t, view, lag);
    JobsOrdered(t, s);
    SelectKeepsOrdered(t, s, Jobs(t, s));
  }

  /* ---- When a retirement is over ---- */

  /** No retiring instance has a row, and no retiring coordinator one with an address. */
  lemma RetiredExactly(t: Topology, view: seq<Instance>)
    ensures Retired(t, view) <==>
              && (forall k :: 0 <= k < |t.retiringDataInstances| ==> t.retiringDataInstances[k].name !in Index(view))
              && (forall k :: 0 <= k < |t.retiringCoordinators| && t.retiringCoordinators[k].Name() in Index(view) ==>
                    Index(view)[t.retiringCoordinators[k].Name()].boltServer == "")
  {
    var ds, cs := t.retiringDataInstances, t.retiringCoordinators;
    forall i | i in ds ensures exists k :: 0 <= k < |ds| && ds[k] == i {}
    forall c | c in cs ensures exists k :: 0 <= k < |cs| && cs[k] == c {}
    forall k | 0 <= k < |ds| ensures ds[k] in ds {}
    forall k | 0 <= k < |cs| ensures cs[k] in cs {}
  }
}
