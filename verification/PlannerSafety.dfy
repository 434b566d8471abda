/** A plan, run in order and stopped at the first error, is safe whatever the cluster refuses and
    whatever answers are lost on the way back. Nothing else touches the cluster meanwhile. */
module PlannerSafety {
  import opened Text
  import opened Memgraph
  import opened Planner
  import opened Resources
  import opened Cluster
  import opened PlannerMeaning

  /** A call that Memgraph would have to refuse to stay sound is never even issued. */
  ghost predicate Safe(issued: Issued) {
    && AtMostOneMain(issued.before)
    && (issued.call.Unregister? ==> !IsMain(issued.before, issued.call.name))
    && (issued.call.Remove? ==> !IsLeader(issued.before, issued.call.coordinator.Name()))
  }

  ghost predicate SafeLog(log: seq<Issued>) { forall k :: 0 <= k < |log| ==> Safe(log[k]) }

  /** A promotion is issued while there is a MAIN only when an earlier one took effect without
      saying so. */
  ghost predicate PromotesMainless(log: seq<Issued>) {
    forall k :: 0 <= k < |log| && log[k].call.Promote? && HasMain(log[k].before) ==> LostPromotion(log[..k])
  }

  ghost predicate LostPromotion(log: seq<Issued>) {
    exists k :: 0 <= k < |log| && log[k].call.Promote? && log[k].landed && !log[k].acknowledged
  }

  ghost predicate Quiet(log: seq<Issued>) {
    forall k :: 0 <= k < |log| ==> !log[k].call.Promote? && !log[k].call.Demote?
  }

  ghost predicate PromotionLanded(log: seq<Issued>) {
    exists k :: 0 <= k < |log| && log[k].call.Promote? && log[k].landed
  }

  ghost predicate DemotionLanded(log: seq<Issued>) {
    exists k :: 0 <= k < |log| && log[k].call.Demote? && log[k].landed
  }

  ghost predicate SameMains(rows: Rows, rows': Rows) { forall n :: IsMain(rows, n) <==> IsMain(rows', n) }
  ghost predicate SameLeaders(rows: Rows, rows': Rows) { forall n :: IsLeader(rows, n) <==> IsLeader(rows', n) }

  lemma SameMainsHave(rows: Rows, rows': Rows)
    requires SameMains(rows, rows')
    ensures HasMain(rows) <==> HasMain(rows')
  {
    if n :| n in rows && IsMain(rows, n) { assert IsMain(rows', n); }
    if n :| n in rows' && IsMain(rows', n) { assert IsMain(rows, n); }
  }

  lemma QuietConcat(a: seq<Issued>, b: seq<Issued>, c: seq<Issued>)
    requires Quiet(a) && Quiet(c) && PromotesMainless(b)
    ensures PromotesMainless(a + b + c)
    ensures PromotionLanded(a + b + c) <==> PromotionLanded(b)
    ensures DemotionLanded(a + b + c) <==> DemotionLanded(b)
  {
    var log := a + b + c;
    forall k | 0 <= k < |log| && log[k].call.Promote? && HasMain(log[k].before) ensures LostPromotion(log[..k]) {
      assert log[k] == b[k - |a|];
      var j :| 0 <= j < k - |a| && b[j].call.Promote? && b[j].landed && !b[j].acknowledged;
      assert log[..k][|a| + j] == b[j];
    }
    forall k | 0 <= k < |b| ensures log[|a| + k] == b[k] {}
  }

  /* ---- Registrations and address updates move no role ---- */

  predicate IsMembership(c: Command) {
    c.AddCoordinator? || c.RegisterInstance? || c.UpdateCoordinatorBoltServer? || c.UpdateInstanceBoltServer?
  }

  lemma MembershipRun(env: Environment, rows: Rows, clock: nat, c: Command)
    requires IsMembership(c) && AtMostOneMain(rows)
    ensures var e := Run(env, rows, clock, c);
      SameMains(rows, e.rows) && SameLeaders(rows, e.rows) && SafeLog(e.log) && Quiet(e.log)
  {
    var e := Run(env, rows, clock, c);
    forall n ensures IsMain(rows, n) <==> IsMain(e.rows, n) {}
    forall n ensures IsLeader(rows, n) <==> IsLeader(e.rows, n) {}
  }

  lemma {:induction false} MembershipRuns(env: Environment, rows: Rows, clock: nat, commands: seq<Command>)
    requires AtMostOneMain(rows) && forall c :: c in commands ==> IsMembership(c)
    ensures var e := RunAll(env, rows, clock, commands);
      SameMains(rows, e.rows) && SameLeaders(rows, e.rows) && SafeLog(e.log) && Quiet(e.log)
    decreases |commands|
  {
    if commands != [] {
      MembershipRun(env, rows, clock, commands[0]);
      var first := Run(env, rows, clock, commands[0]);
      if first.ok {
        MembershipRuns(env, first.rows, first.clock, commands[1..]);
      }
    }
  }

  /* ---- The promotion ---- */

  /** What a chain of promotions leaves, and what it issued on the way. */
  ghost predicate PromotionChain(rows: Rows, names: seq<string>, e: Execution) {
    && AtMostOneMain(e.rows) && SameLeaders(rows, e.rows) && SafeLog(e.log)
    && |e.log| <= |names| && (forall k :: 0 <= k < |e.log| ==> e.log[k].call == Promote(names[k]))
    && (HasMain(rows) ==> e.rows == rows && !e.ok && !PromotionLanded(e.log))
    && (HasMain(e.rows) <==> HasMain(rows) || PromotionLanded(e.log))
    && (!HasMain(rows) ==> PromotesMainless(e.log))
    && (e.ok ==> exists n :: n in names && IsMain(e.rows, n))
    && (forall n :: IsMain(e.rows, n) ==> IsMain(rows, n) || n in names)
    && (!e.ok ==> |e.log| == |names|)
  }

  lemma {:induction false} TryPromotionsChain(env: Environment, rows: Rows, clock: nat, names: seq<string>)
    requires AtMostOneMain(rows) && forall n :: n in names ==> !IsLeader(rows, n)
    ensures PromotionChain(rows, names, TryPromotions(env, rows, clock, names))
    decreases |names|
  {
    if names != [] {
      var first := Issue(env, rows, clock, Promote(names[0]));
      PromoteIssued(env, rows, clock, names[0]);
      if first.ok {
        assert names[0] in names && IsMain(first.rows, names[0]);
      } else {
        TryPromotionsChain(env, first.rows, first.clock, names[1..]);
        var rest := TryPromotions(env, first.rows, first.clock, names[1..]);
        ChainStep(rows, names, first, rest);
      }
    }
  }

  lemma PromoteIssued(env: Environment, rows: Rows, clock: nat, name: string)
    requires AtMostOneMain(rows) && !IsLeader(rows, name)
    ensures var e := Issue(env, rows, clock, Promote(name));
      && AtMostOneMain(e.rows) && SameLeaders(rows, e.rows)
      && |e.log| == 1 && e.log[0].call == Promote(name) && e.log[0].before == rows && Safe(e.log[0])
      && e.ok == e.log[0].acknowledged && (e.ok ==> e.log[0].landed)
      && (HasMain(rows) ==> e.rows == rows && !e.ok && !e.log[0].landed)
      && (forall n :: IsMain(e.rows, n) ==> IsMain(rows, n) || n == name)
      && (e.log[0].landed ==> IsMain(e.rows, name) && HasMain(e.rows))
      && (!e.log[0].landed ==> e.rows == rows)
  {
    var e := Issue(env, rows, clock, Promote(name));
    if e.log[0].landed {
      assert IsMain(e.rows, name);
    }
  }

  lemma ChainStep(rows: Rows, names: seq<string>, first: Execution, rest: Execution)
    requires names != [] && |first.log| == 1 && AtMostOneMain(rows)
    requires first.log[0].call == Promote(names[0]) && first.log[0].before == rows && Safe(first.log[0])
    requires !first.ok && !first.log[0].acknowledged && SameLeaders(rows, first.rows)
    requires HasMain(rows) ==> first.rows == rows && !first.log[0].landed
    requires first.log[0].landed ==> HasMain(first.rows)
    requires !first.log[0].landed ==> first.rows == rows
    requires forall n :: IsMain(first.rows, n) ==> IsMain(rows, n) || n == names[0]
    requires PromotionChain(first.rows, names[1..], rest)
    ensures PromotionChain(rows, names, Execution(rest.rows, rest.clock, rest.ok, first.log + rest.log))
  {
    var log := first.log + rest.log;
    assert forall k :: 1 <= k < |log| ==> log[k] == rest.log[k - 1];
    if PromotionLanded(log) && !first.log[0].landed {
      var k :| 0 <= k < |log| && log[k].call.Promote? && log[k].landed;
      assert rest.log[k - 1].landed;
    }
    if PromotionLanded(rest.log) {
      var k :| 0 <= k < |rest.log| && rest.log[k].call.Promote? && rest.log[k].landed;
      assert log[k + 1].landed;
    }
    if first.log[0].landed {
      assert log[0].landed;
    }
    if !HasMain(rows) {
      forall k | 0 <= k < |log| && log[k].call.Promote? && HasMain(log[k].before) ensures LostPromotion(log[..k]) {
        if first.log[0].landed {
          assert log[..k][0] == first.log[0];
        } else {
          var j :| 0 <= j < k - 1 && rest.log[j].call.Promote? && rest.log[j].landed && !rest.log[j].acknowledged;
          assert log[..k][j + 1] == rest.log[j];
        }
      }
    }
    if rest.ok {
      var n :| n in names[1..] && IsMain(rest.rows, n);
      assert n in names;
    }
  }

  /** Falling back to the demoted MAIN is one more promotion in the same chain. */
  lemma {:induction false} RestoreIsLastInChain(env: Environment, rows: Rows, clock: nat, candidates: seq<string>, restore: string)
    ensures var tried, all := TryPromotions(env, rows, clock, candidates), TryPromotions(env, rows, clock, candidates + [restore]);
      if tried.ok then all == tried
      else
        var restored := Issue(env, tried.rows, tried.clock, Promote(restore));
        all.rows == restored.rows && all.log == tried.log + restored.log
    decreases |candidates|
  {
    if candidates == [] {
      assert candidates + [restore] == [restore];
      var first := Issue(env, rows, clock, Promote(restore));
      assert TryPromotions(env, first.rows, first.clock, [restore][1..]).log == [];
      assert first.log + [] == first.log && [] + first.log == first.log;
    } else {
      assert (candidates + [restore])[1..] == candidates[1..] + [restore];
      var first := Issue(env, rows, clock, Promote(candidates[0]));
      if !first.ok {
        RestoreIsLastInChain(env, first.rows, first.clock, candidates[1..], restore);
        var tried := TryPromotions(env, first.rows, first.clock, candidates[1..]);
        if !tried.ok {
          var restored := Issue(env, tried.rows, tried.clock, Promote(restore));
          assert first.log + (tried.log + restored.log) == (first.log + tried.log) + restored.log;
        }
      }
    }
  }

  ghost predicate Outcomes(rows: Rows, candidates: seq<string>, targets: seq<string>, e: Execution) {
    && AtMostOneMain(e.rows) && SameLeaders(rows, e.rows) && SafeLog(e.log) && PromotesMainless(e.log)
    && |e.log| <= |targets| && (forall k :: 0 <= k < |e.log| ==> e.log[k].call == Promote(targets[k]))
    && (HasMain(e.rows) <==> PromotionLanded(e.log))
    && (e.ok ==> exists n :: n in candidates && IsMain(e.rows, n))
    && (forall n :: IsMain(e.rows, n) ==> n in targets)
    && (!HasMain(e.rows) ==> |e.log| == |targets|)
  }

  lemma PromotionRuns(env: Environment, rows: Rows, clock: nat, candidates: seq<string>, restore: string)
    requires !HasMain(rows) && forall n :: n in candidates || (restore != "" && n == restore) ==> !IsLeader(rows, n)
    ensures Outcomes(rows, candidates, if restore == "" then candidates else candidates + [restore],
              RunPromotion(env, rows, clock, candidates, restore))
  {
    TryPromotionsChain(env, rows, clock, candidates);
    var tried, e := TryPromotions(env, rows, clock, candidates), RunPromotion(env, rows, clock, candidates, restore);
    if restore == "" || tried.ok {
      ChainOutcomes(rows, candidates, candidates, e);
      if restore != "" {
        MoreTargets(rows, candidates, candidates, restore, e);
      }
    } else {
      TryPromotionsChain(env, rows, clock, candidates + [restore]);
      RestoreIsLastInChain(env, rows, clock, candidates, restore);
      var all := TryPromotions(env, rows, clock, candidates + [restore]);
      ChainOutcomes(rows, candidates + [restore], candidates + [restore], all);
    }
  }

  lemma ChainOutcomes(rows: Rows, candidates: seq<string>, targets: seq<string>, e: Execution)
    requires !HasMain(rows) && PromotionChain(rows, targets, e) && candidates == targets
    ensures Outcomes(rows, candidates, targets, e)
  {
    if e.ok {
      var n :| n in targets && IsMain(e.rows, n);
      assert HasMain(e.rows);
    }
    forall n | IsMain(e.rows, n) ensures n in targets {
      assert !IsMain(rows, n);
    }
  }

  lemma MoreTargets(rows: Rows, candidates: seq<string>, targets: seq<string>, restore: string, e: Execution)
    requires Outcomes(rows, candidates, targets, e) && e.ok
    ensures Outcomes(rows, candidates, targets + [restore], e)
  {
    var n :| n in candidates && IsMain(e.rows, n);
    assert HasMain(e.rows);
    assert forall k :: 0 <= k < |e.log| ==> e.log[k].call == Promote(targets[k]);
  }

  /* ---- The handover and the bootstrap ---- */

  /** What running the promotion part of a plan leaves. */
  ghost predicate Handed(t: Topology, rows: Rows, s: Situation, e: Execution) {
    && AtMostOneMain(e.rows) && SameLeaders(rows, e.rows) && SafeLog(e.log) && PromotesMainless(e.log)
    && (HasMain(rows) ==> (!HasMain(e.rows) <==> DemotionLanded(e.log) && !PromotionLanded(e.log)))
    && (e.ok ==> forall n :: IsMain(e.rows, n) && Retires(t, n) ==> n == s.retiringMain && !s.Handover())
    && (HasMain(rows) && !HasMain(e.rows) ==> StrandedAfterTryingAll(s, e.log))
    && (forall n :: IsMain(e.rows, n) ==> IsMain(rows, n) || Names(t.dataInstances, n))
    && (s.Handover() ==> forall n :: IsMain(e.rows, n) ==> n in s.successors || n == s.retiringMain)
  }

  /** A cluster is left without a MAIN only by a handover: nothing after the demotion, because its
      own answer was lost, or every candidate and the demoted MAIN tried, none of them taking. */
  ghost predicate StrandedAfterTryingAll(s: Situation, log: seq<Issued>) {
    && s.Handover() && |log| > 0 && log[0].call == Demote(s.retiringMain) && log[0].landed
    && (log[0].acknowledged ==>
          |log| == 1 + |s.successors| + 1
          && (forall k :: 0 <= k < |s.successors| ==> log[1 + k].call == Promote(s.successors[k]) && !log[1 + k].landed)
          && log[|log| - 1].call == Promote(s.retiringMain) && !log[|log| - 1].landed)
  }

  lemma DeclaredNeverRetires(t: Topology, name: string)
    requires ValidTopology(t) && Names(t.dataInstances, name)
    ensures !Retires(t, name)
  {
    var ds, all := t.dataInstances, AllInstances(t);
    var i :| i in ds && i.name == name;
    var k :| 0 <= k < |ds| && ds[k] == i;
    forall j | 0 <= j < |t.retiringDataInstances| ensures t.retiringDataInstances[j].name != name {
      assert all[k] == ds[k] && all[|ds| + j] == t.retiringDataInstances[j];
    }
  }

  lemma DemotionIssued(env: Environment, rows: Rows, clock: nat, name: string)
    requires IsMain(rows, name) && AtMostOneMain(rows)
    ensures var e := Issue(env, rows, clock, Demote(name));
      && |e.log| == 1 && e.log[0].call == Demote(name) && e.log[0].before == rows && e.ok == e.log[0].acknowledged
      && SameLeaders(rows, e.rows) && AtMostOneMain(e.rows)
      && (e.ok ==> e.log[0].landed)
      && (e.log[0].landed <==> !HasMain(e.rows)) && (!e.log[0].landed ==> e.rows == rows)
  {
    var e := Issue(env, rows, clock, Demote(name));
    if e.log[0].landed {
      forall n ensures !IsMain(e.rows, n) {
        assert n != name ==> !IsMain(rows, n);
        assert e.rows[name].role == "replica";
      }
      forall n ensures IsLeader(rows, n) <==> IsLeader(e.rows, n) {}
    } else {
      assert HasMain(e.rows);
    }
  }

  lemma HandoverRuns(t: Topology, env: Environment, rows: Rows, clock: nat, s: Situation)
    requires ValidTopology(t) && AtMostOneMain(rows) && s.Handover() && IsMain(rows, s.retiringMain)
    requires !IsLeader(rows, s.retiringMain)
    requires forall n :: n in s.successors ==> !IsLeader(rows, n) && !Retires(t, n) && Names(t.dataInstances, n)
    ensures var commands := [DemoteInstance(s.retiringMain), SetInstanceToMain(s.successors, s.retiringMain)];
      Handed(t, rows, s, RunAll(env, rows, clock, commands))
  {
    var commands := [DemoteInstance(s.retiringMain), SetInstanceToMain(s.successors, s.retiringMain)];
    var demoted := Issue(env, rows, clock, Demote(s.retiringMain));
    DemotionIssued(env, rows, clock, s.retiringMain);
    assert HasMain(rows);
    if demoted.ok {
      PromotionRuns(env, demoted.rows, demoted.clock, s.successors, s.retiringMain);
      var promoted := RunPromotion(env, demoted.rows, demoted.clock, s.successors, s.retiringMain);
      assert commands[1..] == [SetInstanceToMain(s.successors, s.retiringMain)];
      var last := RunAll(env, promoted.rows, promoted.clock, commands[1..][1..]);
      var tail := RunAll(env, demoted.rows, demoted.clock, commands[1..]);
      assert promoted.log + last.log == promoted.log;
      assert tail == Execution(promoted.rows, promoted.clock, promoted.ok, promoted.log);
      HandoverLog(s, demoted, promoted);
      var e := RunAll(env, rows, clock, commands);
      assert e == Execution(promoted.rows, promoted.clock, promoted.ok, demoted.log + promoted.log);
    }
  }

  lemma HandoverLog(s: Situation, demoted: Execution, promoted: Execution)
    requires |demoted.log| == 1 && demoted.log[0].call == Demote(s.retiringMain)
    requires demoted.log[0].landed && demoted.log[0].acknowledged && Safe(demoted.log[0]) && s.Handover()
    requires Outcomes(demoted.rows, s.successors, s.successors + [s.retiringMain], promoted)
    ensures var log := demoted.log + promoted.log;
      && SafeLog(log) && PromotesMainless(log) && DemotionLanded(log)
      && (PromotionLanded(log) <==> PromotionLanded(promoted.log))
      && (!HasMain(promoted.rows) ==> StrandedAfterTryingAll(s, log))
  {
    var log := demoted.log + promoted.log;
    assert log[0] == demoted.log[0];
    forall k | 1 <= k < |log| ensures log[k] == promoted.log[k - 1] {}
    forall k | 0 <= k < |promoted.log| ensures promoted.log[k] == log[k + 1] {}
    forall k | 0 <= k < |log| && log[k].call.Promote? && HasMain(log[k].before) ensures LostPromotion(log[..k]) {
      var j :| 0 <= j < k - 1 && promoted.log[..k - 1][j].call.Promote? && promoted.log[..k - 1][j].landed
               && !promoted.log[..k - 1][j].acknowledged;
      assert log[..k][j + 1] == promoted.log[j];
    }
    if !HasMain(promoted.rows) {
      assert !PromotionLanded(promoted.log);
      var targets := s.successors + [s.retiringMain];
      forall k | 0 <= k < |targets| ensures log[1 + k].call == Promote(targets[k]) && !log[1 + k].landed {
        assert promoted.log[k].call == Promote(targets[k]) && !promoted.log[k].landed;
      }
      assert log[|log| - 1] == log[1 + |s.successors|] && targets[|s.successors|] == s.retiringMain;
    }
  }

  lemma {:induction false} TargetIsDeclared(ds: seq<DataInstanceSpec>, rows: Rows)
    requires ds != []
    ensures Names(ds, PromotionTarget(ds, rows))
  {
    if exists i :: 0 <= i < |ds| && Reachable(rows, ds[i].name) {
      FirstReachableIsDeclared(ds, rows);
    } else {
      assert ds[0] in ds;
    }
  }

  lemma {:induction false} FirstReachableIsDeclared(ds: seq<DataInstanceSpec>, rows: Rows)
    requires exists i :: 0 <= i < |ds| && Reachable(rows, ds[i].name)
    ensures Names(ds, FirstReachable(ds, rows))
  {
    if Reachable(rows, ds[0].name) {
      assert ds[0] in ds;
    } else {
      var i :| 0 <= i < |ds| && Reachable(rows, ds[i].name);
      assert ds[1..][i - 1] == ds[i];
      FirstReachableIsDeclared(ds[1..], rows);
      var d :| d in ds[1..] && d.name == FirstReachable(ds[1..], rows);
      assert d in ds;
    }
  }

  lemma BootstrapRuns(t: Topology, env: Environment, rows: Rows, clock: nat, s: Situation, target: string)
    requires ValidTopology(t) && !HasMain(rows) && Names(t.dataInstances, target) && !IsLeader(rows, target)
    requires !s.Handover()
    ensures Handed(t, rows, s, RunAll(env, rows, clock, [SetInstanceToMain([target], "")]))
  {
    PromotionRuns(env, rows, clock, [target], "");
    DeclaredNeverRetires(t, target);
    var promoted := RunPromotion(env, rows, clock, [target], "");
    var rest := RunAll(env, promoted.rows, promoted.clock, []);
    assert promoted.log + rest.log == promoted.log;
    assert RunAll(env, rows, clock, [SetInstanceToMain([target], "")])
        == Execution(promoted.rows, promoted.clock, promoted.ok, promoted.log);
  }

  lemma InstancesNeverLead(t: Topology, observed: Rows, rows: Rows, name: string)
    requires ValidRows(t, observed) && SameLeaders(observed, rows)
    requires Names(t.dataInstances, name) || Retires(t, name)
    ensures !IsLeader(rows, name)
  {
    RetiresIs(t, name);
    if Names(t.dataInstances, name) {
      var i :| i in t.dataInstances && i.name == name;
      assert i in AllInstances(t);
    } else {
      var i :| i in t.retiringDataInstances && i.name == name;
      assert i in AllInstances(t);
    }
  }

  /** The promotion part of any plan, run on the cluster the plan was made for. */
  lemma PromotionsRun(t: Topology, observed: Rows, lag: map<string, ReplicationLag>, s: Situation,
                      env: Environment, rows: Rows, clock: nat)
    requires ValidTopology(t) && ValidRows(t, observed) && Reads(t, observed, lag, s)
    requires SameMains(observed, rows) && SameLeaders(observed, rows) && AtMostOneMain(rows)
    ensures Handed(t, rows, s, RunAll(env, rows, clock, Select(s, Promotions(t, s))))
  {
    PromotionsSelected(t, s);
    SameMainsHave(observed, rows);
    if s.Handover() {
      assert !s.stayingMain;
      assert IsMain(observed, s.retiringMain);
      InstancesNeverLead(t, observed, rows, s.retiringMain);
      forall n | n in s.successors ensures !IsLeader(rows, n) && !Retires(t, n) && Names(t.dataInstances, n) {
        assert Candidate(t, observed, lag, n);
        InstancesNeverLead(t, observed, rows, n);
        DeclaredNeverRetires(t, n);
      }
      HandoverRuns(t, env, rows, clock, s);
      assert Select(s, Promotions(t, s)) ==
             [DemoteInstance(s.retiringMain), SetInstanceToMain(s.successors, s.retiringMain)];
    } else if s.retiringMain == "" && !s.stayingMain {
      var target := PromotionTarget(t.dataInstances, s.rows);
      TargetIsDeclared(t.dataInstances, s.rows);
      InstancesNeverLead(t, observed, rows, target);
      assert forall n :: n in observed && IsMain(observed, n) ==> !Retires(t, n);
      BootstrapRuns(t, env, rows, clock, s, target);
      assert Select(s, Promotions(t, s)) == [SetInstanceToMain([target], "")];
    } else {
      assert Select(s, Promotions(t, s)) == [];
      forall n | IsMain(rows, n) && Retires(t, n) ensures n == s.retiringMain {
        assert IsMain(observed, n);
      }
    }
  }

  /* ---- The departures ---- */

  ghost predicate Departs(rows: Rows, c: Command) {
    || (c.UnregisterInstance? && !IsMain(rows, c.name) && !IsLeader(rows, c.name))
    || (c.RemoveCoordinator? && !IsMain(rows, c.coordinator.Name()) && !IsLeader(rows, c.coordinator.Name()))
  }

  lemma {:induction false} DeparturesRun(env: Environment, rows: Rows, clock: nat, commands: seq<Command>)
    requires AtMostOneMain(rows) && forall c :: c in commands ==> Departs(rows, c)
    ensures var e := RunAll(env, rows, clock, commands);
      SameMains(rows, e.rows) && SameLeaders(rows, e.rows) && SafeLog(e.log) && Quiet(e.log)
    decreases |commands|
  {
    if commands != [] {
      var first := Run(env, rows, clock, commands[0]);
      assert Departs(rows, commands[0]);
      forall n ensures IsMain(rows, n) <==> IsMain(first.rows, n) {}
      forall n ensures IsLeader(rows, n) <==> IsLeader(first.rows, n) {}
      if first.ok {
        forall c | c in commands[1..] ensures Departs(first.rows, c) {
          assert Departs(rows, c);
        }
        DeparturesRun(env, first.rows, first.clock, commands[1..]);
      }
    }
  }

  lemma YieldRuns(env: Environment, rows: Rows, clock: nat, leader: string)
    requires AtMostOneMain(rows)
    ensures var e := RunAll(env, rows, clock, [YieldLeadership(leader)]);
      SameMains(rows, e.rows) && SafeLog(e.log) && Quiet(e.log)
  {
    var e := Issue(env, rows, clock, Yield);
    var rest := RunAll(env, e.rows, e.clock, []);
    assert e.log + rest.log == e.log;
    forall n ensures IsMain(rows, n) <==> IsMain(e.rows, n) {}
  }

  /** The departing part of any plan, run once the promotion part succeeded. */
  lemma AllDeparturesRun(t: Topology, observed: Rows, lag: map<string, ReplicationLag>, s: Situation,
                         env: Environment, rows: Rows, clock: nat)
    requires ValidTopology(t) && ValidRows(t, observed) && Reads(t, observed, lag, s)
    requires SameLeaders(observed, rows) && AtMostOneMain(rows)
    requires forall n :: IsMain(rows, n) && Retires(t, n) ==> n == s.retiringMain && !s.Handover()
    requires forall c :: c in t.retiringCoordinators ==> !IsMain(rows, c.Name())
    ensures var e := RunAll(env, rows, clock, Select(s, Departures(t, s)));
      SameMains(rows, e.rows) && SafeLog(e.log) && Quiet(e.log)
  {
    var leaving := Select(s, Unregisters(t.retiringDataInstances)) + Select(s, Removes(t.retiringCoordinators));
    DeparturesDepart(t, observed, lag, s, rows);
    DeparturesSplit(t, s);
    DeparturesRun(env, rows, clock, leaving);
    var left := RunAll(env, rows, clock, leaving);
    var last := Yields(t.retiringCoordinators, s.leader);
    RunAllConcat(env, rows, clock, leaving, last);
    if left.ok && last != [] {
      YieldRuns(env, left.rows, left.clock, s.leader);
    }
  }

  lemma DeparturesDepart(t: Topology, observed: Rows, lag: map<string, ReplicationLag>, s: Situation, rows: Rows)
    requires ValidRows(t, observed) && Reads(t, observed, lag, s) && SameLeaders(observed, rows)
    requires forall n :: IsMain(rows, n) && Retires(t, n) ==> n == s.retiringMain && !s.Handover()
    requires forall c :: c in t.retiringCoordinators ==> !IsMain(rows, c.Name())
    ensures forall c :: c in Select(s, Unregisters(t.retiringDataInstances)) + Select(s, Removes(t.retiringCoordinators)) ==>
              Departs(rows, c)
  {
    SelectHolds(s, Unregisters(t.retiringDataInstances));
    SelectHolds(s, Removes(t.retiringCoordinators));
    forall c | c in Select(s, Unregisters(t.retiringDataInstances)) ensures Departs(rows, c) {
      var k :| 0 <= k < |t.retiringDataInstances| && t.retiringDataInstances[k].name == c.name;
      InstancesNeverLead(t, observed, rows, c.name);
    }
    forall c | c in Select(s, Removes(t.retiringCoordinators)) ensures Departs(rows, c) {
      assert c.RemoveCoordinator? && c.coordinator in t.retiringCoordinators;
      assert IsLeader(observed, s.leader);
    }
  }

  /* ---- The whole plan ---- */

  lemma CoordinatorsNeverMain(t: Topology, observed: Rows, rows: Rows)
    requires ValidTopology(t) && ValidRows(t, observed)
    requires forall n :: IsMain(rows, n) ==> IsMain(observed, n) || Names(t.dataInstances, n)
    ensures forall c :: c in t.retiringCoordinators ==> !IsMain(rows, c.Name())
  {
    forall c | c in t.retiringCoordinators ensures !IsMain(rows, c.Name()) {
      assert c in AllCoordinators(t);
      assert forall i :: i in t.dataInstances ==> i in AllInstances(t);
    }
  }

  /** Every call issued is safe, nothing done makes a second MAIN, and a cluster that had a MAIN ends
      without one exactly when a demotion took effect and no promotion did. */
  ghost predicate RanSafely(rows: Rows, s: Situation, e: Execution) {
    && SafeLog(e.log) && PromotesMainless(e.log) && AtMostOneMain(e.rows)
    && (HasMain(rows) ==> (!HasMain(e.rows) <==> DemotionLanded(e.log) && !PromotionLanded(e.log)))
    && (HasMain(rows) && !HasMain(e.rows) ==>
          exists i, j :: 0 <= i <= j <= |e.log| && StrandedAfterTryingAll(s, e.log[i..j]))
    && (s.Handover() ==> forall n :: IsMain(e.rows, n) ==> n in s.successors || n == s.retiringMain)
  }

  lemma Assemble(t: Topology, rows: Rows, s: Situation, joined: Execution, moved: Execution, left: Execution)
    requires SameMains(rows, joined.rows) && SafeLog(joined.log) && Quiet(joined.log)
    requires Handed(t, joined.rows, s, moved)
    requires SameMains(moved.rows, left.rows) && SafeLog(left.log) && Quiet(left.log)
    ensures RanSafely(rows, s, Execution(left.rows, left.clock, left.ok, joined.log + moved.log + left.log))
  {
    var log := joined.log + moved.log + left.log;
    SameMainsHave(rows, joined.rows);
    SameMainsHave(moved.rows, left.rows);
    QuietConcat(joined.log, moved.log, left.log);
    assert log[|joined.log|..|joined.log| + |moved.log|] == moved.log;
  }

  lemma NothingLeftSafely(t: Topology, rows: Rows, s: Situation, joined: Execution)
    requires SameMains(rows, joined.rows) && SafeLog(joined.log) && Quiet(joined.log) && AtMostOneMain(rows)
    requires s.Handover() ==> IsMain(rows, s.retiringMain)
    ensures RanSafely(rows, s, joined)
  {
    SameMainsHave(rows, joined.rows);
  }

  /** Whatever the cluster refuses and whatever answers are lost, a plan run against the cluster it
      was made for never aims an unregistration at the MAIN of that moment nor a removal at the
      leader of that moment, never makes a second MAIN, and leaves a cluster that had a MAIN without
      one only when a demotion landed and no promotion did: the demotion's answer was lost, or every
      candidate and the demoted MAIN itself were tried in vain. */
  lemma PlansRunSafely(t: Topology, view: seq<Instance>, lag: seq<ReplicationLag>, env: Environment)
    requires ValidTopology(t) && UniqueNames(view) && ValidRows(t, Index(view))
    ensures RanSafely(Index(view), Situate(t, view, lag), RunAll(env, Index(view), 0, PlanFor(t, view, lag)))
  {
    var rows, s := Index(view), Situate(t, view, lag);
    SituationReads(t, view, lag);
    PlanInThree(t, view, lag);
    RunInThree(env, rows, 0, Select(s, Memberships(t)), Select(s, Promotions(t, s)), Select(s, Departures(t, s)));
    ThreePartsRunSafely(t, rows, IndexLag(lag), s, env);
  }

  lemma ThreePartsRunSafely(t: Topology, rows: Rows, lag: map<string, ReplicationLag>, s: Situation, env: Environment)
    requires ValidTopology(t) && ValidRows(t, rows) && Reads(t, rows, lag, s)
    ensures RanSafely(rows, s, InThree(env, rows, 0,
              Select(s, Memberships(t)), Select(s, Promotions(t, s)), Select(s, Departures(t, s))))
  {
    var joins, moves, leaves := Select(s, Memberships(t)), Select(s, Promotions(t, s)), Select(s, Departures(t, s));
    SelectHolds(s, Memberships(t));
    MembershipRuns(env, rows, 0, joins);
    var joined := RunAll(env, rows, 0, joins);
    if !joined.ok {
      NothingLeftSafely(t, rows, s, joined);
    } else {
      PromotionsRun(t, rows, lag, s, env, joined.rows, joined.clock);
      var moved := RunAll(env, joined.rows, joined.clock, moves);
      if !moved.ok {
        Assemble(t, rows, s, joined, moved, Execution(moved.rows, moved.clock, moved.ok, []));
        assert joined.log + moved.log + [] == joined.log + moved.log;
      } else {
        CoordinatorsNeverMain(t, rows, moved.rows);
        AllDeparturesRun(t, rows, lag, s, env, moved.rows, moved.clock);
        Assemble(t, rows, s, joined, moved, RunAll(env, moved.rows, moved.clock, leaves));
      }
    }
  }

  function InThree(env: Environment, rows: Rows, clock: nat, a: seq<Command>, b: seq<Command>, c: seq<Command>): Execution {
    var first := RunAll(env, rows, clock, a);
    if !first.ok then first
    else
      var second := RunAll(env, first.rows, first.clock, b);
      if !second.ok then Execution(second.rows, second.clock, second.ok, first.log + second.log)
      else
        var third := RunAll(env, second.rows, second.clock, c);
        Execution(third.rows, third.clock, third.ok, first.log + second.log + third.log)
  }

  lemma RunInThree(env: Environment, rows: Rows, clock: nat, a: seq<Command>, b: seq<Command>, c: seq<Command>)
    ensures RunAll(env, rows, clock, a + b + c) == InThree(env, rows, clock, a, b, c)
  {
    RunAllConcat(env, rows, clock, a, b);
    RunAllConcat(env, rows, clock, a + b, c);
  }

  lemma PlanInThree(t: Topology, view: seq<Instance>, lag: seq<ReplicationLag>)
    ensures var s := Situate(t, view, lag);
      PlanFor(t, view, lag) == Select(s, Memberships(t)) + Select(s, Promotions(t, s)) + Select(s, Departures(t, s))
  {
    var s := Situate(t, view, lag);
    SelectConcat(s, Memberships(t), Promotions(t, s));
    SelectConcat(s, Memberships(t) + Promotions(t, s), Departures(t, s));
  }
}
