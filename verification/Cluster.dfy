/** The Memgraph cluster as the operator's commands act on it: which calls it accepts, what an
    accepted call changes, and a plan run against it in order until the first error. */
module Cluster {
  import opened Text
  import opened Memgraph
  import opened Planner

  /** One management query of the client. */
  datatype Call =
    | Add(coordinator: CoordinatorSpec)
    | Register(instance: DataInstanceSpec)
    | MoveCoordinator(coordinator: CoordinatorSpec)
    | MoveInstance(instance: DataInstanceSpec)
    | Promote(name: string)
    | Demote(name: string)
    | Unregister(name: string)
    | Remove(coordinator: CoordinatorSpec)
    | Yield

  predicate IsMain(rows: Rows, name: string) { name in rows && rows[name].IsMain() }
  predicate IsLeader(rows: Rows, name: string) { name in rows && rows[name].IsLeader() }
  predicate HasMain(rows: Rows) { exists n :: n in rows && IsMain(rows, n) }

  ghost predicate AtMostOneMain(rows: Rows) {
    forall m, n :: IsMain(rows, m) && IsMain(rows, n) ==> m == n
  }

  ghost predicate AtMostOneLeader(rows: Rows) {
    forall m, n :: IsLeader(rows, m) && IsLeader(rows, n) ==> m == n
  }

  /** A row a yield may elect: another coordinator of the cluster. */
  predicate Electable(rows: Rows, name: string) { name in rows && rows[name].IsFollower() }

  /** A leader that was never added reports itself, and only in its own view. */
  predicate OnlyReportsItself(rows: Rows, name: string) {
    IsLeader(rows, name) && rows[name].boltServer == ""
  }

  function Member(c: CoordinatorSpec, role: string): Instance {
    Instance(c.Name(), c.boltServer, c.coordinatorServer, c.managementServer, "up", role)
  }

  function Replica(i: DataInstanceSpec): Instance {
    Instance(i.name, i.boltServer, "", i.managementServer, "up", "replica")
  }

  /** What a call does to the cluster's rows, or None when the cluster's own rules refuse it. The
      winner of the election a yield starts is the environment's choice; the caller names nobody
      and learns nothing about it. */
  function Effect(rows: Rows, call: Call, winner: string): Option<Rows> {
    match call
    case Add(c) =>
      if c.Name() !in rows then Some(rows[c.Name() := Member(c, "follower")])
      else if rows[c.Name()].boltServer != "" then None
      else Some(rows[c.Name() := rows[c.Name()].(boltServer := c.boltServer,
        coordinatorServer := c.coordinatorServer, managementServer := c.managementServer)])
    case Register(i) =>
      if i.name in rows then None else Some(rows[i.name := Replica(i)])
    case MoveCoordinator(c) =>
      if !CoordinatorRegistered(rows, c) then None
      else Some(rows[c.Name() := rows[c.Name()].(boltServer := c.boltServer)])
    case MoveInstance(i) =>
      if i.name !in rows then None else Some(rows[i.name := rows[i.name].(boltServer := i.boltServer)])
    case Promote(name) =>
      if HasMain(rows) || name !in rows then None else Some(rows[name := rows[name].(role := "main")])
    case Demote(name) =>
      if !IsMain(rows, name) then None else Some(rows[name := rows[name].(role := "replica")])
    case Unregister(name) =>
      if name !in rows || IsMain(rows, name) then None else Some(rows - {name})
    case Remove(c) =>
      if c.Name() !in rows || IsLeader(rows, c.Name()) then None else Some(rows - {c.Name()})
    case Yield =>
      if !Electable(rows, winner) then None
      else Some(map n | n in rows && !OnlyReportsItself(rows, n) ::
        if n == winner then rows[n].(role := "leader")
        else if rows[n].IsLeader() then rows[n].(role := "follower")
        else rows[n])
  }

  /** What becomes of a call beyond the cluster's own rules: accepted, refused for a reason of its
      own, or carried out with the answer lost on the way back. */
  datatype Outcome = Accepted | Refused | Lost
  datatype Answer = Answer(outcome: Outcome, winner: string)
  type Environment = (nat, Rows) -> Answer

  /** One call as it was issued: the rows at that moment, whether it took effect, and whether the
      caller was told so. */
  datatype Issued = Issued(before: Rows, call: Call, landed: bool, acknowledged: bool)

  datatype Execution = Execution(rows: Rows, clock: nat, ok: bool, log: seq<Issued>)

  function Issue(env: Environment, rows: Rows, clock: nat, call: Call): Execution {
    var answer := env(clock, rows);
    var effect := Effect(rows, call, answer.winner);
    var landed := effect.Some? && answer.outcome != Refused;
    var acknowledged := effect.Some? && answer.outcome == Accepted;
    Execution(if landed then effect.value else rows, clock + 1, acknowledged,
      [Issued(rows, call, landed, acknowledged)])
  }

  /** Promotions tried in order until the first one accepted. */
  function TryPromotions(env: Environment, rows: Rows, clock: nat, names: seq<string>): Execution
    decreases |names|
  {
    if names == [] then Execution(rows, clock, false, [])
    else
      var first := Issue(env, rows, clock, Promote(names[0]));
      if first.ok then first
      else
        var rest := TryPromotions(env, first.rows, first.clock, names[1..]);
        Execution(rest.rows, rest.clock, rest.ok, first.log + rest.log)
  }

  /** A promotion that falls back to the restored MAIN has still failed. */
  function RunPromotion(env: Environment, rows: Rows, clock: nat, candidates: seq<string>, restore: string)
    : Execution
  {
    var tried := TryPromotions(env, rows, clock, candidates);
    if tried.ok || restore == "" then tried
    else
      var restored := Issue(env, tried.rows, tried.clock, Promote(restore));
      Execution(restored.rows, restored.clock, false, tried.log + restored.log)
  }

  function Run(env: Environment, rows: Rows, clock: nat, command: Command): Execution {
    match command
    case AddCoordinator(c) => Issue(env, rows, clock, Add(c))
    case RegisterInstance(i) => Issue(env, rows, clock, Register(i))
    case UpdateCoordinatorBoltServer(c) => Issue(env, rows, clock, MoveCoordinator(c))
    case UpdateInstanceBoltServer(i) => Issue(env, rows, clock, MoveInstance(i))
    case SetInstanceToMain(candidates, restore) => RunPromotion(env, rows, clock, candidates, restore)
    case DemoteInstance(name) => Issue(env, rows, clock, Demote(name))
    case UnregisterInstance(name) => Issue(env, rows, clock, Unregister(name))
    case RemoveCoordinator(c) => Issue(env, rows, clock, Remove(c))
    case YieldLeadership(_) => Issue(env, rows, clock, Yield)
  }

  /** A plan run in order and stopped at the first error. */
  function RunAll(env: Environment, rows: Rows, clock: nat, commands: seq<Command>): Execution
    decreases |commands|
  {
    if commands == [] then Execution(rows, clock, true, [])
    else
      var first := Run(env, rows, clock, commands[0]);
      if !first.ok then first
      else
        var rest := RunAll(env, first.rows, first.clock, commands[1..]);
        Execution(rest.rows, rest.clock, rest.ok, first.log + rest.log)
  }

  lemma {:induction false} RunAllConcat(env: Environment, rows: Rows, clock: nat, a: seq<Command>, b: seq<Command>)
    ensures var first := RunAll(env, rows, clock, a);
      RunAll(env, rows, clock, a + b) ==
        if !first.ok then first
        else
          var rest := RunAll(env, first.rows, first.clock, b);
          Execution(rest.rows, rest.clock, rest.ok, first.log + rest.log)
    decreases |a|
  {
    if a == [] {
      assert a + b == b;
      var rest := RunAll(env, rows, clock, b);
      assert [] + rest.log == rest.log;
    } else {
      assert (a + b)[1..] == a[1..] + b;
      var first := Run(env, rows, clock, a[0]);
      if first.ok {
        RunAllConcat(env, first.rows, first.clock, a[1..], b);
        var mid := RunAll(env, first.rows, first.clock, a[1..]);
        var rest := RunAll(env, mid.rows, mid.clock, b);
        assert first.log + (mid.log + rest.log) == (first.log + mid.log) + rest.log;
      }
    }
  }

  /** A call changes the rows as the rules say unless it is refused, by the rules or otherwise; and only a
      call that is neither refused nor has its answer lost is acknowledged. */
  lemma IssuedExactly(env: Environment, rows: Rows, clock: nat, call: Call)
    ensures var e, answer := Issue(env, rows, clock, call), env(clock, rows);
      var allowed := Effect(rows, call, answer.winner);
      && e.rows == (if allowed.None? || answer.outcome == Refused then rows else allowed.value)
      && (e.ok <==> allowed.Some? && answer.outcome == Accepted)
      && e.log == [Issued(rows, call, allowed.Some? && answer.outcome in {Accepted, Lost}, e.ok)]
  {
  }

  /** Every command but the promotion is one call: the one of its name, for what it names. */
  lemma CommandIssues(env: Environment, rows: Rows, clock: nat, c: Command)
    requires !c.SetInstanceToMain?
    ensures var e := Run(env, rows, clock, c);
      && |e.log| == 1 && e.log[0].before == rows && e.clock == clock + 1
      && (e.ok <==> e.log[0].acknowledged) && e.log[0].call == match c
           case AddCoordinator(x) => Add(x)
           case RegisterInstance(x) => Register(x)
           case UpdateCoordinatorBoltServer(x) => MoveCoordinator(x)
           case UpdateInstanceBoltServer(x) => MoveInstance(x)
           case DemoteInstance(name) => Demote(name)
           case UnregisterInstance(name) => Unregister(name)
           case RemoveCoordinator(x) => Remove(x)
           case _ => Yield
  {
  }

  lemma {:induction false} TriedUntilOneIsAccepted(env: Environment, rows: Rows, clock: nat, names: seq<string>)
    ensures var e := TryPromotions(env, rows, clock, names);
      && |e.log| <= |names| && (forall k :: 0 <= k < |e.log| ==> e.log[k].call == Promote(names[k]))
      && (e.ok <==> |e.log| > 0 && e.log[|e.log| - 1].acknowledged)
      && (forall k :: 0 <= k < |e.log| - 1 ==> !e.log[k].acknowledged)
      && (!e.ok ==> |e.log| == |names|)
    decreases |names|
  {
    if names != [] {
      var first := Issue(env, rows, clock, Promote(names[0]));
      if !first.ok {
        TriedUntilOneIsAccepted(env, first.rows, first.clock, names[1..]);
      }
    }
  }

  /** A promotion tries the candidates in order until one is accepted, which is the only way it succeeds;
      after the last it tries the instance to restore, and has failed whatever becomes of that. */
  lemma PromotionSucceeds(env: Environment, rows: Rows, clock: nat, candidates: seq<string>, restore: string)
    ensures var e := Run(env, rows, clock, SetInstanceToMain(candidates, restore));
      && (forall k :: 0 <= k < |e.log| && k < |candidates| ==> e.log[k].call == Promote(candidates[k]))
      && (e.ok <==> exists k :: 0 <= k < |e.log| && k < |candidates| && e.log[k].acknowledged)
      && (e.ok ==> |e.log| <= |candidates| && forall k :: 0 <= k < |e.log| - 1 ==> !e.log[k].acknowledged)
      && (!e.ok && restore == "" ==> |e.log| == |candidates|)
      && (!e.ok && restore != "" ==> |e.log| == |candidates| + 1 && e.log[|candidates|].call == Promote(restore))
  {
    TriedUntilOneIsAccepted(env, rows, clock, candidates);
  }

  /** The first `n` commands succeeded, and then the next one failed or there was none. */
  ghost predicate EndsAfter(env: Environment, rows: Rows, clock: nat, commands: seq<Command>, n: nat)
    requires n <= |commands|
  {
    var e, before := RunAll(env, rows, clock, commands), RunAll(env, rows, clock, commands[..n]);
    && before.ok && (e.ok <==> n == |commands|)
    && if n == |commands| then e == before
       else
         var failed := Run(env, before.rows, before.clock, commands[n]);
         !failed.ok && e.rows == failed.rows && e.clock == failed.clock && e.log == before.log + failed.log
  }

  lemma EndsOneLater(env: Environment, rows: Rows, clock: nat, commands: seq<Command>, m: nat)
    requires commands != [] && m < |commands| && Run(env, rows, clock, commands[0]).ok
    requires var first := Run(env, rows, clock, commands[0]);
      EndsAfter(env, first.rows, first.clock, commands[1..], m)
    ensures EndsAfter(env, rows, clock, commands, m + 1)
  {
    var first, n := Run(env, rows, clock, commands[0]), m + 1;
    assert commands[..n][1..] == commands[1..][..m] && commands[..n][0] == commands[0];
    if n < |commands| {
      var before := RunAll(env, first.rows, first.clock, commands[1..][..m]);
      var failed := Run(env, before.rows, before.clock, commands[n]);
      assert first.log + (before.log + failed.log) == (first.log + before.log) + failed.log;
    } else {
      assert commands[..n] == commands;
    }
  }

  /** A plan runs until a command fails, and the rest of it is never issued. */
  lemma {:induction false} StopsAtTheFirstError(env: Environment, rows: Rows, clock: nat, commands: seq<Command>) returns (n: nat)
    ensures n <= |commands| && EndsAfter(env, rows, clock, commands, n)
    decreases |commands|
  {
    if commands == [] {
      return 0;
    }
    var first := Run(env, rows, clock, commands[0]);
    if !first.ok {
      assert [] + first.log == first.log && commands[..0] == [];
      return 0;
    }
    var m := StopsAtTheFirstError(env, first.rows, first.clock, commands[1..]);
    EndsOneLater(env, rows, clock, commands, m);
    n := m + 1;
  }

  /* ---- What every call keeps ---- */

  /** An accepted call never makes a second MAIN or a second leader. A MAIN comes only from a promotion
      while there is none, and goes only by being demoted, or removed as the coordinator it is not; a
      leader comes only from a yield to a follower, and goes only by that, or by being promoted or
      unregistered as the data instance it is not. */
  lemma CallsKeepTheRules(rows: Rows, call: Call, winner: string)
    requires Effect(rows, call, winner).Some? && AtMostOneMain(rows) && AtMostOneLeader(rows)
    ensures var rows' := Effect(rows, call, winner).value;
      && AtMostOneMain(rows') && AtMostOneLeader(rows')
      && (forall n :: IsMain(rows', n) && !IsMain(rows, n) ==> call == Promote(n) && !HasMain(rows))
      && (forall n :: IsMain(rows, n) && !IsMain(rows', n) ==> call == Demote(n) || (call.Remove? && call.coordinator.Name() == n))
      && (forall n :: IsLeader(rows', n) && !IsLeader(rows, n) ==> call.Yield? && n == winner && Electable(rows, n))
      && (forall n :: IsLeader(rows, n) && !IsLeader(rows', n) ==> call.Yield? || call == Promote(n) || call == Unregister(n))
  {
    RolesDiffer();
    var rows' := Effect(rows, call, winner).value;
    if call.Yield? {
      YieldKeepsTheRules(rows, winner);
    } else {
      assert forall n :: IsLeader(rows', n) ==> IsLeader(rows, n);
      assert forall n :: IsMain(rows', n) ==> IsMain(rows, n) || call == Promote(n);
    }
  }

  lemma RolesDiffer()
    ensures !EqualFold("follower", "leader") && !EqualFold("replica", "leader") && !EqualFold("main", "leader")
    ensures !EqualFold("follower", "main") && !EqualFold("replica", "main") && EqualFold("main", "main")
  {
    assert |"main"| == 4 && |"leader"| == 6 && |"follower"| == 8 && |"replica"| == 7;
  }

  /** The winner leads, whoever led follows, and no MAIN is touched. */
  lemma YieldKeepsTheRules(rows: Rows, winner: string)
    requires Electable(rows, winner)
    ensures var rows' := Effect(rows, Yield, winner).value;
      && (forall n :: IsLeader(rows', n) <==> n == winner)
      && (forall n :: IsMain(rows', n) <==> IsMain(rows, n))
  {
    assert |"main"| == 4 && |"leader"| == 6 && |"follower"| == 8;
    assert EqualFold("leader", "leader");
  }

  /* ---- The calls as the operator issues them ---- */

  /** The connection to the coordinator leader. `rows` is the cluster behind it, which only the
      calls change; `log` records every call issued over it. */
  class Connection {
    const env: Environment
    var rows: Rows
    var clock: nat
    var log: seq<Issued>

    constructor (env: Environment, rows: Rows)
      ensures this.env == env && this.rows == rows && clock == 0 && log == []
    {
      this.env, this.rows, clock, log := env, rows, 0, [];
    }

    /** The state this connection is in after `execution` started from the given state. */
    ghost predicate After(execution: Execution, earlier: seq<Issued>)
      reads this
    {
      rows == execution.rows && clock == execution.clock && log == earlier + execution.log
    }

    /** Running the remaining commands from here completes the given execution. */
    ghost predicate Finishes(remaining: seq<Command>, whole: Execution, earlier: seq<Issued>)
      reads this
    {
      var rest := RunAll(env, rows, clock, remaining);
      rest.rows == whole.rows && rest.clock == whole.clock && rest.ok == whole.ok
      && log + rest.log == earlier + whole.log
    }

    lemma FinishesStep(remaining: seq<Command>, whole: Execution, earlier: seq<Issued>)
      requires remaining != [] && Finishes(remaining, whole, earlier)
      ensures var first := Run(env, rows, clock, remaining[0]);
        if !first.ok then
          first.rows == whole.rows && first.clock == whole.clock && !whole.ok && log + first.log == earlier + whole.log
        else
          var rest := RunAll(env, first.rows, first.clock, remaining[1..]);
          rest.rows == whole.rows && rest.clock == whole.clock && rest.ok == whole.ok
          && (log + first.log) + rest.log == earlier + whole.log
    {
      var first := Run(env, rows, clock, remaining[0]);
      var rest := RunAll(env, first.rows, first.clock, remaining[1..]);
      assert log + (first.log + rest.log) == (log + first.log) + rest.log;
    }

    method Send(call: Call) returns (ok: bool)
      modifies this
      ensures ok == Issue(env, old(rows), old(clock), call).ok
      ensures After(Issue(env, old(rows), old(clock), call), old(log))
    {
      var issued := Issue(env, rows, clock, call);
      rows, clock, log := issued.rows, issued.clock, log + issued.log;
      ok := issued.ok;
    }
  }

  /** SetInstanceToMain.Run: candidates in order, then the demoted MAIN, which is a failure even
      when it is accepted. */
  method RunSetInstanceToMain(connection: Connection, candidates: seq<string>, restore: string)
    returns (ok: bool)
    modifies connection
    ensures var execution := RunPromotion(connection.env, old(connection.rows), old(connection.clock), candidates, restore);
      ok == execution.ok && connection.After(execution, old(connection.log))
  {
    ghost var whole := TryPromotions(connection.env, connection.rows, connection.clock, candidates);
    for k := 0 to |candidates|
      invariant var rest := TryPromotions(connection.env, connection.rows, connection.clock, candidates[k..]);
        rest.rows == whole.rows && rest.clock == whole.clock && rest.ok == whole.ok
        && connection.log + rest.log == old(connection.log) + whole.log
    {
      assert candidates[k..][1..] == candidates[k + 1..];
      ghost var earlier, sent := connection.log, Issue(connection.env, connection.rows, connection.clock, Promote(candidates[k]));
      ok := connection.Send(Promote(candidates[k]));
      if ok {
        return;
      }
      ghost var rest := TryPromotions(connection.env, connection.rows, connection.clock, candidates[k + 1..]);
      assert earlier + (sent.log + rest.log) == (earlier + sent.log) + rest.log;
    }
    assert candidates[|candidates|..] == [];
    ok := false;
    if restore == "" {
      return;
    }
    ghost var restored := Issue(connection.env, connection.rows, connection.clock, Promote(restore));
    var _ := connection.Send(Promote(restore));
    assert (old(connection.log) + whole.log) + restored.log == old(connection.log) + (whole.log + restored.log);
  }

  /** Command.Run: every command but the promotion is one call. */
  method RunCommand(connection: Connection, command: Command) returns (ok: bool)
    modifies connection
    ensures var execution := Run(connection.env, old(connection.rows), old(connection.clock), command);
      ok == execution.ok && connection.After(execution, old(connection.log))
  {
    match command
    case AddCoordinator(c) => ok := connection.Send(Add(c));
    case RegisterInstance(i) => ok := connection.Send(Register(i));
    case UpdateCoordinatorBoltServer(c) => ok := connection.Send(MoveCoordinator(c));
    case UpdateInstanceBoltServer(i) => ok := connection.Send(MoveInstance(i));
    case SetInstanceToMain(candidates, restore) => ok := RunSetInstanceToMain(connection, candidates, restore);
    case DemoteInstance(name) => ok := connection.Send(Demote(name));
    case UnregisterInstance(name) => ok := connection.Send(Unregister(name));
    case RemoveCoordinator(c) => ok := connection.Send(Remove(c));
    case YieldLeadership(_) => ok := connection.Send(Yield);
  }

  /** The pass's loop over a plan: in order, ended by the first command that fails. */
  method ExecutePlan(connection: Connection, commands: seq<Command>) returns (ok: bool)
    modifies connection
    ensures var execution := RunAll(connection.env, old(connection.rows), old(connection.clock), commands);
      ok == execution.ok && connection.After(execution, old(connection.log))
  {
    ghost var whole := RunAll(connection.env, connection.rows, connection.clock, commands);
    ghost var before := connection.log;
    for k := 0 to |commands|
      invariant connection.Finishes(commands[k..], whole, before)
    {
      connection.FinishesStep(commands[k..], whole, before);
      assert commands[k..][1..] == commands[k + 1..];
      ok := RunCommand(connection, commands[k]);
      if !ok {
        return;
      }
    }
    assert commands[|commands|..] == [];
    ok := true;
  }
}
