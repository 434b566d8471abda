/** What restarting the MAIN's pod costs: a failover, and when nothing that was committed. */
module MainRestart {
  import opened Text
  import opened Memgraph
  import opened Planner
  import opened Cluster
  import opened Rollout
  import opened Replication

  /** The role a decision reads, once the MAIN's pod is all that is left to restart. */
  ghost predicate OnlyMainLeft(data: Role, main: string) {
    OutdatedPods(data) != [] && OnlyOn(OutdatedPods(data), main)
  }

  /** The instances the coordinators can promote while the MAIN is down. */
  ghost function Survivors(data: Role, rows: Rows, main: string): set<string> {
    set p | p in data.pods && p.instance != main && Up(rows, p.instance) :: p.instance
  }

  /** When a roll restarts the MAIN's pod, whoever the coordinators promote holds everything the MAIN
      had committed when its lag was read if and only if one reachable survivor's row lists every
      database the MAIN committed to, none behind. Where a write can be lost, each survivor the decision
      could rely on is without some database the MAIN wrote to. */
  lemma RestartingMainLosesNothing(data: Role, coordinators: Role, view: seq<Instance>, lag: seq<ReplicationLag>,
                                   held: Data, promoted: string)
    requires OutdatedPods(data) != [] && data.replicas != 1
    requires var main, d := MainInstance(Index(view)), Next(data, coordinators, view, lag);
      && d.Delete? && d.pod.instance == main
      && FollowsMain(held, main) && MeasuredAll(held, main, lag)
      && ListsEach(lag, Survivors(data, Index(view), main))
      && MayBePromoted(held, main, Survivors(data, Index(view), main), promoted)
    ensures var main := MainInstance(Index(view));
      var survivors := Survivors(data, Index(view), main);
      && (HoldsAll(held, main, promoted) <==> OneListsAll(held, main, lag, survivors))
      && (exists p :: p in survivors && CaughtUp(IndexLag(lag), p))
      && (!OneListsAll(held, main, lag, survivors) ==>
            forall p :: p in survivors && CaughtUp(IndexLag(lag), p) ==> p in held && !HasDatabasesOf(held, main, p))
  {
    var rows, lags, main := Index(view), IndexLag(lag), MainInstance(Index(view));
    var survivors := Survivors(data, rows, main);
    DataRestarts(data, coordinators, view, lag);
    assert OnlyOn(OutdatedPods(data), main);
    var p :| p in data.pods && p.instance != main && Replicating(rows, lags, p);
    assert p.instance in survivors && CaughtUp(lags, p.instance);
    FailoverAsListed(held, main, lag, survivors, promoted);
    forall q | q in survivors && CaughtUp(lags, q) && !OneListsAll(held, main, lag, survivors)
      ensures q in held && !HasDatabasesOf(held, main, q)
    {
      UnlistedIsMissing(held, main, lag, survivors, q);
    }
  }

  lemma UnlistedIsMissing(held: Data, main: string, lag: seq<ReplicationLag>, survivors: set<string>, q: string)
    requires FollowsMain(held, main) && MeasuredAll(held, main, lag)
    requires q in survivors && CaughtUp(IndexLag(lag), q) && !OneListsAll(held, main, lag, survivors)
    ensures q in held && !HasDatabasesOf(held, main, q)
  {
    var row := IndexLag(lag)[q];
    assert row in lag && row.instance == q;
    assert Measured(held, main, row);
    ListedIsHeld(held, main, row);
    CaughtUpHolds(held, main, row);
  }

  /** One reachable, caught-up survivor is all the last step waits for: with the MAIN up and every pod
      present, the MAIN's pod goes whatever any other instance reports. */
  lemma OneSurvivorIsEnough(data: Role, coordinators: Role, view: seq<Instance>, lag: seq<ReplicationLag>, survivor: Pod)
    requires OnlyMainLeft(data, MainInstance(Index(view)))
    requires !data.stale && !coordinators.stale && Present(data)
    requires MainInstance(Index(view)) != "" && Up(Index(view), MainInstance(Index(view)))
    requires survivor in data.pods && survivor.instance != MainInstance(Index(view))
    requires Replicating(Index(view), IndexLag(lag), survivor)
    ensures var d := Next(data, coordinators, view, lag);
      d.Delete? && d.pod in OutdatedPods(data) && d.pod.instance == MainInstance(Index(view))
  {
    DataRestarts(data, coordinators, view, lag);
  }
}
