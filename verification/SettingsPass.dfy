/** One pod's settings during a pass: read at most once, planned against by every step, and written
    with SETs any of which may be refused or have its answer lost. */
module SettingsPass {
  import opened Text
  import opened Settings
  import Cluster

  /** What a step brings in line: the license, or settings by name. */
  datatype Step =
    | LicenseStep(license: string, organization: string)
    | DiffStep(desired: map<string, string>)
  {
    function Changes(observed: map<string, string>): seq<Change> {
      match this
      case LicenseStep(license, organization) => LicenseChanges(license, organization, observed)
      case DiffStep(desired) => DiffOf(desired, observed)
    }

    function Keys(): set<string> {
      match this
      case LicenseStep(_, _) => {LICENSE_SETTING, ORGANIZATION_SETTING}
      case DiffStep(desired) => desired.Keys
    }

    /** Every setting the step owns is as it should be; one the license step wants empty need not be
        reported. */
    predicate Holds(view: map<string, string>) {
      match this
      case LicenseStep(license, organization) => Get(view, LICENSE_SETTING) == license && Get(view, ORGANIZATION_SETTING) == organization
      case DiffStep(desired) => forall s :: s in desired ==> s in view && view[s] == desired[s]
    }
  }

  datatype Read = Unread | Known(settings: map<string, string>) | Failed

  /** The pass's read of the pod, what the instance really holds, and whether a SET landed whose answer
      the operator never got. */
  datatype Pod = Pod(read: Read, held: map<string, string>, lost: bool, clock: nat)

  type Answers = nat -> Cluster.Outcome

  function Observed(p: Pod, readable: bool): (q: Pod)
    ensures !q.read.Unread?
  {
    if !p.read.Unread? then p
    else p.(read := if readable then Known(p.held) else Failed)
  }

  function Tick(p: Pod): Pod { p.(clock := p.clock + 1) }

  /** The SETs in order, up to the first that is not acknowledged. */
  function SetAll(p: Pod, changes: seq<Change>, answers: Answers): (Pod, bool)
    requires p.read.Known?
    decreases |changes|
  {
    if changes == [] then (p, true)
    else
      var c := changes[0];
      match answers(p.clock)
      case Accepted =>
        SetAll(Tick(p).(read := Known(p.read.settings[c.setting := c.value]), held := p.held[c.setting := c.value]), changes[1..], answers)
      case Refused => (Tick(p), false)
      case Lost => (Tick(p).(held := p.held[c.setting := c.value], lost := true), false)
  }

  /** One step on the pod, and whether it was done: the instance is dialled only to SET. */
  function Applied(p: Pod, step: Step, readable: bool, dials: bool, answers: Answers): (Pod, bool) {
    var q := Observed(p, readable);
    if q.read.Failed? then (q, false)
    else
      var changes := step.Changes(q.read.settings);
      if changes == [] then (q, true)
      else if !dials then (q, false)
      else SetAll(q, changes, answers)
  }

  class PodSettings {
    var pod: Pod

    constructor (held: map<string, string>)
      ensures pod == Pod(Unread, held, false, 0)
    {
      pod := Pod(Unread, held, false, 0);
    }

    method ObserveSettings(readable: bool)
      modifies this
      ensures pod == Observed(old(pod), readable)
      ensures old(pod).read == Unread ==> pod == old(pod).(read := if readable then Known(old(pod).held) else Failed)
      ensures old(pod).read != Unread ==> pod == old(pod)
    {
      if pod.read.Unread? {
        pod := pod.(read := if readable then Known(pod.held) else Failed);
      }
    }

    method ApplySettings(step: Step, readable: bool, dials: bool, answers: Answers) returns (ok: bool)
      modifies this
      ensures (pod, ok) == Applied(old(pod), step, readable, dials, answers)
    {
      ObserveSettings(readable);
      if pod.read.Failed? {
        return false;
      }
      var changes := step.Changes(pod.read.settings);
      if changes == [] {
        return true;
      }
      if !dials {
        return false;
      }
      ghost var planned := pod;
      for i := 0 to |changes|
        invariant pod.read.Known? && SetAll(planned, changes, answers) == SetAll(pod, changes[i..], answers)
      {
        var c, answer := changes[i], answers(pod.clock);
        assert changes[i..][0] == c && changes[i..][1..] == changes[i + 1..];
        if answer == Cluster.Refused {
          pod := Tick(pod);
          return false;
        }
        if answer == Cluster.Lost {
          pod := Tick(pod).(held := pod.held[c.setting := c.value], lost := true);
          return false;
        }
        pod := Tick(pod).(read := Known(pod.read.settings[c.setting := c.value]), held := pod.held[c.setting := c.value]);
      }
      ok := true;
    }
  }

  /* ---- One step ---- */

  lemma HoldsExactly(step: Step, view: map<string, string>)
    ensures step.Holds(view) <==> step.Changes(view) == []
  {
    if step.DiffStep? {
      DiffExactly(step.desired, view);
    }
  }

  /** The changes of a step are of its own settings, each once, each to a value the view does not
      report; and a view with all of them made is one the step holds of. */
  ghost predicate Planned(step: Step, view: map<string, string>, changes: seq<Change>) {
    && (forall i, j :: 0 <= i < j < |changes| ==> changes[i].setting != changes[j].setting)
    && (forall c :: c in changes ==> c.setting in step.Keys() && !Reports(view, c.setting, c.value))
  }

  lemma ChangesArePlanned(step: Step, view: map<string, string>)
    ensures Planned(step, view, step.Changes(view))
  {
    if step.DiffStep? {
      DiffExactly(step.desired, view);
      var changes := step.Changes(view);
      forall i, j | 0 <= i < j < |changes| ensures changes[i].setting != changes[j].setting {
        LessIsIrreflexive(changes[i].setting);
      }
    }
  }

  /** Two views agree outside some settings. */
  ghost predicate AgreeOutside(a: map<string, string>, b: map<string, string>, settings: set<string>) {
    forall s :: s !in settings ==> (s in a <==> s in b) && (s in a ==> a[s] == b[s])
  }

  /** What running a step's changes does: it touches its own settings only; it is done exactly when
      all were acknowledged, and then the changes are all on both views; a lost answer leaves the two
      views apart, in one of the step's settings. */
  ghost predicate Ran(p: Pod, q: Pod, ok: bool, settings: set<string>) {
    && p.read.Known? && q.read.Known? && q.clock >= p.clock
    && AgreeOutside(p.held, q.held, settings) && AgreeOutside(p.read.settings, q.read.settings, settings)
    && (ok ==> q.lost == p.lost)
    && (!q.lost && p.read.settings == p.held ==> q.read.settings == q.held)
    && (p.lost ==> q.lost)
    && (q.lost && !p.lost ==> Apart(q, settings))
  }

  /** The pass's read and the instance differ in one of these settings. */
  ghost predicate Apart(p: Pod, settings: set<string>)
    requires p.read.Known?
  {
    exists s :: s in settings && s in p.held && !Reports(p.read.settings, s, p.held[s])
  }

  lemma {:induction false} SetAllRan(p: Pod, changes: seq<Change>, answers: Answers, settings: set<string>)
    requires p.read.Known?
    requires forall i, j :: 0 <= i < j < |changes| ==> changes[i].setting != changes[j].setting
    requires forall c :: c in changes ==> c.setting in settings && !Reports(p.read.settings, c.setting, c.value)
    ensures var (q, ok) := SetAll(p, changes, answers); Ran(p, q, ok, settings)
    decreases |changes|
  {
    if changes != [] {
      var c := changes[0];
      assert c in changes;
      if answers(p.clock) == Cluster.Accepted {
        var next := Tick(p).(read := Known(p.read.settings[c.setting := c.value]), held := p.held[c.setting := c.value]);
        forall d | d in changes[1..] ensures d in changes && !Reports(next.read.settings, d.setting, d.value) {
          var i :| 1 <= i < |changes| && changes[i] == d;
        }
        SetAllRan(next, changes[1..], answers, settings);
      }
    }
  }

  /** Once a step is done, the pass's read has every change it planned. */
  lemma {:induction false} SetAllSets(p: Pod, changes: seq<Change>, answers: Answers)
    requires p.read.Known? && SetAll(p, changes, answers).1
    requires forall i, j :: 0 <= i < j < |changes| ==> changes[i].setting != changes[j].setting
    ensures SetAll(p, changes, answers).0.read.Known?
    ensures var q := SetAll(p, changes, answers).0;
      && (forall c :: c in changes ==> Reports(q.read.settings, c.setting, c.value))
      && (forall s :: (forall c :: c in changes ==> c.setting != s) ==>
            (s in q.read.settings <==> s in p.read.settings) && (s in p.read.settings ==> q.read.settings[s] == p.read.settings[s]))
    decreases |changes|
  {
    if changes != [] {
      var c := changes[0];
      var next := Tick(p).(read := Known(p.read.settings[c.setting := c.value]), held := p.held[c.setting := c.value]);
      assert changes == [c] + changes[1..];
      SetAllSets(next, changes[1..], answers);
    }
  }

  lemma DoneStepHolds(p: Pod, step: Step, answers: Answers)
    requires p.read.Known? && SetAll(p, step.Changes(p.read.settings), answers).1
    ensures SetAll(p, step.Changes(p.read.settings), answers).0.read.Known?
    ensures step.Holds(SetAll(p, step.Changes(p.read.settings), answers).0.read.settings)
  {
    var changes := step.Changes(p.read.settings);
    ChangesArePlanned(step, p.read.settings);
    SetAllSets(p, changes, answers);
    var q := SetAll(p, changes, answers).0;
    match step
    case DiffStep(desired) =>
      DiffExactly(desired, p.read.settings);
      forall s | s in desired ensures Reports(q.read.settings, s, desired[s]) {
        if !Reports(p.read.settings, s, desired[s]) {
          assert Change(s, desired[s]) in changes;
        } else {
          forall c | c in changes ensures c.setting != s {}
        }
      }
    case LicenseStep(license, organization) =>
      LicenseHolds(p.read.settings, q.read.settings, license, organization);
  }

  lemma LicenseHolds(before: map<string, string>, after: map<string, string>, license: string, organization: string)
    requires var changes := LicenseChanges(license, organization, before);
      && (forall c :: c in changes ==> Reports(after, c.setting, c.value))
      && (forall s :: (forall c :: c in changes ==> c.setting != s) ==>
            (s in after <==> s in before) && (s in before ==> after[s] == before[s]))
    ensures Get(after, LICENSE_SETTING) == license && Get(after, ORGANIZATION_SETTING) == organization
  {
    var changes := LicenseChanges(license, organization, before);
    if Get(before, ORGANIZATION_SETTING) != organization {
      assert Change(ORGANIZATION_SETTING, organization) in changes;
    }
    if Get(before, LICENSE_SETTING) != license {
      assert Change(LICENSE_SETTING, license) in changes;
    }
  }

  lemma HoldsElsewhere(step: Step, a: map<string, string>, b: map<string, string>, settings: set<string>)
    requires AgreeOutside(a, b, settings) && step.Keys() !! settings && step.Holds(a)
    ensures step.Holds(b)
  {
    if step.LicenseStep? {
      assert LICENSE_SETTING in step.Keys() && ORGANIZATION_SETTING in step.Keys();
    }
  }

  /* ---- A pass ---- */

  /** How a pass goes for one pod: whether it can be read, whether each step's dial gets through, and
      the answer to each SET. */
  datatype Weather = Weather(readable: bool, dials: nat -> bool, answers: Answers)

  /** The pod after the first `n` steps, and whether all of them were done. */
  function Pass(held: map<string, string>, steps: seq<Step>, weather: Weather, n: nat): (Pod, bool)
    requires n <= |steps|
  {
    if n == 0 then (Pod(Unread, held, false, 0), true)
    else
      var (p, done) := Pass(held, steps, weather, n - 1);
      var (q, ok) := Applied(p, steps[n - 1], weather.readable, weather.dials(n - 1), weather.answers);
      (q, done && ok)
  }

  /** No setting belongs to two steps. */
  ghost predicate Separate(steps: seq<Step>) {
    forall i, j :: 0 <= i < j < |steps| ==> steps[i].Keys() !! steps[j].Keys()
  }

  function KeysOf(steps: seq<Step>, n: nat): set<string>
    requires n <= |steps|
  {
    set i, s | 0 <= i < n && s in steps[i].Keys() :: s
  }

  ghost predicate Agrees(p: Pod, settings: set<string>) {
    p.read.Known? ==> if p.lost then Apart(p, settings) else p.read.settings == p.held
  }

  lemma AppliedRan(p: Pod, step: Step, weather: Weather, dials: bool)
    ensures var (q, ok) := Applied(p, step, weather.readable, dials, weather.answers);
      var read := Observed(p, weather.readable);
      && (read.read.Failed? ==> q == read && !ok)
      && (read.read.Known? ==> Ran(read, q, ok, step.Keys()) && (ok ==> step.Holds(q.read.settings)))
  {
    var read := Observed(p, weather.readable);
    if read.read.Known? {
      var changes := step.Changes(read.read.settings);
      HoldsExactly(step, read.read.settings);
      ChangesArePlanned(step, read.read.settings);
      SetAllRan(read, changes, weather.answers, step.Keys());
      if SetAll(read, changes, weather.answers).1 {
        DoneStepHolds(read, step, weather.answers);
      }
    }
  }

  lemma ApartStays(p: Pod, q: Pod, ok: bool, settings: set<string>, own: set<string>)
    requires Ran(p, q, ok, own) && settings !! own
    requires Apart(p, settings)
    ensures Apart(q, settings)
  {
    var s :| s in settings && s in p.held && !Reports(p.read.settings, s, p.held[s]);
    assert s !in own;
  }

  /** At any point of a pass, whatever was refused, the settings the pass goes by are what a fresh
      SHOW DATABASE SETTINGS would return, exactly when no SET landed whose answer was lost. */
  lemma {:induction false} ReadStaysCurrent(held: map<string, string>, steps: seq<Step>, weather: Weather, n: nat)
    requires n <= |steps| && Separate(steps)
    ensures var p := Pass(held, steps, weather, n).0;
      Agrees(p, KeysOf(steps, n)) && (p.read.Known? ==> (p.read.settings == p.held <==> !p.lost)) && (p.lost ==> p.read.Known?)
  {
    if n > 0 {
      ReadStaysCurrent(held, steps, weather, n - 1);
      var p, own := Pass(held, steps, weather, n - 1).0, steps[n - 1].Keys();
      var q, ok := Pass(held, steps, weather, n).0, Applied(p, steps[n - 1], weather.readable, weather.dials(n - 1), weather.answers).1;
      var read := Observed(p, weather.readable);
      AppliedRan(p, steps[n - 1], weather, weather.dials(n - 1));
      assert own <= KeysOf(steps, n) && KeysOf(steps, n - 1) <= KeysOf(steps, n);
      assert KeysOf(steps, n - 1) !! own;
      if q.read.Known? && p.lost {
        ApartStays(read, q, ok, KeysOf(steps, n - 1), own);
      }
    }
  }

  /** When every step is done, everything every step wanted holds on the instance at the end: no step
      undoes what an earlier one did. */
  lemma {:induction false} DoneStepsAllHold(held: map<string, string>, steps: seq<Step>, weather: Weather, n: nat)
    requires n <= |steps| && Separate(steps) && Pass(held, steps, weather, n).1
    ensures !Pass(held, steps, weather, n).0.lost
    ensures forall i :: 0 <= i < n ==> steps[i].Holds(Pass(held, steps, weather, n).0.held)
  {
    if n > 0 {
      DoneStepsAllHold(held, steps, weather, n - 1);
      ReadStaysCurrent(held, steps, weather, n - 1);
      ReadStaysCurrent(held, steps, weather, n);
      var p, q := Pass(held, steps, weather, n - 1).0, Pass(held, steps, weather, n).0;
      AppliedRan(p, steps[n - 1], weather, weather.dials(n - 1));
      forall i | 0 <= i < n ensures steps[i].Holds(q.held) {
        if i < n - 1 {
          HoldsElsewhere(steps[i], Observed(p, weather.readable).held, q.held, steps[n - 1].Keys());
        }
      }
    }
  }

  /** And then the next pass, finding the instance as this one left it, issues no SET. */
  lemma {:induction false} NextPassIsSilent(held: map<string, string>, steps: seq<Step>, weather: Weather, n: nat)
    requires n <= |steps| && weather.readable
    requires forall i :: 0 <= i < |steps| ==> steps[i].Holds(held)
    ensures var (p, done) := Pass(held, steps, weather, n);
      done && p.clock == 0 && p.held == held && !p.lost && (p.read == Unread || p.read == Known(held))
  {
    if n > 0 {
      NextPassIsSilent(held, steps, weather, n - 1);
      HoldsExactly(steps[n - 1], held);
    }
  }

  /* ---- When nothing is refused ---- */

  /** The pod can be read, every dial gets through, and every SET is acknowledged. */
  ghost predicate Fair(weather: Weather) {
    weather.readable && (forall n :: weather.dials(n)) && forall k :: weather.answers(k) == Cluster.Accepted
  }

  lemma {:induction false} AcknowledgedAreSet(p: Pod, changes: seq<Change>, answers: Answers)
    requires p.read.Known? && forall k :: answers(k) == Cluster.Accepted
    ensures var (q, ok) := SetAll(p, changes, answers);
      ok && q.read.Known? && q.lost == p.lost && q.clock == p.clock + |changes|
    decreases |changes|
  {
    if changes != [] {
      var c := changes[0];
      var next := Tick(p).(read := Known(p.read.settings[c.setting := c.value]), held := p.held[c.setting := c.value]);
      AcknowledgedAreSet(next, changes[1..], answers);
    }
  }

  lemma {:induction false} FairPassIsDone(held: map<string, string>, steps: seq<Step>, weather: Weather, n: nat)
    requires n <= |steps| && Fair(weather)
    ensures var (p, done) := Pass(held, steps, weather, n);
      done && !p.lost && !p.read.Failed?
  {
    if n > 0 {
      FairPassIsDone(held, steps, weather, n - 1);
      var p := Observed(Pass(held, steps, weather, n - 1).0, weather.readable);
      assert weather.dials(n - 1);
      AcknowledgedAreSet(p, steps[n - 1].Changes(p.read.settings), weather.answers);
    }
  }

  /** If none is refused, every setting any of the steps owns holds at the end of the pass. */
  lemma FairPassSetsEverything(held: map<string, string>, steps: seq<Step>, weather: Weather)
    requires Separate(steps) && Fair(weather)
    ensures var (p, done) := Pass(held, steps, weather, |steps|);
      done && !p.lost && forall i :: 0 <= i < |steps| ==> steps[i].Holds(p.held)
  {
    FairPassIsDone(held, steps, weather, |steps|);
    DoneStepsAllHold(held, steps, weather, |steps|);
  }

  /** A step whose dial fails issues nothing, and is done only if there was nothing to issue; with the
      dial through it issues the changes it planned, in order, until the first that is not
      acknowledged. */
  lemma AStepDialsToSet(p: Pod, step: Step, readable: bool, dials: bool, answers: Answers)
    requires Observed(p, readable).read.Known?
    ensures var read := Observed(p, readable);
      var (q, ok) := Applied(p, step, readable, dials, answers);
      && (!dials ==> q == read && q.held == p.held && q.clock == p.clock && (ok <==> step.Holds(read.read.settings)))
      && (step.Holds(read.read.settings) ==> ok && q == read)
      && (dials && !step.Holds(read.read.settings) ==>
            p.clock < q.clock <= p.clock + |step.Changes(read.read.settings)|
            && (ok <==> forall k :: p.clock <= k < p.clock + |step.Changes(read.read.settings)| ==> answers(k) == Cluster.Accepted))
  {
    var read := Observed(p, readable);
    HoldsExactly(step, read.read.settings);
    SetUntilOneFails(read, step.Changes(read.read.settings), answers);
  }

  lemma {:induction false} SetUntilOneFails(p: Pod, changes: seq<Change>, answers: Answers)
    requires p.read.Known?
    ensures var (q, ok) := SetAll(p, changes, answers);
      && p.clock <= q.clock <= p.clock + |changes| && (changes != [] ==> q.clock > p.clock)
      && (ok <==> forall k :: p.clock <= k < p.clock + |changes| ==> answers(k) == Cluster.Accepted)
    decreases |changes|
  {
    if changes != [] && answers(p.clock) == Cluster.Accepted {
      var c := changes[0];
      var next := Tick(p).(read := Known(p.read.settings[c.setting := c.value]), held := p.held[c.setting := c.value]);
      SetUntilOneFails(next, changes[1..], answers);
    }
  }

  /** A pod that cannot be read is left alone for the whole pass, and no step on it is done. */
  lemma {:induction false} UnreadableIsLeftAlone(held: map<string, string>, steps: seq<Step>, weather: Weather, n: nat)
    requires n <= |steps| && !weather.readable
    ensures var (p, done) := Pass(held, steps, weather, n);
      && p == Pod(if n == 0 then Unread else Failed, held, false, 0) && (done <==> n == 0)
  {
    if n > 0 {
      UnreadableIsLeftAlone(held, steps, weather, n - 1);
    }
  }

  /** The three steps of a pass, license, run-time flags and AWS credentials, own different settings. */
  lemma StepsAreSeparate(table: Table, flags: map<string, string>, license: string, organization: string, aws: map<string, string>)
    requires ValidTable(table) && Unambiguous(table, flags) && aws.Keys <= AWS_SETTINGS
    ensures Separate([LicenseStep(license, organization), DiffStep(DesiredBy(table, flags)), DiffStep(aws)])
  {
    assert LICENSE_SETTING !in AWS_SETTINGS && ORGANIZATION_SETTING !in AWS_SETTINGS;
    assert forall s :: s in AWS_SETTINGS ==> s in SECRET_SETTINGS;
    assert LICENSE_SETTING in SECRET_SETTINGS && ORGANIZATION_SETTING in SECRET_SETTINGS;
    assert forall s :: s in DesiredBy(table, flags) ==> s !in SECRET_SETTINGS;
  }
}
