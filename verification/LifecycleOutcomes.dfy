/** What comes of a deployment, a failure and a restore: nothing goes live that was not seen healthy. */
module LifecycleOutcomes {
  import opened Domain
  import opened Lifecycle
  import opened LifecycleInvariant
  import opened LifecycleTheorems

  // ---------------------------------------------------------------- what moves a job

  /** The worker's pass on job `j`, with the health it found. */
  function PassOf(e: Event, id: AppId, j: nat): Option<bool> {
    if e.OnApp? && e.id == id && e.action.WorkerAdvance? && e.action.job == j then Some(e.action.healthy) else None
  }

  /** A job that is not passed on by the worker is only ever failed by it. */
  lemma OnlyWorkerMoves(a: App, e: AppEvent, j: nat)
    requires j < |a.jobs| && j < |Step(a, e).jobs| && Step(a, e).jobs[j] != a.jobs[j]
    ensures (e.WorkerAdvance? && e.job == j) || (e == WorkerError(j) && Step(a, e).jobs[j].state == Failed)
  {
    match e
    case WorkerAdvance(i, healthy) => if i < |a.jobs| && i != j { AdvanceElsewhere(a, i, healthy, j); }
    case WorkerError(_) =>
    case _ => if Quiet(e) { QuietHistory(a, e); }
  }

  lemma AdvanceElsewhere(a: App, i: nat, healthy: bool, j: nat)
    requires i < |a.jobs| && j < |a.jobs| && i != j
    ensures j < |AdvanceJob(a, i, healthy).jobs| && AdvanceJob(a, i, healthy).jobs[j] == a.jobs[j]
  {
    if !Terminal(a.jobs[i].state) {
      CommitShape(a, i, NextStateWithHealth(a.jobs[i].state, healthy, HealthAttempt(a.jobs[i].attempts)).value);
    }
  }

  lemma UserLeavesJobs(a: App, e: UserEvent, j: nat)
    requires j < |a.jobs|
    ensures j < |UserStep(a, e).jobs| && UserStep(a, e).jobs[j] == a.jobs[j]
  {
  }

  lemma EffectOnJob(t: Table, e: Event, id: AppId, j: nat)
    requires id in t && j < |t[id].jobs| && j < |EffectOn(t, e, id).jobs| && EffectOn(t, e, id).jobs[j] != t[id].jobs[j]
    ensures PassOf(e, id, j).Some? || EffectOn(t, e, id).jobs[j].state == Failed
  {
    match e
    case CreateApp(_, _, _, _) =>
    case OnApp(_, action) => OnlyWorkerMoves(t[id], action, j);
    case OnUser(_, change) => UserLeavesJobs(t[id], change, j);
  }

  /** What a pass makes of a job, from its state and the number of steps so far. */
  predicate PassMakes(x: Job, healthy: bool, y: Job) {
    && y.attempts == x.attempts + (if Terminal(x.state) then 0 else 1)
    && y.state == match x.state
                  case Queued => Pulling
                  case Pulling => Starting
                  case Starting => Checking
                  case Checking => if healthy then Switching else if x.attempts - 3 < 7 then Checking else RollingBack
                  case Switching => Succeeded
                  case RollingBack => Failed
                  case ended => ended
  }

  lemma PassGives(a: App, j: nat, healthy: bool)
    requires j < |a.jobs| && AttemptsFit(a.jobs[j])
    ensures j < |AdvanceJob(a, j, healthy).jobs| && PassMakes(a.jobs[j], healthy, AdvanceJob(a, j, healthy).jobs[j])
  {
    if !Terminal(a.jobs[j].state) {
      CommitShape(a, j, NextStateWithHealth(a.jobs[j].state, healthy, HealthAttempt(a.jobs[j].attempts)).value);
    }
  }

  lemma EffectOfPass(t: Table, e: Event, id: AppId, j: nat)
    requires id in t && PassOf(e, id, j).Some?
    ensures EffectOn(t, e, id) == AdvanceJob(t[id], j, PassOf(e, id, j).value)
  {
  }

  // ---------------------------------------------------------------- health decides

  /** One event as job `j` meets it: a pass makes of it what a pass makes, anything else leaves it or fails it. */
  ghost predicate Meets(x: Job, y: Job, pass: Option<bool>) {
    && JobStep(x, y) && AttemptsFit(x) && AttemptsFit(y)
    && (if pass.Some? then PassMakes(x, pass.value, y) else x == y || y.state == Failed)
  }

  lemma EffectMeets(t: Table, e: Event, id: AppId, j: nat)
    requires TableInv(t) && id in t && j < |t[id].jobs| && AppInv(EffectOn(t, e, id))
    ensures j < |EffectOn(t, e, id).jobs| && Meets(t[id].jobs[j], EffectOn(t, e, id).jobs[j], PassOf(e, id, j))
  {
    EffectHistory(t, e, id);
    if PassOf(e, id, j).Some? {
      EffectOfPass(t, e, id, j);
      PassGives(t[id], j, PassOf(e, id, j).value);
    } else if EffectOn(t, e, id).jobs[j] != t[id].jobs[j] {
      EffectOnJob(t, e, id, j);
    }
  }

  /** The last event of a run as it meets job `j`. */
  lemma LastEvent(t: Table, events: seq<Event>, id: AppId, j: nat)
    requires TableInv(t) && events != [] && JobAt(Run(t, events[..|events| - 1]), id, j).Some?
    ensures JobAt(Run(t, events), id, j).Some?
    ensures Meets(JobAt(Run(t, events[..|events| - 1]), id, j).value, JobAt(Run(t, events), id, j).value,
                  PassOf(events[|events| - 1], id, j))
  {
    RunKeeps(t, events[..|events| - 1]);
    RunKeeps(t, events);
    RunEffect(t, events, id);
    EffectMeets(Run(t, events[..|events| - 1]), events[|events| - 1], id, j);
  }

  lemma SwitchIsHealthy(x: Job, y: Job, pass: Option<bool>)
    requires Meets(x, y, pass) && x.state == Checking && y.state == Switching
    ensures pass == Some(true)
  {
  }

  /** From the check a job goes to the route switch by one event only: a pass that finds it healthy. */
  lemma SwitchNeedsHealth(t: Table, events: seq<Event>, id: AppId, j: nat)
    requires TableInv(t) && events != []
    requires JobAt(Run(t, events[..|events| - 1]), id, j).Some? && JobAt(Run(t, events), id, j).Some?
    requires JobAt(Run(t, events[..|events| - 1]), id, j).value.state == Checking
    requires JobAt(Run(t, events), id, j).value.state == Switching
    ensures events[|events| - 1] == OnApp(id, WorkerAdvance(j, true))
  {
    LastEvent(t, events, id, j);
    SwitchIsHealthy(JobAt(Run(t, events[..|events| - 1]), id, j).value, JobAt(Run(t, events), id, j).value,
                    PassOf(events[|events| - 1], id, j));
  }

  ghost predicate IsChecking(t: Table, id: AppId, j: nat) {
    JobAt(t, id, j).Some? && JobAt(t, id, j).value.state == Checking
  }

  /** How many passes found job `j` unhealthy while it was being checked. */
  ghost function FailedChecks(t: Table, events: seq<Event>, id: AppId, j: nat): nat {
    if events == [] then 0 else
      FailedChecks(t, events[..|events| - 1], id, j) +
      if PassOf(events[|events| - 1], id, j) == Some(false) && IsChecking(Run(t, events[..|events| - 1]), id, j)
      then 1 else 0
  }

  predicate Early(s: DeploymentState) {
    s == Queued || s == Pulling || s == Starting
  }

  /** How a job comes to be checked, and what its attempts then are. */
  predicate ChecksFollow(x: Job, y: Job, failedCheck: bool) {
    && (Early(y.state) ==> Early(x.state))
    && (y.state == Checking ==>
          if x.state == Checking then y.attempts == x.attempts + if failedCheck then 1 else 0
          else Early(x.state) && y.attempts == 3)
  }

  lemma MeetFollows(x: Job, y: Job, pass: Option<bool>)
    requires Meets(x, y, pass)
    ensures ChecksFollow(x, y, pass == Some(false))
  {
  }

  /** The attempts of a job under check are its three first steps and its failed checks. */
  lemma {:induction false} ChecksAreCounted(t: Table, events: seq<Event>, id: AppId, j: nat)
    requires TableInv(t) && JobAt(t, id, j).Some? && JobAt(t, id, j).value.state == Queued
    ensures JobAt(Run(t, events), id, j).Some?
    ensures Early(JobAt(Run(t, events), id, j).value.state) ==> FailedChecks(t, events, id, j) == 0
    ensures IsChecking(Run(t, events), id, j) ==>
      JobAt(Run(t, events), id, j).value.attempts == 3 + FailedChecks(t, events, id, j)
  {
    if events != [] {
      ChecksAreCounted(t, events[..|events| - 1], id, j);
      LastEvent(t, events, id, j);
      MeetFollows(JobAt(Run(t, events[..|events| - 1]), id, j).value, JobAt(Run(t, events), id, j).value,
                  PassOf(events[|events| - 1], id, j));
    }
  }

  /** What a pass does to a job that was queued at the start of the run: a healthy check switches it, one of
      the first seven failed checks leaves it where it is, the eighth rolls it back, and the pass after fails it. */
  lemma PassOutcome(t: Table, events: seq<Event>, id: AppId, j: nat, healthy: bool)
    requires TableInv(t) && JobAt(t, id, j).Some? && JobAt(t, id, j).value.state == Queued
    requires events != [] && events[|events| - 1] == OnApp(id, WorkerAdvance(j, healthy))
    ensures var front := events[..|events| - 1];
      && JobAt(Run(t, front), id, j).Some? && JobAt(Run(t, events), id, j).Some?
      && JobAt(Run(t, events), id, j).value.state ==
           match JobAt(Run(t, front), id, j).value.state
           case Queued => Pulling
           case Pulling => Starting
           case Starting => Checking
           case Checking => if healthy then Switching
                            else if FailedChecks(t, front, id, j) + 1 < 8 then Checking else RollingBack
           case Switching => Succeeded
           case RollingBack => Failed
           case ended => ended
  {
    var front := events[..|events| - 1];
    ChecksAreCounted(t, front, id, j);
    LastEvent(t, events, id, j);
  }

  // ---------------------------------------------------------------- what is live was healthy

  /** Some pass of the run found job `j` healthy while it was being checked. */
  ghost predicate SeenHealthy(t: Table, events: seq<Event>, id: AppId, j: nat) {
    events != [] &&
      (|| SeenHealthy(t, events[..|events| - 1], id, j)
       || (PassOf(events[|events| - 1], id, j) == Some(true) && IsChecking(Run(t, events[..|events| - 1]), id, j)))
  }

  lemma InsertedIsQueued(a: App, b: App, j: nat)
    requires Extends(a, b) && |a.jobs| <= j < |b.jobs| && InsertAllowed(b)
    ensures b.jobs[j].state == Queued
  {
  }

  lemma NewestIsQueued(t: Table, e: Event, id: AppId, j: nat)
    requires TableInv(t) && id in t && |t[id].jobs| <= j < |EffectOn(t, e, id).jobs|
    ensures EffectOn(t, e, id).jobs[j].state == Queued
  {
    var b := EffectOn(t, e, id);
    EffectHistory(t, e, id);
    InsertedIsQueued(t[id], b, j);
  }

  /** A job appears queued. */
  lemma AppearsQueued(t: Table, e: Event, id: AppId, j: nat)
    requires TableInv(t) && JobAt(t, id, j).None? && JobAt(Apply(t, e), id, j).Some?
    ensures JobAt(Apply(t, e), id, j).value.state == Queued
  {
    if id in t {
      ApplyEffect(t, e, id);
      NewestIsQueued(t, e, id, j);
    } else {
      assert e.CreateApp? && e.id == id;
    }
  }

  lemma {:induction false} SwitchedWasSeenHealthy(events: seq<Event>, id: AppId, j: nat)
    requires JobAt(Run(map[], events), id, j).Some? && Switched(JobAt(Run(map[], events), id, j).value)
    ensures SeenHealthy(map[], events, id, j)
  {
    var front := events[..|events| - 1];
    RunKeeps(map[], front);
    if JobAt(Run(map[], front), id, j).None? {
      AppearsQueued(Run(map[], front), events[|events| - 1], id, j);
    } else {
      LastEvent(map[], events, id, j);
      if Switched(JobAt(Run(map[], front), id, j).value) {
        SwitchedWasSeenHealthy(front, id, j);
      } else {
        SwitchNeedsHealth(map[], events, id, j);
      }
    }
  }

  /** The last successful release is that of a job that succeeded. */
  ghost predicate LiveHasJob(a: App) {
    a.last.Some? ==> exists j: nat :: j < |a.jobs| && a.jobs[j].release == a.last.value && a.jobs[j].state == Succeeded
  }

  lemma OnlySuccessGoesLive(a: App, e: AppEvent)
    requires AppInv(a) && Step(a, e).last != a.last
    ensures e.WorkerAdvance? && e.job < |Step(a, e).jobs|
    ensures Step(a, e).jobs[e.job].state == Succeeded && Step(a, e).last == Some(Step(a, e).jobs[e.job].release)
  {
    match e
    case WorkerAdvance(i, healthy) =>
      if i < |a.jobs| && !Terminal(a.jobs[i].state) {
        CommitShape(a, i, NextStateWithHealth(a.jobs[i].state, healthy, HealthAttempt(a.jobs[i].attempts)).value);
      }
    case WorkerError(_) =>
    case _ => if Quiet(e) { QuietHistory(a, e); }
  }

  lemma UserLeavesLive(a: App, e: UserEvent)
    ensures UserStep(a, e).last == a.last
  {
  }

  lemma LiveJobStays(a: App, b: App)
    requires LiveHasJob(a) && Extends(a, b) && b.last == a.last
    ensures LiveHasJob(b)
  {
    if a.last.Some? {
      var j: nat :| j < |a.jobs| && a.jobs[j].release == a.last.value && a.jobs[j].state == Succeeded;
      assert JobStep(a.jobs[j], b.jobs[j]);
    }
  }

  lemma EffectKeepsLiveJob(t: Table, e: Event, id: AppId)
    requires TableInv(t) && id in t && LiveHasJob(t[id])
    ensures LiveHasJob(EffectOn(t, e, id))
  {
    EffectHistory(t, e, id);
    if EffectOn(t, e, id).last == t[id].last {
      LiveJobStays(t[id], EffectOn(t, e, id));
    } else {
      match e
      case OnApp(_, action) => OnlySuccessGoesLive(t[id], action);
      case OnUser(_, change) => UserLeavesLive(t[id], change);
    }
  }

  lemma {:induction false} LiveFromJob(events: seq<Event>, id: AppId)
    requires id in Run(map[], events)
    ensures LiveHasJob(Run(map[], events)[id])
  {
    var front := events[..|events| - 1];
    RunKeeps(map[], front);
    if id in Run(map[], front) {
      LiveFromJob(front, id);
      EffectKeepsLiveJob(Run(map[], front), events[|events| - 1], id);
      RunEffect(map[], events, id);
    }
  }

  /** In every run from the empty platform the live release, and with it any route, is that of a job which a
      pass found healthy. */
  lemma LiveReleaseWasSeenHealthy(events: seq<Event>, id: AppId, r: nat)
    requires id in Run(map[], events)
    requires Run(map[], events)[id].last == Some(r) || Run(map[], events)[id].route == Some(r)
    ensures var a := Run(map[], events)[id];
      exists j: nat :: j < |a.jobs| && a.jobs[j].release == r && a.jobs[j].state == Succeeded
                       && SeenHealthy(map[], events, id, j)
  {
    var a := Run(map[], events)[id];
    LiveReleaseIsUnique(map[], events, id);
    LiveFromJob(events, id);
    var j: nat :| j < |a.jobs| && a.jobs[j].release == a.last.value && a.jobs[j].state == Succeeded;
    SwitchedWasSeenHealthy(events, id, j);
  }
}
