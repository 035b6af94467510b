/** Safety and termination of the deployment protocol over whole runs. */
module LifecycleTheorems {
  import opened Domain
  import opened Lifecycle
  import opened LifecycleInvariant

  // ---------------------------------------------------------------- safety of every reachable state

  predicate Unroutable(s: AppStatus) {
    s == Suspended || s == Stopping
  }

  /** One operation at a time, the status agrees with it, and nothing suspended or stopping is routed. */
  ghost predicate OneOperation(a: App) {
    && (forall i, j | 0 <= i < |a.jobs| && 0 <= j < |a.jobs| ::
          Terminal(a.jobs[i].state) || Terminal(a.jobs[j].state) || i == j)
    && (ActiveJob(a) ==> InOperation(a.status) && !ActiveRestore(a))
    && (InOperation(a.status) ==> ActiveJob(a) || ActiveRestore(a))
    && (Unroutable(a.status) ==> a.route.None?)
    && (a.status == Stopping ==> ActiveStop(a))
  }

  lemma OneOperationIn(a: App)
    requires AppInv(a)
    ensures OneOperation(a)
  {
    ActiveIsNewest(a);
  }

  /** In every reachable state of every application. */
  lemma OneOperationAtATime(t: Table, events: seq<Event>, id: AppId)
    requires TableInv(t) && id in Run(t, events)
    ensures OneOperation(Run(t, events)[id])
  {
    RunKeeps(t, events);
    OneOperationIn(Run(t, events)[id]);
  }

  /** The last successful release is the one active release, and any route points at it. */
  ghost predicate OneLiveRelease(a: App) {
    && (forall r :: 0 <= r < |a.releases| ==> (a.releases[r].state == Active <==> a.last == Some(r)))
    && (a.last.Some? ==> a.last.value < |a.releases|)
    && (a.route.Some? ==> a.route == a.last)
    && (HasBeenLive(a.status) ==> a.last.Some?)
  }

  lemma OneLiveReleaseIn(a: App)
    requires AppInv(a)
    ensures OneLiveRelease(a)
  {
  }

  lemma LiveReleaseIsUnique(t: Table, events: seq<Event>, id: AppId)
    requires TableInv(t) && id in Run(t, events)
    ensures OneLiveRelease(Run(t, events)[id])
  {
    RunKeeps(t, events);
    OneLiveReleaseIn(Run(t, events)[id]);
  }

  lemma StartOnlyWhenIdle(a: App)
    requires AppInv(a) && StartVerdict(a).Accepted?
    ensures !ActiveJob(a) && !ActiveRestore(a)
  {
    ActiveIsNewest(a);
  }

  /** startApp never looks at deployment_jobs: its status guard alone excludes an unfinished job. */
  lemma StartNeverOverlaps(t: Table, events: seq<Event>, id: AppId)
    requires TableInv(t) && id in Run(t, events)
    requires StartVerdict(Run(t, events)[id]).Accepted?
    ensures !ActiveJob(Run(t, events)[id]) && !ActiveRestore(Run(t, events)[id])
  {
    RunKeeps(t, events);
    StartOnlyWhenIdle(Run(t, events)[id]);
  }

  // ---------------------------------------------------------------- history of one application

  /** What one transaction does to one application. */
  function EffectOn(t: Table, e: Event, id: AppId): App
    requires id in t
  {
    match e
    case CreateApp(_, _, _, _) => t[id]
    case OnApp(other, action) => if other == id && Permitted(t, id, action) then Step(t[id], action) else t[id]
    case OnUser(user, change) => if t[id].owner == user then UserStep(t[id], change) else t[id]
  }

  lemma ApplyEffect(t: Table, e: Event, id: AppId)
    requires id in t
    ensures id in Apply(t, e) && Apply(t, e)[id] == EffectOn(t, e, id)
  {
  }

  lemma RunEffect(t: Table, events: seq<Event>, id: AppId)
    requires events != [] && id in Run(t, events[..|events| - 1])
    ensures id in Run(t, events)
    ensures Run(t, events)[id] == EffectOn(Run(t, events[..|events| - 1]), events[|events| - 1], id)
  {
    ApplyEffect(Run(t, events[..|events| - 1]), events[|events| - 1], id);
  }

  /** What one transaction may do to a deployment row. */
  ghost predicate JobStep(old_: Job, new_: Job) {
    || new_ == old_
    || (&& DeploymentEdge(old_.state, new_.state)
        && TriggerAllows(old_.state, new_.state)
        && new_ == old_.(state := new_.state, attempts := old_.attempts + 1))
  }

  /** Rows are only appended; snapshots, job identities and finished jobs never change. */
  ghost predicate Extends(a: App, b: App) {
    && a.owner == b.owner
    && |a.releases| <= |b.releases| && |a.jobs| <= |b.jobs| <= |a.jobs| + 1
    && (forall r :: 0 <= r < |a.releases| ==> b.releases[r].snapshot == a.releases[r].snapshot)
    && (forall i :: 0 <= i < |a.jobs| ==> JobStep(a.jobs[i], b.jobs[i]))
  }

  /** The checks of the integrity trigger and of the unique index on an inserted job. */
  ghost predicate InsertAllowed(b: App) {
    && |b.jobs| > 0
    && (forall i :: 0 <= i < |b.jobs| - 1 ==> Terminal(b.jobs[i].state))
    && var job := b.jobs[|b.jobs| - 1];
    && job.state == Queued && job.attempts == 0 && job.release < |b.releases|
    && (job.source.Some? ==> job.source.value < |b.releases|)
    && match job.operation {
      case Deploy => job.source.None? && b.releases[job.release].state == Created
      case Update => job.source.None? && b.releases[job.release].state == Created
      case Rollback =>
        && b.releases[job.release].state == Created && job.source.Some? && job.source.value != job.release
        && b.releases[job.source.value].state in {Active, Superseded}
        && b.releases[job.release].snapshot == b.releases[job.source.value].snapshot
      case Start =>
        && b.releases[job.release].state == Created && job.source.Some? && job.source.value != job.release
        && b.releases[job.source.value].state == Active && job.source == b.last
        && b.releases[job.release].snapshot == b.releases[job.source.value].snapshot
      case _ => job.source == Some(job.release) && b.releases[job.release].state == Active
    }
  }

  /** The steps that touch neither jobs nor releases. */
  predicate Quiet(e: AppEvent) {
    !(e.RequestUpdate? || e.RequestRollback? || e.RequestStart? || e.WorkerAdvance? || e.WorkerError?)
  }

  lemma QuietHistory(a: App, e: AppEvent)
    requires Quiet(e)
    ensures Step(a, e) == a.(status := Step(a, e).status, reason := Step(a, e).reason,
                             route := Step(a, e).route, deleted := Step(a, e).deleted,
                             restores := Step(a, e).restores, stops := Step(a, e).stops)
  {
  }

  lemma CommitShape(a: App, i: nat, next: DeploymentState)
    requires i < |a.jobs|
    ensures var job, b := a.jobs[i], CommitStep(a, i, next);
      && b.owner == a.owner
      && b.jobs == a.jobs[i := job.(state := next, attempts := job.attempts + 1)]
      && |b.releases| == |a.releases|
      && (forall r :: 0 <= r < |a.releases| ==> b.releases[r].snapshot == a.releases[r].snapshot)
      && (next != Succeeded ==> b.last == a.last && b.route == a.route)
      && (forall r :: 0 <= r < |a.releases| && next != Succeeded && (r != job.release || IsRecovery(job.operation))
            ==> b.releases[r] == a.releases[r])
  {
  }

  lemma AdvanceHistory(a: App, i: nat, healthy: bool)
    requires AppInv(a)
    ensures Extends(a, AdvanceJob(a, i, healthy)) && |AdvanceJob(a, i, healthy).jobs| == |a.jobs|
  {
    if i < |a.jobs| && !Terminal(a.jobs[i].state) {
      CommitShape(a, i, NextStateWithHealth(a.jobs[i].state, healthy, HealthAttempt(a.jobs[i].attempts)).value);
    }
  }

  lemma ErrorHistory(a: App, i: nat)
    requires AppInv(a)
    ensures Extends(a, FailJob(a, i)) && |FailJob(a, i).jobs| == |a.jobs|
  {
  }

  lemma CreateReleaseHistory(a: App, source: Option<nat>, built: Snapshot, key: string)
    requires AppInv(a)
    ensures Extends(a, CreateRelease(a, source, built, key))
    ensures ReleaseVerdict(a, source).Accepted? ==> InsertAllowed(CreateRelease(a, source, built, key))
  {
  }

  lemma StartHistory(a: App, key: string)
    requires AppInv(a)
    ensures Extends(a, StartApp(a, key))
    ensures StartVerdict(a).Accepted? ==> InsertAllowed(StartApp(a, key))
  {
    ActiveIsNewest(a);
  }

  lemma AppStepHistory(a: App, e: AppEvent)
    requires AppInv(a)
    ensures Extends(a, Step(a, e))
    ensures |Step(a, e).jobs| > |a.jobs| ==> InsertAllowed(Step(a, e))
  {
    match e
    case RequestUpdate(built, key) => CreateReleaseHistory(a, None, built, key);
    case RequestRollback(source, key) => CreateReleaseHistory(a, Some(source), 0, key);
    case RequestStart(key) => StartHistory(a, key);
    case WorkerAdvance(job, healthy) => AdvanceHistory(a, job, healthy);
    case WorkerError(job) => ErrorHistory(a, job);
    case _ => QuietHistory(a, e);
  }

  /** In a consistent application the unconditional UPDATE only completes the INSERT before it. */
  lemma SettlementIs(a: App, outcome: Settlement, suffix: string)
    requires AppInv(a)
    ensures SettleUsage(a, outcome, suffix)
         == (if outcome.Insufficient? || outcome.belowReserve then Suspend(a)
             else if outcome.morePending then a
             else Resume(a, BillingInsufficient, BillingRecovery, BILLING_KEY, suffix))
  {
    SuspendKeeps(a);
    NothingToMark(a, BillingInsufficient, BILLING_KEY);
    NothingToMark(Suspend(a), BillingInsufficient, BILLING_KEY);
  }

  lemma SuspendHistory(a: App)
    ensures Suspend(a) == a.(status := Suspend(a).status, reason := Suspend(a).reason, route := Suspend(a).route)
  {
  }

  lemma ResumeHistory(a: App, reason: Reason, op: Operation, prefix: string, suffix: string)
    requires AppInv(a) && IsRecovery(op)
    ensures var b := Resume(a, reason, op, prefix, suffix);
      Extends(a, b) && (|b.jobs| > |a.jobs| ==> InsertAllowed(b))
  {
    if a.status == Suspended && a.reason == Some(reason) {
      ActiveIsNewest(a);
      ResumeIs(a, reason, op, prefix, suffix);
    }
  }

  lemma UserStepHistory(a: App, e: UserEvent)
    requires AppInv(a)
    ensures Extends(a, UserStep(a, e))
    ensures |UserStep(a, e).jobs| > |a.jobs| ==> InsertAllowed(UserStep(a, e))
  {
    match e
    case UsageSettled(outcome, suffix) =>
      SettlementIs(a, outcome, suffix);
      SuspendHistory(a);
      ResumeHistory(a, BillingInsufficient, BillingRecovery, BILLING_KEY, suffix);
    case SubscriptionPaid(reference, suffix) =>
      ResumeHistory(a, SubscriptionExpired, SubscriptionRecovery, reference + "/", suffix);
  }

  lemma EffectHistory(t: Table, e: Event, id: AppId)
    requires TableInv(t) && id in t
    ensures Extends(t[id], EffectOn(t, e, id))
    ensures |EffectOn(t, e, id).jobs| > |t[id].jobs| ==> InsertAllowed(EffectOn(t, e, id))
  {
    match e
    case CreateApp(_, _, _, _) =>
    case OnApp(_, action) => AppStepHistory(t[id], action);
    case OnUser(_, change) => UserStepHistory(t[id], change);
  }

  /** Every job transition is an edge of both tables, and no inserted job is ever refused. */
  lemma StepHistory(t: Table, e: Event, id: AppId)
    requires TableInv(t) && id in t
    ensures id in Apply(t, e) && Extends(t[id], Apply(t, e)[id])
    ensures |Apply(t, e)[id].jobs| > |t[id].jobs| ==> InsertAllowed(Apply(t, e)[id])
  {
    ApplyEffect(t, e, id);
    EffectHistory(t, e, id);
  }

  // ---------------------------------------------------------------- no way back from the route switch

  predicate Switched(job: Job) {
    job.state == Switching || job.state == Succeeded
  }

  lemma AppStepStaysSwitched(a: App, e: AppEvent, j: nat)
    requires j < |a.jobs| && Switched(a.jobs[j])
    ensures j < |Step(a, e).jobs| && Switched(Step(a, e).jobs[j])
  {
    match e
    case WorkerAdvance(i, healthy) =>
      if i < |a.jobs| && !Terminal(a.jobs[i].state) {
        CommitShape(a, i, NextStateWithHealth(a.jobs[i].state, healthy, HealthAttempt(a.jobs[i].attempts)).value);
      }
    case _ =>
  }

  lemma UserStepStaysSwitched(a: App, e: UserEvent, j: nat)
    requires j < |a.jobs| && Switched(a.jobs[j])
    ensures j < |UserStep(a, e).jobs| && Switched(UserStep(a, e).jobs[j])
  {
  }

  lemma EffectStaysSwitched(t: Table, e: Event, id: AppId, j: nat)
    requires id in t && j < |t[id].jobs| && Switched(t[id].jobs[j])
    ensures j < |EffectOn(t, e, id).jobs| && Switched(EffectOn(t, e, id).jobs[j])
  {
    match e
    case CreateApp(_, _, _, _) =>
    case OnApp(_, action) => AppStepStaysSwitched(t[id], action, j);
    case OnUser(_, change) => UserStepStaysSwitched(t[id], change, j);
  }

  /** A job that has reached switching_route is switching or succeeded after every further run: no
      error, health result or request fails it or rolls it back, so that edge of the table is never taken. */
  lemma {:induction false} SwitchingNeverRollsBack(t: Table, events: seq<Event>, id: AppId, j: nat)
    requires id in t && j < |t[id].jobs| && Switched(t[id].jobs[j])
    ensures id in Run(t, events) && j < |Run(t, events)[id].jobs| && Switched(Run(t, events)[id].jobs[j])
  {
    if events != [] {
      SwitchingNeverRollsBack(t, events[..|events| - 1], id, j);
      EffectStaysSwitched(Run(t, events[..|events| - 1]), events[|events| - 1], id, j);
      RunEffect(t, events, id);
    }
  }

  // ---------------------------------------------------------------- a job that fails changes nothing live

  /** `b` still serves what `a` served; only the job's own new release may differ. */
  ghost predicate StillServes(a: App, b: App, j: nat)
    requires j < |a.jobs|
  {
    && b.last == a.last && b.route == a.route && |a.releases| <= |b.releases|
    && (forall r :: 0 <= r < |a.releases| && (r != a.jobs[j].release || IsRecovery(a.jobs[j].operation))
          ==> b.releases[r] == a.releases[r])
  }

  lemma OneUnfinished(a: App, i: nat, j: nat)
    requires NewestOnly(a) && i < |a.jobs| && j < |a.jobs|
    requires !Terminal(a.jobs[i].state) && !Terminal(a.jobs[j].state)
    ensures i == j
  {
  }

  lemma AdvanceServes(a: App, i: nat, healthy: bool, j: nat)
    requires NewestOnly(a) && j < |a.jobs| && !Terminal(a.jobs[j].state)
    requires AdvanceJob(a, i, healthy).jobs[j].state != Succeeded
    ensures StillServes(a, AdvanceJob(a, i, healthy), j)
  {
    if i < |a.jobs| && !Terminal(a.jobs[i].state) {
      OneUnfinished(a, i, j);
      CommitShape(a, i, NextStateWithHealth(a.jobs[i].state, healthy, HealthAttempt(a.jobs[i].attempts)).value);
    }
  }

  lemma FailShape(a: App, i: nat)
    requires i < |a.jobs| && !Terminal(a.jobs[i].state)
    ensures StillServes(a, FailJob(a, i), i)
  {
  }

  lemma ErrorServes(a: App, i: nat, j: nat)
    requires NewestOnly(a) && j < |a.jobs| && !Terminal(a.jobs[j].state)
    ensures StillServes(a, FailJob(a, i), j)
  {
    if i < |a.jobs| && !Terminal(a.jobs[i].state) {
      OneUnfinished(a, i, j);
      FailShape(a, j);
    }
  }

  lemma AppStepServes(a: App, e: AppEvent, j: nat)
    requires AppInv(a) && j < |a.jobs| && !Terminal(a.jobs[j].state)
    requires j < |Step(a, e).jobs| && Step(a, e).jobs[j].state != Succeeded
    ensures StillServes(a, Step(a, e), j)
  {
    assert ActiveJob(a);
    match e
    case WorkerAdvance(job, healthy) => AdvanceServes(a, job, healthy, j);
    case WorkerError(job) => ErrorServes(a, job, j);
    case _ => if Quiet(e) { QuietHistory(a, e); }
  }

  lemma UserStepServes(a: App, e: UserEvent, j: nat)
    requires AppInv(a) && j < |a.jobs| && !Terminal(a.jobs[j].state)
    ensures UserStep(a, e) == a
  {
    ActiveIsNewest(a);
    if e.UsageSettled? { SettlementIs(a, e.outcome, e.suffix); }
  }

  lemma EffectServes(t: Table, e: Event, id: AppId, j: nat)
    requires TableInv(t) && id in t && j < |t[id].jobs| && !Terminal(t[id].jobs[j].state)
    requires j < |EffectOn(t, e, id).jobs| && EffectOn(t, e, id).jobs[j].state != Succeeded
    ensures StillServes(t[id], EffectOn(t, e, id), j)
  {
    match e
    case CreateApp(_, _, _, _) =>
    case OnApp(_, action) =>
      if EffectOn(t, e, id) == Step(t[id], action) { AppStepServes(t[id], action, j); }
    case OnUser(_, change) => UserStepServes(t[id], change, j);
  }

  lemma StillServesComposes(a: App, b: App, c: App, j: nat)
    requires j < |a.jobs| && j < |b.jobs| && StillServes(a, b, j) && StillServes(b, c, j)
    requires b.jobs[j].release == a.jobs[j].release && b.jobs[j].operation == a.jobs[j].operation
    ensures StillServes(a, c, j)
  {
  }

  lemma {:induction false} AppsPersist(t: Table, events: seq<Event>, id: AppId)
    requires TableInv(t) && id in t
    ensures id in Run(t, events) && |t[id].jobs| <= |Run(t, events)[id].jobs|
    ensures forall i :: 0 <= i < |t[id].jobs| ==>
      Run(t, events)[id].jobs[i] == t[id].jobs[i].(state := Run(t, events)[id].jobs[i].state,
                                                   attempts := Run(t, events)[id].jobs[i].attempts)
  {
    if events != [] {
      var before := Run(t, events[..|events| - 1]);
      AppsPersist(t, events[..|events| - 1], id);
      RunKeeps(t, events[..|events| - 1]);
      StepHistory(before, events[|events| - 1], id);
    }
  }

  /** Job `j` is unfinished in `t` and after every proper prefix of the run. */
  ghost predicate BusyThroughout(t: Table, events: seq<Event>, id: AppId, j: nat) {
    forall k :: 0 <= k < |events| ==>
      var now := Run(t, events[..k]);
      id in now && j < |now[id].jobs| && !Terminal(now[id].jobs[j].state)
  }

  lemma BusyBefore(t: Table, events: seq<Event>, id: AppId, j: nat)
    requires events != [] && BusyThroughout(t, events, id, j)
    ensures BusyThroughout(t, events[..|events| - 1], id, j)
    ensures var before := Run(t, events[..|events| - 1]);
      id in before && j < |before[id].jobs| && !Terminal(before[id].jobs[j].state)
  {
    var front := events[..|events| - 1];
    forall k | 0 <= k < |front| ensures front[..k] == events[..k] {}
    assert events[..|front|] == front;
  }

  lemma {:induction false} UnfinishedServes(t: Table, events: seq<Event>, id: AppId, j: nat)
    requires TableInv(t) && id in t && j < |t[id].jobs| && BusyThroughout(t, events, id, j)
    requires id in Run(t, events) && j < |Run(t, events)[id].jobs|
    requires Run(t, events)[id].jobs[j].state != Succeeded
    ensures StillServes(t[id], Run(t, events)[id], j)
  {
    if events != [] {
      var front := events[..|events| - 1];
      BusyBefore(t, events, id, j);
      UnfinishedServes(t, front, id, j);
      RunKeeps(t, front);
      AppsPersist(t, front, id);
      RunEffect(t, events, id);
      EffectServes(Run(t, front), events[|events| - 1], id, j);
      StillServesComposes(t[id], Run(t, front)[id], Run(t, events)[id], j);
    }
  }

  /** From the moment a job is queued to the moment it fails, whatever else happens in between, the
      route, the last successful release and every other release stay as they were. For a recovery
      job that redeploys the live release this covers the live release itself. */
  lemma FailureLeavesLiveReleaseAlone(t: Table, events: seq<Event>, id: AppId, j: nat)
    requires TableInv(t) && id in t && j < |t[id].jobs|
    requires BusyThroughout(t, events, id, j)
    requires id in Run(t, events) && j < |Run(t, events)[id].jobs|
    requires Run(t, events)[id].jobs[j].state != Succeeded
    ensures StillServes(t[id], Run(t, events)[id], j)
    ensures t[id].last.Some? ==>
      var live := t[id].last.value;
      live < |Run(t, events)[id].releases| && Run(t, events)[id].releases[live].state == Active
  {
    UnfinishedServes(t, events, id, j);
    RunKeeps(t, events);
    OneLiveReleaseIn(Run(t, events)[id]);
  }

  // ---------------------------------------------------------------- a job ends

  function JobAt(t: Table, id: AppId, j: nat): Option<Job> {
    if id in t && j < |t[id].jobs| then Some(t[id].jobs[j]) else None
  }

  predicate Changed(x: Option<Job>, y: Option<Job>) {
    x.Some? && y.Some? && x != y
  }

  predicate FailedCheck(x: Option<Job>, y: Option<Job>) {
    Changed(x, y) && x.value.state == Checking && (y.value.state == Checking || y.value.state == RollingBack)
  }

  /** How many transactions of the run changed job `j`. */
  ghost function Steps(t: Table, events: seq<Event>, id: AppId, j: nat): nat {
    if events == [] then 0 else
      Steps(t, events[..|events| - 1], id, j) +
      if Changed(JobAt(Run(t, events[..|events| - 1]), id, j), JobAt(Run(t, events), id, j)) then 1 else 0
  }

  /** How many of them were failed health checks. */
  ghost function Unhealthy(t: Table, events: seq<Event>, id: AppId, j: nat): nat {
    if events == [] then 0 else
      Unhealthy(t, events[..|events| - 1], id, j) +
      if FailedCheck(JobAt(Run(t, events[..|events| - 1]), id, j), JobAt(Run(t, events), id, j)) then 1 else 0
  }

  predicate IsPass(e: Event, id: AppId, j: nat) {
    e.OnApp? && e.id == id && e.action.WorkerAdvance? && e.action.job == j
  }

  /** How many committed worker passes reached job `j`. */
  function Passes(events: seq<Event>, id: AppId, j: nat): nat {
    if events == [] then 0 else
      Passes(events[..|events| - 1], id, j) + if IsPass(events[|events| - 1], id, j) then 1 else 0
  }

  /** Failed checks a job in this state can have behind it. */
  function UnhealthyBound(job: Job): int {
    match job.state
    case Checking => job.attempts - 3
    case Switching => job.attempts - 4
    case Succeeded => job.attempts - 5
    case RollingBack => 8
    case Failed => 8
    case _ => 0
  }

  lemma BoundFollows(x: Job, y: Job)
    requires JobStep(x, y) && AttemptsFit(x) && AttemptsFit(y)
    ensures UnhealthyBound(y) >= UnhealthyBound(x) + if FailedCheck(Some(x), Some(y)) then 1 else 0
  {
  }

  lemma PassAlwaysCommits(a: App, j: nat, healthy: bool)
    requires j < |a.jobs| && !Terminal(a.jobs[j].state)
    ensures j < |AdvanceJob(a, j, healthy).jobs|
    ensures AdvanceJob(a, j, healthy).jobs[j].attempts == a.jobs[j].attempts + 1
  {
    CommitShape(a, j, NextStateWithHealth(a.jobs[j].state, healthy, HealthAttempt(a.jobs[j].attempts)).value);
  }

  lemma PassChangesJob(t: Table, e: Event, id: AppId, j: nat)
    requires id in t && j < |t[id].jobs| && !Terminal(t[id].jobs[j].state) && IsPass(e, id, j)
    ensures j < |EffectOn(t, e, id).jobs| && EffectOn(t, e, id).jobs[j] != t[id].jobs[j]
  {
    PassAlwaysCommits(t[id], j, e.action.healthy);
  }

  lemma JobRemains(t: Table, events: seq<Event>, id: AppId, j: nat)
    requires TableInv(t) && JobAt(t, id, j).Some?
    ensures JobAt(Run(t, events), id, j).Some? && AttemptsFit(JobAt(Run(t, events), id, j).value)
  {
    AppsPersist(t, events, id);
    RunKeeps(t, events);
  }

  /** What the last transaction of a run can have done to a job. */
  lemma LastStep(t: Table, events: seq<Event>, id: AppId, j: nat)
    requires TableInv(t) && JobAt(t, id, j).Some? && events != []
    ensures var x, y := JobAt(Run(t, events[..|events| - 1]), id, j), JobAt(Run(t, events), id, j);
      && x.Some? && y.Some? && JobStep(x.value, y.value) && AttemptsFit(x.value) && AttemptsFit(y.value)
      && (!Terminal(x.value.state) && IsPass(events[|events| - 1], id, j) ==> x != y)
  {
    var before, e := Run(t, events[..|events| - 1]), events[|events| - 1];
    JobRemains(t, events[..|events| - 1], id, j);
    JobRemains(t, events, id, j);
    RunKeeps(t, events[..|events| - 1]);
    RunEffect(t, events, id);
    EffectHistory(before, e, id);
    if !Terminal(before[id].jobs[j].state) && IsPass(e, id, j) { PassChangesJob(before, e, id, j); }
  }

  lemma {:induction false} AttemptsAreSteps(t: Table, events: seq<Event>, id: AppId, j: nat)
    requires TableInv(t) && JobAt(t, id, j).Some?
    ensures JobAt(Run(t, events), id, j).Some?
    ensures JobAt(Run(t, events), id, j).value.attempts == JobAt(t, id, j).value.attempts + Steps(t, events, id, j)
  {
    if events != [] {
      AttemptsAreSteps(t, events[..|events| - 1], id, j);
      LastStep(t, events, id, j);
    }
  }

  lemma {:induction false} UnhealthyIsBounded(t: Table, events: seq<Event>, id: AppId, j: nat)
    requires TableInv(t) && JobAt(t, id, j).Some?
    ensures JobAt(Run(t, events), id, j).Some?
    ensures Unhealthy(t, events, id, j) + UnhealthyBound(JobAt(t, id, j).value)
         <= UnhealthyBound(JobAt(Run(t, events), id, j).value)
  {
    if events != [] {
      UnhealthyIsBounded(t, events[..|events| - 1], id, j);
      LastStep(t, events, id, j);
      BoundFollows(JobAt(Run(t, events[..|events| - 1]), id, j).value, JobAt(Run(t, events), id, j).value);
    }
  }

  lemma {:induction false} PassesAreSteps(t: Table, events: seq<Event>, id: AppId, j: nat)
    requires TableInv(t) && JobAt(t, id, j).Some?
    ensures JobAt(Run(t, events), id, j).Some?
    ensures !Terminal(JobAt(Run(t, events), id, j).value.state) ==> Passes(events, id, j) <= Steps(t, events, id, j)
  {
    if events != [] {
      PassesAreSteps(t, events[..|events| - 1], id, j);
      LastStep(t, events, id, j);
    }
  }

  /** The attempts column counts the transactions that changed a job, and its state bounds how many of
      them were failed health checks. */
  lemma StepsAreAttempts(t: Table, events: seq<Event>, id: AppId, j: nat)
    requires TableInv(t) && JobAt(t, id, j).Some?
    ensures JobAt(Run(t, events), id, j).Some?
    ensures var x, y := JobAt(t, id, j).value, JobAt(Run(t, events), id, j).value;
      && y.attempts == x.attempts + Steps(t, events, id, j)
      && Unhealthy(t, events, id, j) + UnhealthyBound(x) <= UnhealthyBound(y)
      && (!Terminal(y.state) ==> Passes(events, id, j) <= Steps(t, events, id, j))
  {
    AttemptsAreSteps(t, events, id, j);
    UnhealthyIsBounded(t, events, id, j);
    PassesAreSteps(t, events, id, j);
  }

  /** A queued job is changed by at most twelve transactions, at most eight of them failed health
      checks, and it has ended once the worker has reached it twelve times. */
  lemma JobEnds(t: Table, events: seq<Event>, id: AppId, j: nat)
    requires TableInv(t) && JobAt(t, id, j).Some? && JobAt(t, id, j).value.state == Queued
    ensures Steps(t, events, id, j) <= 12
    ensures Unhealthy(t, events, id, j) <= 8
    ensures JobAt(Run(t, events), id, j).Some?
    ensures Passes(events, id, j) >= 12 ==> Terminal(JobAt(Run(t, events), id, j).value.state)
  {
    StepsAreAttempts(t, events, id, j);
    JobRemains(t, [], id, j);
    JobRemains(t, events, id, j);
  }

  // ---------------------------------------------------------------- the queue of restores

  /** The application and that of every older queued restore have a route. */
  predicate Served(t: Table, id: AppId, k: nat)
    requires QueuedRestore(t, id, k)
  {
    && t[id].route.Some?
    && forall other :: other in t && OlderQueuedIn(t[other], t[id].restores[k].created) ==> t[other].route.Some?
  }

  predicate Finished(t: Table, id: AppId, k: nat) {
    id in t && k < |t[id].restores| && t[id].restores[k].status in {RestoreSucceeded, RestoreFailed}
  }

  /** While its restore is queued an application keeps its restores and its route. */
  lemma QueuedAppStays(a: App, e: AppEvent)
    requires AppInv(a) && |a.restores| > 0 && a.restores[|a.restores| - 1].status == RestoreQueued
    requires e.RestoreClaimed? ==> a.route.None?
    ensures Step(a, e).restores == a.restores && Step(a, e).route == a.route
  {
    ActiveIsNewest(a);
    match e
    case WorkerAdvance(_, _) =>
    case WorkerError(_) =>
    case _ =>
  }

  lemma QueuedUserStays(a: App, e: UserEvent)
    requires AppInv(a) && |a.restores| > 0 && a.restores[|a.restores| - 1].status == RestoreQueued
    ensures UserStep(a, e) == a
  {
    ActiveIsNewest(a);
    if e.UsageSettled? { SettlementIs(a, e.outcome, e.suffix); }
  }

  lemma QueuedIsNewest(t: Table, id: AppId, k: nat)
    requires TableInv(t) && QueuedRestore(t, id, k)
    ensures k == |t[id].restores| - 1
  {
    assert PendingRestore(t[id].restores[k]);
  }

  lemma QueuedEffectStays(t: Table, e: Event, id: AppId, k: nat)
    requires TableInv(t) && QueuedRestore(t, id, k)
    requires e == OnApp(id, RestoreClaimed(k)) ==> t[id].route.None? || HasOlderQueued(t, t[id].restores[k].created)
    ensures EffectOn(t, e, id).restores == t[id].restores && EffectOn(t, e, id).route == t[id].route
  {
    QueuedIsNewest(t, id, k);
    match e
    case CreateApp(_, _, _, _) =>
    case OnApp(other, action) =>
      if other == id && Permitted(t, id, action) {
        if action.RestoreClaimed? { QueuedIsNewest(t, id, action.restore); }
        QueuedAppStays(t[id], action);
      }
    case OnUser(_, change) => QueuedUserStays(t[id], change);
  }

  /** An application whose queued restore is not the one claimed stays as it is in both respects. */
  lemma QueuedStays(t: Table, e: Event, id: AppId, k: nat)
    requires TableInv(t) && QueuedRestore(t, id, k)
    requires e == OnApp(id, RestoreClaimed(k)) ==> t[id].route.None? || HasOlderQueued(t, t[id].restores[k].created)
    ensures id in Apply(t, e) && Apply(t, e)[id].restores == t[id].restores && Apply(t, e)[id].route == t[id].route
  {
    ApplyEffect(t, e, id);
    QueuedEffectStays(t, e, id, k);
  }

  /** A queued restore older than `created` whose application has no route. */
  predicate Blocked(t: Table, other: AppId, l: nat, created: int) {
    QueuedRestore(t, other, l) && t[other].restores[l].created < created && t[other].route.None?
  }

  lemma BlockedIsNotServed(t: Table, id: AppId, k: nat)
    requires QueuedRestore(t, id, k)
    ensures var created := t[id].restores[k].created;
      !Served(t, id, k) <==> t[id].route.None? || exists other, l :: Blocked(t, other, l, created)
  {
    var created := t[id].restores[k].created;
    if other, l :| Blocked(t, other, l, created) {
      assert OlderQueuedIn(t[other], created);
    } else if t[id].route.Some? {
      forall other | other in t && OlderQueuedIn(t[other], created) ensures t[other].route.Some? {
        var l: nat :| QueuedRestore(t, other, l) && t[other].restores[l].created < created;
        assert !Blocked(t, other, l, created);
      }
    }
  }

  lemma BlockedStays(t: Table, e: Event, other: AppId, l: nat, created: int)
    requires TableInv(t) && Blocked(t, other, l, created)
    ensures Blocked(Apply(t, e), other, l, created)
  {
    QueuedStays(t, e, other, l);
  }

  lemma OlderMeansWaiting(t: Table, other: AppId, l: nat, created: int)
    requires Blocked(t, other, l, created)
    ensures HasOlderQueued(t, created)
  {
    assert OlderQueuedIn(t[other], created);
  }

  /** A queued restore that is not served stays queued and not served. */
  lemma UnservedStays(t: Table, e: Event, id: AppId, k: nat)
    requires TableInv(t) && QueuedRestore(t, id, k) && !Served(t, id, k)
    ensures QueuedRestore(Apply(t, e), id, k) && !Served(Apply(t, e), id, k)
    ensures Apply(t, e)[id].restores == t[id].restores
  {
    var created := t[id].restores[k].created;
    BlockedIsNotServed(t, id, k);
    if other, l :| Blocked(t, other, l, created) {
      OlderMeansWaiting(t, other, l, created);
      BlockedStays(t, e, other, l, created);
    }
    QueuedStays(t, e, id, k);
    BlockedIsNotServed(Apply(t, e), id, k);
  }

  /** One queued restore without a route starves every later one, in every run. */
  lemma {:induction false} UnservedWaitsForever(t: Table, events: seq<Event>, id: AppId, k: nat)
    requires TableInv(t) && QueuedRestore(t, id, k) && !Served(t, id, k)
    ensures QueuedRestore(Run(t, events), id, k) && !Served(Run(t, events), id, k)
  {
    if events != [] {
      UnservedWaitsForever(t, events[..|events| - 1], id, k);
      RunKeeps(t, events[..|events| - 1]);
      UnservedStays(Run(t, events[..|events| - 1]), events[|events| - 1], id, k);
    }
  }

  ghost predicate WaitingUnrouted(a: App) {
    a.route.None? && |a.restores| > 0 && a.restores[|a.restores| - 1].status == RestoreQueued
  }

  lemma UnroutedIsWaiting(t: Table, id: AppId, k: nat)
    requires TableInv(t) && QueuedRestore(t, id, k) && t[id].route.None?
    ensures WaitingUnrouted(t[id]) && t[id].status == Updating
  {
    QueuedIsNewest(t, id, k);
    assert PendingRestore(t[id].restores[k]);
  }

  /** In particular a restore of an application without a route leaves it updating for good. */
  lemma UnroutedRestoreWaitsForever(t: Table, events: seq<Event>, id: AppId)
    requires TableInv(t) && id in t && WaitingUnrouted(t[id])
    ensures id in Run(t, events) && WaitingUnrouted(Run(t, events)[id]) && Run(t, events)[id].status == Updating
  {
    var k := |t[id].restores| - 1;
    UnroutedWaits(t, events, id, k);
    RunKeeps(t, events);
    UnroutedIsWaiting(Run(t, events), id, k);
  }

  lemma {:induction false} UnroutedWaits(t: Table, events: seq<Event>, id: AppId, k: nat)
    requires TableInv(t) && QueuedRestore(t, id, k) && t[id].route.None?
    ensures QueuedRestore(Run(t, events), id, k) && Run(t, events)[id].route.None?
  {
    if events != [] {
      UnroutedWaits(t, events[..|events| - 1], id, k);
      RunKeeps(t, events[..|events| - 1]);
      QueuedStays(Run(t, events[..|events| - 1]), events[|events| - 1], id, k);
    }
  }

  lemma FailedUpdateIs(a: App, built: Snapshot, key: string)
    requires AppInv(a) && a.status == Stopped && a.last.Some?
    ensures FailJob(CreateRelease(a, None, built, key), |a.jobs|)
         == a.(releases := a.releases + [Release(built, Abandoned)],
               jobs := a.jobs + [Job(|a.releases|, key, Update, None, Failed, 1)], status := Running, reason := None)
  {
    ActiveIsNewest(a);
  }

  lemma RestoreIsQueued(a: App, at: int)
    requires NewestOnly(a) && !NewestRestoreActive(a) && a.status == Running
    ensures RestoreApp(a, at) == a.(restores := a.restores + [Restore(RestoreQueued, at)], status := Updating)
  {
    ActiveIsNewest(a);
  }

  /** The situation arises: update a stopped application, let the job fail, ask for a restore. */
  lemma UnroutedRestoreArises(a: App, built: Snapshot, key: string, at: int)
    requires AppInv(a) && a.status == Stopped && a.last.Some? && a.route.None?
    ensures var b := RestoreApp(FailJob(CreateRelease(a, None, built, key), |a.jobs|), at);
      AppInv(b) && WaitingUnrouted(b)
  {
    var updating := CreateRelease(a, None, built, key);
    CreateReleaseKeeps(a, None, built, key);
    FailKeeps(updating, |a.jobs|);
    RestoreAppKeeps(FailJob(updating, |a.jobs|), at);
    FailedUpdateIs(a, built, key);
    RestoreIsQueued(FailJob(updating, |a.jobs|), at);
  }

  function ClaimAndFinish(id: AppId, k: nat): seq<Event> {
    [OnApp(id, RestoreClaimed(k)), OnApp(id, RestoreFinished(k, true, true))]
  }

  function Restored(a: App, k: nat): App
    requires k < |a.restores|
  {
    a.(restores := a.restores[k := a.restores[k].(status := RestoreSucceeded)], status := Running)
  }

  /** An oldest queued restore with a route runs to its end. */
  lemma HeadFinishes(t: Table, id: AppId, k: nat)
    requires QueuedRestore(t, id, k) && !HasOlderQueued(t, t[id].restores[k].created) && t[id].route.Some?
    ensures Run(t, ClaimAndFinish(id, k)) == t[id := Restored(t[id], k)]
  {
    var claim, finish := OnApp(id, RestoreClaimed(k)), OnApp(id, RestoreFinished(k, true, true));
    var running := t[id].(restores := t[id].restores[k := t[id].restores[k].(status := RestoreRunning)]);
    assert Apply(t, claim) == t[id := running];
    assert FinishRestore(running, k, true, true) == Restored(t[id], k);
    assert Apply(t[id := running], finish) == t[id := Restored(t[id], k)];
    assert [claim, finish][..1] == [claim] && [claim][..0] == [];
    assert Run(t, [claim]) == Apply(t, claim);
    assert Run(t, [claim, finish]) == Apply(Run(t, [claim]), finish);
  }

  lemma {:induction false} RunsCompose(t: Table, first: seq<Event>, second: seq<Event>)
    ensures Run(t, first + second) == Run(Run(t, first), second)
  {
    if second == [] {
      assert first + second == first;
    } else {
      RunsCompose(t, first, second[..|second| - 1]);
      assert (first + second)[..|first + second| - 1] == first + second[..|second| - 1];
    }
  }

  function OlderApps(t: Table, created: int): set<AppId> {
    set other | other in t && OlderQueuedIn(t[other], created)
  }

  lemma SubsetIsSmaller(a: set<AppId>, b: set<AppId>)
    requires a < b
    ensures |a| < |b|
  {
    assert b == a + (b - a) && b - a != {};
  }

  lemma NotOlderThanItself(t: Table, id: AppId, k: nat)
    requires TableInv(t) && QueuedRestore(t, id, k)
    ensures !OlderQueuedIn(t[id], t[id].restores[k].created)
  {
    forall l | 0 <= l < |t[id].restores| && t[id].restores[l].status == RestoreQueued ensures l == k {
      QueuedIsNewest(t, id, l);
      QueuedIsNewest(t, id, k);
    }
  }

  lemma FewerOlder(t: Table, id: AppId, k: nat, created: int)
    requires TableInv(t) && QueuedRestore(t, id, k) && t[id].restores[k].created < created
    ensures |OlderApps(t, t[id].restores[k].created)| < |OlderApps(t, created)|
  {
    var mine := t[id].restores[k].created;
    NotOlderThanItself(t, id, k);
    assert OlderQueuedIn(t[id], created);
    assert OlderApps(t, mine) <= OlderApps(t, created);
    assert id in OlderApps(t, created) && id !in OlderApps(t, mine);
    SubsetIsSmaller(OlderApps(t, mine), OlderApps(t, created));
  }

  /** Among the queued restores older than `created` there is an oldest. */
  lemma OldestQueued(t: Table, created: int) returns (id: AppId, k: nat)
    requires TableInv(t) && HasOlderQueued(t, created)
    ensures QueuedRestore(t, id, k) && t[id].restores[k].created < created
    ensures !HasOlderQueued(t, t[id].restores[k].created)
    decreases |OlderApps(t, created)|
  {
    id :| id in t && OlderQueuedIn(t[id], created);
    k :| 0 <= k < |t[id].restores| && t[id].restores[k].status == RestoreQueued && t[id].restores[k].created < created;
    var mine := t[id].restores[k].created;
    if HasOlderQueued(t, mine) {
      FewerOlder(t, id, k, created);
      id, k := OldestQueued(t, mine);
    }
  }

  lemma OnlyOneQueued(t: Table, id: AppId, k: nat, created: int)
    requires TableInv(t) && QueuedRestore(t, id, k)
    ensures !OlderQueuedIn(Restored(t[id], k), created)
  {
    forall l | 0 <= l < |t[id].restores| && t[id].restores[l].status == RestoreQueued ensures l == k {
      QueuedIsNewest(t, id, l);
      QueuedIsNewest(t, id, k);
    }
  }

  lemma AfterHeadStillServed(t: Table, head: AppId, l: nat, id: AppId, k: nat)
    requires TableInv(t) && QueuedRestore(t, head, l) && QueuedRestore(t, id, k) && Served(t, id, k)
    requires t[head].restores[l].created < t[id].restores[k].created
    ensures var after := t[head := Restored(t[head], l)];
      QueuedRestore(after, id, k) && after[id] == t[id] && Served(after, id, k)
  {
    QueuedIsNewest(t, id, k);
    QueuedIsNewest(t, head, l);
    OnlyOneQueued(t, head, l, t[id].restores[k].created);
  }

  lemma AfterHeadFewerOlder(t: Table, head: AppId, l: nat, created: int)
    requires TableInv(t) && QueuedRestore(t, head, l) && t[head].restores[l].created < created
    ensures |OlderApps(t[head := Restored(t[head], l)], created)| < |OlderApps(t, created)|
  {
    var after := t[head := Restored(t[head], l)];
    OnlyOneQueued(t, head, l, created);
    assert OlderQueuedIn(t[head], created);
    assert head in OlderApps(t, created) && head !in OlderApps(after, created);
    assert OlderApps(after, created) <= OlderApps(t, created);
    SubsetIsSmaller(OlderApps(after, created), OlderApps(t, created));
  }

  /** A served restore can finish: the older ones go first, one after the other. */
  lemma {:induction false} ServedFinishes(t: Table, id: AppId, k: nat) returns (events: seq<Event>)
    requires TableInv(t) && QueuedRestore(t, id, k) && Served(t, id, k)
    ensures Finished(Run(t, events), id, k)
    decreases |OlderApps(t, t[id].restores[k].created)|
  {
    var created := t[id].restores[k].created;
    if !HasOlderQueued(t, created) {
      HeadFinishes(t, id, k);
      return ClaimAndFinish(id, k);
    }
    var head, l := OldestQueued(t, created);
    var first := ClaimAndFinish(head, l);
    var after := t[head := Restored(t[head], l)];
    HeadFinishes(t, head, l);
    RunKeeps(t, first);
    AfterHeadStillServed(t, head, l, id, k);
    AfterHeadFewerOlder(t, head, l, created);
    var rest := ServedFinishes(after, id, k);
    RunsCompose(t, first, rest);
    events := first + rest;
  }

  ghost predicate CanFinish(t: Table, id: AppId, k: nat) {
    exists events :: Finished(Run(t, events), id, k)
  }

  /** A queued restore can ever finish exactly when its application and the application of every older
      queued restore have a route. */
  lemma RestoreFinishesIffServed(t: Table, id: AppId, k: nat)
    requires TableInv(t) && QueuedRestore(t, id, k)
    ensures CanFinish(t, id, k) <==> Served(t, id, k)
  {
    if Served(t, id, k) {
      var events := ServedFinishes(t, id, k);
      assert Finished(Run(t, events), id, k);
    } else {
      forall events ensures !Finished(Run(t, events), id, k) {
        UnservedWaitsForever(t, events, id, k);
      }
    }
  }

  // ---------------------------------------------------------------- how a restore comes to starve

  ghost predicate Reachable(t: Table) {
    exists events :: t == Run(map[], events)
  }

  lemma ReachStep(t: Table, e: Event)
    requires Reachable(t)
    ensures Reachable(Apply(t, e))
  {
    var events :| t == Run(map[], events);
    assert (events + [e])[..|events|] == events;
    assert Apply(t, e) == Run(map[], events + [e]);
  }

  lemma ReachAction(t: Table, id: AppId, a: App, e: AppEvent)
    requires Reachable(t[id := a]) && !e.RestoreClaimed?
    ensures Reachable(t[id := Step(a, e)])
  {
    ReachStep(t[id := a], OnApp(id, e));
    assert Apply(t[id := a], OnApp(id, e)) == t[id := Step(a, e)];
  }

  /** An application on its first deployment, as far as the job has come. */
  function Launching(state: DeploymentState, attempts: nat): App {
    NewApp(0, 0, "").(jobs := [Job(0, "", Deploy, None, state, attempts)])
  }

  function LiveApp(): App {
    App(0, Running, None, Some(0), Some(0), false, [Release(0, Active)],
        [Job(0, "", Deploy, None, Succeeded, 5)], [], [])
  }

  lemma LaunchSteps()
    ensures AdvanceJob(Launching(Queued, 0), 0, true) == Launching(Pulling, 1)
    ensures AdvanceJob(Launching(Pulling, 1), 0, true) == Launching(Starting, 2)
    ensures AdvanceJob(Launching(Starting, 2), 0, true) == Launching(Checking, 3)
    ensures AdvanceJob(Launching(Checking, 3), 0, true) == Launching(Switching, 4)
    ensures AdvanceJob(Launching(Switching, 4), 0, true) == LiveApp()
  {
  }

  /** Creating an application and five good passes of the worker. */
  lemma Launch(t: Table, id: AppId)
    requires Reachable(t) && id !in t
    ensures Reachable(t[id := LiveApp()])
  {
    LaunchSteps();
    ReachStep(t, CreateApp(id, 0, 0, ""));
    assert NewApp(0, 0, "") == Launching(Queued, 0);
    ReachAction(t, id, Launching(Queued, 0), WorkerAdvance(0, true));
    ReachAction(t, id, Launching(Pulling, 1), WorkerAdvance(0, true));
    ReachAction(t, id, Launching(Starting, 2), WorkerAdvance(0, true));
    ReachAction(t, id, Launching(Checking, 3), WorkerAdvance(0, true));
    ReachAction(t, id, Launching(Switching, 4), WorkerAdvance(0, true));
  }

  function BeingStopped(): App {
    LiveApp().(stops := [StopQueued], route := None, status := Stopping)
  }

  function BeingHalted(): App {
    BeingStopped().(stops := [StopRunning])
  }

  function StoppedApp(): App {
    BeingStopped().(stops := [StopSucceeded], status := Stopped)
  }

  lemma StopSteps()
    ensures Step(LiveApp(), RequestStop) == BeingStopped()
    ensures Step(BeingStopped(), StopClaimed(0)) == BeingHalted()
    ensures Step(BeingHalted(), StopFinished(0)) == StoppedApp()
  {
  }

  lemma Halt(t: Table, id: AppId)
    requires Reachable(t[id := LiveApp()])
    ensures Reachable(t[id := StoppedApp()])
  {
    StopSteps();
    ReachAction(t, id, LiveApp(), RequestStop);
    ReachAction(t, id, BeingStopped(), StopClaimed(0));
    ReachAction(t, id, BeingHalted(), StopFinished(0));
  }

  /** A failed update and then a request for a restore at time `at`. */
  function UpdatedInVain(a: App, at: int): App {
    RestoreApp(FailJob(CreateRelease(a, None, 0, ""), |a.jobs|), at)
  }

  lemma InVainSteps(a: App, at: int)
    ensures var updating := CreateRelease(a, None, 0, "");
      && Step(a, RequestUpdate(0, "")) == updating
      && Step(updating, WorkerError(|a.jobs|)) == FailJob(updating, |a.jobs|)
      && Step(FailJob(updating, |a.jobs|), RequestRestore(at)) == UpdatedInVain(a, at)
  {
  }

  lemma UpdateInVain(t: Table, id: AppId, a: App, at: int)
    requires Reachable(t[id := a])
    ensures Reachable(t[id := UpdatedInVain(a, at)])
  {
    var updating := CreateRelease(a, None, 0, "");
    InVainSteps(a, at);
    ReachAction(t, id, a, RequestUpdate(0, ""));
    ReachAction(t, id, updating, WorkerError(|a.jobs|));
    ReachAction(t, id, FailJob(updating, |a.jobs|), RequestRestore(at));
  }

  lemma StrandedIsUnrouted(at: int)
    ensures var a := UpdatedInVain(StoppedApp(), at);
      a.route.None? && a.restores == [Restore(RestoreQueued, at)]
  {
    var updating := CreateRelease(StoppedApp(), None, 0, "");
    assert updating.jobs == LiveApp().jobs + [Job(1, "", Update, None, Queued, 0)];
    var updated := FailJob(updating, 1);
    assert updated.status == Running && updated.route.None? && updated.restores == [];
  }

  /** Two applications that wait for a restore: 0, without a route, since time 1, and 1, with one, since time 2. */
  function TwoWaiting(): Table {
    map[0 := UpdatedInVain(StoppedApp(), 1)][1 := RestoreApp(LiveApp(), 2)]
  }

  lemma Swapped(a: App, b: App)
    ensures map[0 := a][1 := b] == map[1 := b][0 := a]
  {
  }

  lemma TwoLiveIsReached()
    ensures Reachable(map[1 := LiveApp()][0 := LiveApp()])
  {
    assert Reachable(map[]) by { assert Run(map[], []) == map[]; }
    Launch(map[], 0);
    Launch(map[0 := LiveApp()], 1);
    Swapped(LiveApp(), LiveApp());
  }

  lemma TwoWaitingIsReached()
    ensures Reachable(TwoWaiting())
  {
    TwoLiveIsReached();
    Halt(map[1 := LiveApp()], 0);
    UpdateInVain(map[1 := LiveApp()], 0, StoppedApp(), 1);
    Swapped(UpdatedInVain(StoppedApp(), 1), LiveApp());
    ReachAction(map[0 := UpdatedInVain(StoppedApp(), 1)], 1, LiveApp(), RequestRestore(2));
  }

  lemma TwoWaitingIsNotServed()
    ensures QueuedRestore(TwoWaiting(), 0, 0) && TwoWaiting()[0].route.None?
    ensures QueuedRestore(TwoWaiting(), 1, 0) && TwoWaiting()[1].route.Some? && !Served(TwoWaiting(), 1, 0)
  {
    var t := TwoWaiting();
    StrandedIsUnrouted(1);
    assert t[0].restores[0] == Restore(RestoreQueued, 1);
    assert t[1].restores == [Restore(RestoreQueued, 2)];
    assert OlderQueuedIn(t[0], 2);
  }

  /** It happens: from an empty platform two applications come to wait for a restore, the first without a
      route, and the second, which has one, waits behind it forever. */
  lemma RoutedRestoreCanStarve()
    ensures exists t: Table ::
      && Reachable(t)
      && QueuedRestore(t, 0, 0) && t[0].route.None?
      && QueuedRestore(t, 1, 0) && t[1].route.Some?
      && !CanFinish(t, 1, 0)
  {
    TwoWaitingIsReached();
    TwoWaitingIsNotServed();
    var t := TwoWaiting();
    var events :| t == Run(map[], events);
    RunKeeps(map[], events);
    RestoreFinishesIffServed(t, 1, 0);
  }
}
