/** Application lifecycle and deployment protocol.

    Every table involved is keyed by application (user_apps, app_routes, app_releases,
    deployment_jobs, app_restore_jobs, app_stop_jobs), so the database state is a map from
    application to the rows that belong to it. A transaction is one atomic step on that map;
    a step whose guard fails commits nothing and leaves the map as it was. Only the restore worker
    looks across applications: it tries the oldest queued restore and no other. */
module Lifecycle {
  import opened Domain

  type AppId = nat
  type UserId = nat
  type Snapshot = nat

  datatype AppStatus = Stopped | Stopping | Deploying | Running | Updating | Suspended | Broken
  datatype Reason = BillingInsufficient | SubscriptionExpired
  datatype Operation = Deploy | Update | Rollback | Start | BillingRecovery | SubscriptionRecovery
  datatype ReleaseState = Created | Active | Superseded | Abandoned
  datatype RestoreStatus = RestoreQueued | RestoreRunning | RestoreSucceeded | RestoreFailed
  datatype StopStatus = StopQueued | StopRunning | StopSucceeded

  /** A row of app_restore_jobs with the time it was created. */
  datatype Restore = Restore(status: RestoreStatus, created: int)

  datatype Release = Release(snapshot: Snapshot, state: ReleaseState)

  /** A row of deployment_jobs; `release` and `source` index the application's releases. */
  datatype Job = Job(release: nat, key: string, operation: Operation, source: Option<nat>,
                     state: DeploymentState, attempts: nat)

  /** One application with its releases and jobs, oldest first. `last` is
      last_successful_release_id, `route` the release the live route points at. */
  datatype App = App(owner: UserId, status: AppStatus, reason: Option<Reason>,
                     last: Option<nat>, route: Option<nat>, deleted: bool,
                     releases: seq<Release>, jobs: seq<Job>,
                     restores: seq<Restore>, stops: seq<StopStatus>)

  type Table = map<AppId, App>

  // ---------------------------------------------------------------- queries

  predicate ActiveJob(a: App) {
    exists i :: 0 <= i < |a.jobs| && !Terminal(a.jobs[i].state)
  }

  predicate PendingRestore(r: Restore) {
    r.status == RestoreQueued || r.status == RestoreRunning
  }

  predicate ActiveRestore(a: App) {
    exists i :: 0 <= i < |a.restores| && PendingRestore(a.restores[i])
  }

  predicate ActiveStop(a: App) {
    exists i :: 0 <= i < |a.stops| && a.stops[i] != StopSucceeded
  }

  // ---------------------------------------------------------------- pure worker policy

  const MAX_HEALTH_ATTEMPTS: nat := 8

  predicate IsRecovery(op: Operation) {
    op == BillingRecovery || op == SubscriptionRecovery
  }

  function NextState(state: DeploymentState): Option<DeploymentState> {
    match state
    case Queued => Some(Pulling)
    case Pulling => Some(Starting)
    case Starting => Some(Checking)
    case Checking => Some(Switching)
    case Switching => Some(Succeeded)
    case _ => None
  }

  function NextStateWithHealth(state: DeploymentState, healthy: bool, healthAttempt: int): Option<DeploymentState> {
    if state == Checking && !healthy then
      if healthAttempt < MAX_HEALTH_ATTEMPTS then Some(Checking) else Some(RollingBack)
    else if state == RollingBack then Some(Failed)
    else NextState(state)
  }

  function HealthAttempt(attempts: nat): int {
    if attempts - 2 < 1 then 1 else attempts - 2
  }

  function FailureState(op: Operation, hasLast: bool): (AppStatus, Option<Reason>) {
    match op
    case Start => (Stopped, None)
    case BillingRecovery => (Suspended, Some(BillingInsufficient))
    case SubscriptionRecovery => (Suspended, Some(SubscriptionExpired))
    case _ => if hasLast then (Running, None) else (Broken, None)
  }

  function RestoreResult(succeeded: bool, healthy: bool): (RestoreStatus, AppStatus) {
    if succeeded then (RestoreSucceeded, Running)
    else if healthy then (RestoreFailed, Running)
    else (RestoreFailed, Broken)
  }

  // ---------------------------------------------------------------- row updates

  function WithRelease(a: App, r: nat, state: ReleaseState): App {
    if r < |a.releases| then a.(releases := a.releases[r := a.releases[r].(state := state)]) else a
  }

  function Superseding(rs: seq<Release>, r: nat): seq<Release> {
    seq(|rs|, k requires 0 <= k < |rs| =>
      if k != r && rs[k].state == Active then rs[k].(state := Superseded) else rs[k])
  }

  function AfterFailure(a: App, op: Operation): App {
    var (status, reason) := FailureState(op, a.last.Some?);
    a.(status := status, reason := reason)
  }

  function AfterSuccess(a: App, r: nat): App {
    var a1 := a.(status := Running, reason := None, last := Some(r));
    var a2 := WithRelease(a1, r, Active);
    a2.(releases := Superseding(a2.releases, r), route := Some(r))
  }

  function Enqueue(a: App, job: Job): App {
    a.(jobs := a.jobs + [job])
  }

  // ---------------------------------------------------------------- worker transactions

  /** The rows one committed processOne pass writes when job `i` moves on to `next`. */
  function CommitStep(a: App, i: nat, next: DeploymentState): App
    requires i < |a.jobs|
  {
    var job := a.jobs[i];
    var a1 := a.(jobs := a.jobs[i := job.(state := next, attempts := job.attempts + 1)]);
    if next == RollingBack then
      if IsRecovery(job.operation) then a1 else WithRelease(a1, job.release, Abandoned)
    else if next == Succeeded then AfterSuccess(a1, job.release)
    else if next == Failed then
      var a2 := AfterFailure(a1, job.operation);
      if job.state != RollingBack && !IsRecovery(job.operation)
      then WithRelease(a2, job.release, Abandoned) else a2
    else a1
  }

  /** processOne on job `i`: the health result is an input. */
  function AdvanceJob(a: App, i: nat, healthy: bool): App {
    if i >= |a.jobs| || Terminal(a.jobs[i].state) then a else
      match NextStateWithHealth(a.jobs[i].state, healthy, HealthAttempt(a.jobs[i].attempts))
      case None => a
      case Some(next) => if DeploymentEdge(a.jobs[i].state, next) then CommitStep(a, i, next) else a
  }

  /** markJobError on job `i`. */
  function FailJob(a: App, i: nat): App {
    if i >= |a.jobs| || Terminal(a.jobs[i].state) || !DeploymentEdge(a.jobs[i].state, Failed) then a else
      var job := a.jobs[i];
      var a1 := a.(jobs := a.jobs[i := job.(state := Failed, attempts := job.attempts + 1)]);
      var a2 := if IsRecovery(job.operation) then a1 else WithRelease(a1, job.release, Abandoned);
      AfterFailure(a2, job.operation)
  }

  /** The stop worker: claim (a stale running row may be claimed again), retry, finish. */
  function ClaimStop(a: App, k: nat): App {
    if k < |a.stops| && a.stops[k] != StopSucceeded then a.(stops := a.stops[k := StopRunning]) else a
  }

  function RetryStop(a: App, k: nat): App {
    if k < |a.stops| && a.stops[k] == StopRunning then a.(stops := a.stops[k := StopQueued]) else a
  }

  /** Neither UPDATE looks at the rows the other one matched. */
  function FinishStop(a: App, k: nat): App {
    if k >= |a.stops| then a else
      var a1 := if a.stops[k] == StopRunning then a.(stops := a.stops[k := StopSucceeded]) else a;
      if a1.status == Stopping then a1.(status := Stopped, reason := None) else a1
  }

  /** The claim of processRestoreOne on a candidate row: it joins app_routes, so without a route nothing
      is claimed. */
  function ClaimRestore(a: App, k: nat): App {
    if k < |a.restores| && a.restores[k].status == RestoreQueued && a.route.Some?
    then a.(restores := a.restores[k := a.restores[k].(status := RestoreRunning)]) else a
  }

  function FinishRestore(a: App, k: nat, succeeded: bool, healthy: bool): App {
    if k < |a.restores| && a.restores[k].status == RestoreRunning then
      var (status, appStatus) := RestoreResult(succeeded, healthy);
      a.(restores := a.restores[k := a.restores[k].(status := status)], status := appStatus)
    else a
  }

  function Erase(a: App): App {
    a.(route := None, deleted := true, status := Stopped, reason := None)
  }

  /** queueExpiredBillingSuspendedAppDeletionOne once the retention time has passed. */
  function ExpireSuspended(a: App): App {
    if !a.deleted && a.status == Suspended && a.reason == Some(BillingInsufficient)
       && !ActiveJob(a) && !ActiveStop(a) && !ActiveRestore(a)
    then Erase(a) else a
  }

  // ---------------------------------------------------------------- API transactions

  datatype Verdict =
    | Accepted
    | AlreadyStopped
    | AlreadyDeleted
    | AppSuspended
    | InvalidStatus
    | StopInProgress
    | OperationInProgress
    | ReleaseNotFound
    | ReleaseRequired
    | UniqueViolation

  predicate Restorable(a: App, source: nat) {
    source < |a.releases| && a.releases[source].state in {Active, Superseded}
  }

  /** createReleaseJob; `source` is the release a rollback copies. */
  function ReleaseVerdict(a: App, source: Option<nat>): Verdict {
    if a.status == Suspended then AppSuspended
    else if a.status != Running && a.status != Broken && a.status != Stopped then InvalidStatus
    else if ActiveJob(a) then OperationInProgress
    else if source.Some? && !Restorable(a, source.value) then ReleaseNotFound
    else Accepted
  }

  function CreateRelease(a: App, source: Option<nat>, built: Snapshot, key: string): App {
    if !ReleaseVerdict(a, source).Accepted? then a else
      var snapshot := if source.Some? then a.releases[source.value].snapshot else built;
      var op := if source.Some? then Rollback else Update;
      Enqueue(a.(releases := a.releases + [Release(snapshot, Created)], status := Updating),
              Job(|a.releases|, key, op, source, Queued, 0))
  }

  /** startApp: no look at deployment_jobs, the guard is the status alone. */
  function StartVerdict(a: App): Verdict {
    if a.status == Suspended && a.reason != Some(BillingInsufficient) then AppSuspended
    else if a.status == Stopping then StopInProgress
    else if a.status != Stopped && a.status != Broken
            && !(a.status == Suspended && a.reason == Some(BillingInsufficient)) then InvalidStatus
    else if a.last.None? then ReleaseRequired
    else Accepted
  }

  function StartApp(a: App, key: string): App {
    if StartVerdict(a).Accepted? && a.last.value < |a.releases| then
      Enqueue(a.(releases := a.releases + [Release(a.releases[a.last.value].snapshot, Created)],
                 status := Updating, reason := None),
              Job(|a.releases|, key, Start, a.last, Queued, 0))
    else a
  }

  /** stopApp; app_stop_jobs has a unique index on the unfinished row of an application. */
  function StopVerdict(a: App): Verdict {
    if a.status == Stopped then AlreadyStopped
    else if a.status == Stopping then StopInProgress
    else if a.status == Suspended then AppSuspended
    else if a.status != Running then InvalidStatus
    else if ActiveJob(a) || ActiveRestore(a) then OperationInProgress
    else if ActiveStop(a) then UniqueViolation
    else Accepted
  }

  function StopApp(a: App): App {
    if StopVerdict(a).Accepted?
    then a.(stops := a.stops + [StopQueued], route := None, status := Stopping, reason := None)
    else a
  }

  function RestoreVerdict(a: App): Verdict {
    if a.status != Running then InvalidStatus
    else if ActiveRestore(a) then OperationInProgress
    else Accepted
  }

  /** restoreAppBackup at time `at`. */
  function RestoreApp(a: App, at: int): App {
    if RestoreVerdict(a).Accepted?
    then a.(restores := a.restores + [Restore(RestoreQueued, at)], status := Updating) else a
  }

  function DeleteVerdict(a: App): Verdict {
    if a.deleted then AlreadyDeleted
    else if ActiveJob(a) || ActiveStop(a) || ActiveRestore(a) then OperationInProgress
    else Accepted
  }

  function DeleteApp(a: App): App {
    if DeleteVerdict(a).Accepted? then Erase(a) else a
  }

  // ---------------------------------------------------------------- account-wide transactions

  /** The two suspension statements of billUsage, as they act on one application. */
  function Suspend(a: App): App {
    var a1 := if a.status == Running
              then a.(status := Suspended, reason := Some(BillingInsufficient)) else a;
    if a1.status == Suspended && a1.reason == Some(BillingInsufficient) then a1.(route := None) else a1
  }

  const BILLING_KEY := "billing-resume/"

  /** INSERT ... SELECT of a recovery job, then UPDATE of the applications that have one. */
  function InsertRecovery(a: App, reason: Reason, op: Operation, key: string): App {
    if a.status == Suspended && a.reason == Some(reason) && a.last.Some? && !ActiveJob(a)
    then Enqueue(a, Job(a.last.value, key, op, a.last, Queued, 0)) else a
  }

  predicate HasQueued(a: App, prefix: string) {
    exists i :: 0 <= i < |a.jobs| && a.jobs[i].state == Queued && prefix <= a.jobs[i].key
  }

  function MarkResumed(a: App, reason: Reason, prefix: string): App {
    if a.status == Suspended && a.reason == Some(reason) && HasQueued(a, prefix)
    then a.(status := Updating, reason := None) else a
  }

  function Resume(a: App, reason: Reason, op: Operation, prefix: string, suffix: string): App {
    MarkResumed(InsertRecovery(a, reason, op, prefix + suffix), reason, prefix)
  }

  /** What one billUsage transaction decided about the account. */
  datatype Settlement =
    | Insufficient
    | Charged(belowReserve: bool, morePending: bool)

  /** Below the reserve the suspension comes first; the recovery INSERT has its conditions, the UPDATE
      after it has none. */
  function SettleUsage(a: App, outcome: Settlement, suffix: string): App {
    match outcome
    case Insufficient => Suspend(a)
    case Charged(below, more) =>
      var a1 := if below then Suspend(a) else a;
      var key := BILLING_KEY + suffix;
      var a2 := if below || more then a1 else InsertRecovery(a1, BillingInsufficient, BillingRecovery, key);
      MarkResumed(a2, BillingInsufficient, BILLING_KEY)
  }

  // ---------------------------------------------------------------- events and runs

  datatype AppEvent =
    | RequestUpdate(built: Snapshot, key: string)
    | RequestRollback(source: nat, key: string)
    | RequestStart(key: string)
    | RequestStop
    | RequestRestore(at: int)
    | RequestDelete
    | RetentionExpired
    | WorkerAdvance(job: nat, healthy: bool)
    | WorkerError(job: nat)
    | StopClaimed(stop: nat)
    | StopRetried(stop: nat)
    | StopFinished(stop: nat)
    | RestoreClaimed(restore: nat)
    | RestoreFinished(restore: nat, succeeded: bool, healthy: bool)

  datatype UserEvent =
    | UsageSettled(outcome: Settlement, suffix: string)
    | SubscriptionPaid(reference: string, suffix: string)

  datatype Event =
    | CreateApp(id: AppId, owner: UserId, snapshot: Snapshot, key: string)
    | OnApp(id: AppId, action: AppEvent)
    | OnUser(user: UserId, change: UserEvent)

  function NewApp(owner: UserId, snapshot: Snapshot, key: string): App {
    App(owner, Deploying, None, None, None, false, [Release(snapshot, Created)],
        [Job(0, key, Deploy, None, Queued, 0)], [], [])
  }

  function Step(a: App, e: AppEvent): App {
    match e
    case RequestUpdate(built, key) => CreateRelease(a, None, built, key)
    case RequestRollback(source, key) => CreateRelease(a, Some(source), 0, key)
    case RequestStart(key) => StartApp(a, key)
    case RequestStop => StopApp(a)
    case RequestRestore(at) => RestoreApp(a, at)
    case RequestDelete => DeleteApp(a)
    case RetentionExpired => ExpireSuspended(a)
    case WorkerAdvance(job, healthy) => AdvanceJob(a, job, healthy)
    case WorkerError(job) => FailJob(a, job)
    case StopClaimed(k) => ClaimStop(a, k)
    case StopRetried(k) => RetryStop(a, k)
    case StopFinished(k) => FinishStop(a, k)
    case RestoreClaimed(k) => ClaimRestore(a, k)
    case RestoreFinished(k, ok, healthy) => FinishRestore(a, k, ok, healthy)
  }

  function UserStep(a: App, e: UserEvent): App {
    match e
    case UsageSettled(outcome, suffix) => SettleUsage(a, outcome, suffix)
    case SubscriptionPaid(reference, suffix) =>
      Resume(a, SubscriptionExpired, SubscriptionRecovery, reference + "/", suffix)
  }

  function ForUser(t: Table, user: UserId, e: UserEvent): Table {
    map id | id in t :: if t[id].owner == user then UserStep(t[id], e) else t[id]
  }

  predicate QueuedRestore(t: Table, id: AppId, k: nat) {
    id in t && k < |t[id].restores| && t[id].restores[k].status == RestoreQueued
  }

  predicate OlderQueuedIn(a: App, created: int) {
    exists l :: 0 <= l < |a.restores| && a.restores[l].status == RestoreQueued && a.restores[l].created < created
  }

  /** Some queued restore of the platform is older. */
  predicate HasOlderQueued(t: Table, created: int) {
    exists other :: other in t && OlderQueuedIn(t[other], created)
  }

  /** The claim looks at one row only: an oldest queued restore of the whole platform. */
  predicate Permitted(t: Table, id: AppId, e: AppEvent) {
    e.RestoreClaimed? ==> QueuedRestore(t, id, e.restore) && !HasOlderQueued(t, t[id].restores[e.restore].created)
  }

  function Apply(t: Table, e: Event): Table {
    match e
    case CreateApp(id, owner, snapshot, key) => if id in t then t else t[id := NewApp(owner, snapshot, key)]
    case OnApp(id, action) => if id in t && Permitted(t, id, action) then t[id := Step(t[id], action)] else t
    case OnUser(user, change) => ForUser(t, user, change)
  }

  function Run(t: Table, events: seq<Event>): Table {
    if events == [] then t
    else Apply(Run(t, events[..|events| - 1]), events[|events| - 1])
  }
}
