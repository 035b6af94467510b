/** What every transaction of the lifecycle keeps. */
module LifecycleInvariant {
  import opened Domain
  import opened Lifecycle

  /** Only the newest deployment, restore or stop row of an application can be unfinished. */
  ghost predicate NewestOnly(a: App) {
    && (forall i :: 0 <= i < |a.jobs| - 1 ==> Terminal(a.jobs[i].state))
    && (forall i :: 0 <= i < |a.restores| - 1 ==> !PendingRestore(a.restores[i]))
    && (forall i :: 0 <= i < |a.stops| - 1 ==> a.stops[i] == StopSucceeded)
  }

  /** The active release is the last successful one, and a route points at nothing else. */
  ghost predicate LiveRelease(a: App) {
    && (a.last.Some? ==> a.last.value < |a.releases|)
    && (a.route.Some? ==> a.route == a.last)
    && (forall r :: 0 <= r < |a.releases| ==> (a.releases[r].state == Active <==> a.last == Some(r)))
    && (forall i :: 0 <= i < |a.jobs| ==> a.jobs[i].release < |a.releases|)
  }

  predicate NewestJobActive(a: App) {
    |a.jobs| > 0 && !Terminal(a.jobs[|a.jobs| - 1].state)
  }

  predicate NewestRestoreActive(a: App) {
    |a.restores| > 0 && PendingRestore(a.restores[|a.restores| - 1])
  }

  predicate NewestStopActive(a: App) {
    |a.stops| > 0 && a.stops[|a.stops| - 1] != StopSucceeded
  }

  predicate InOperation(s: AppStatus) {
    s == Deploying || s == Updating
  }

  predicate HasBeenLive(s: AppStatus) {
    s == Running || s == Suspended || s == Stopping
  }

  predicate StatusAgrees(a: App) {
    && !(NewestJobActive(a) && NewestRestoreActive(a))
    && (InOperation(a.status) <==> NewestJobActive(a) || NewestRestoreActive(a))
    && (NewestRestoreActive(a) ==> a.status == Updating)
    && (a.status == Stopping ==> NewestStopActive(a))
    && (a.status == Suspended || a.status == Stopping ==> a.route.None?)
    && (a.status == Suspended <==> a.reason.Some?)
    && (HasBeenLive(a.status) || NewestRestoreActive(a) ==> a.last.Some?)
  }

  /** The release an unfinished job works on. */
  ghost predicate TargetFits(a: App, job: Job) {
    if IsRecovery(job.operation) then a.last == Some(job.release) && a.route.None?
    else job.release == |a.releases| - 1
         && a.releases[job.release].state == if job.state == RollingBack then Abandoned else Created
  }

  /** `attempts` counts the committed steps of a job, so it is bounded state by state. */
  predicate AttemptsFit(job: Job) {
    match job.state
    case Queued => job.attempts == 0
    case Pulling => job.attempts == 1
    case Starting => job.attempts == 2
    case Checking => 3 <= job.attempts <= 10
    case Switching => 4 <= job.attempts <= 11
    case RollingBack => job.attempts == 11
    case Succeeded => 5 <= job.attempts <= 12
    case Failed => 1 <= job.attempts <= 12
  }

  ghost predicate JobsFit(a: App) {
    && (forall i :: 0 <= i < |a.jobs| ==> AttemptsFit(a.jobs[i]))
    && (NewestJobActive(a) && a.jobs[|a.jobs| - 1].release < |a.releases| ==> TargetFits(a, a.jobs[|a.jobs| - 1]))
  }

  ghost predicate AppInv(a: App) {
    NewestOnly(a) && LiveRelease(a) && StatusAgrees(a) && JobsFit(a)
  }

  ghost predicate TableInv(t: Table) {
    forall id :: id in t ==> AppInv(t[id])
  }

  // ---------------------------------------------------------------- one lemma per transaction

  /** The guards of the handlers look at all rows; only the newest can make a difference. */
  lemma ActiveIsNewest(a: App)
    requires NewestOnly(a)
    ensures ActiveJob(a) <==> NewestJobActive(a)
    ensures ActiveRestore(a) <==> NewestRestoreActive(a)
    ensures ActiveStop(a) <==> NewestStopActive(a)
  {
  }

  lemma NewAppInv(owner: UserId, snapshot: Snapshot, key: string)
    ensures AppInv(NewApp(owner, snapshot, key))
  {
    var a := NewApp(owner, snapshot, key);
    assert a.jobs[0].state == Queued;
  }

  lemma ProgressKeeps(a: App, i: nat, next: DeploymentState)
    requires AppInv(a) && i < |a.jobs| && !Terminal(a.jobs[i].state) && a.jobs[i].state != RollingBack
    requires !Terminal(next) && next != RollingBack && AttemptsFit(CommitStep(a, i, next).jobs[i])
    ensures AppInv(CommitStep(a, i, next))
  {
    ActiveIsNewest(a);
  }

  /** Giving up on a job that was not a recovery abandons its release; nothing else about the rows changes. */
  lemma GiveUpKeepsRows(a: App, b: App, i: nat)
    requires NewestOnly(a) && LiveRelease(a) && JobsFit(a)
    requires i < |a.jobs| && !Terminal(a.jobs[i].state) && a.jobs[i].state != RollingBack
    requires |b.jobs| == |a.jobs| && (b.jobs[i].state == RollingBack || b.jobs[i].state == Failed)
    requires b.jobs == a.jobs[i := a.jobs[i].(state := b.jobs[i].state, attempts := b.jobs[i].attempts)]
    requires b.restores == a.restores && b.stops == a.stops && b.last == a.last && b.route == a.route
    requires var job := a.jobs[i];
      b.releases == if IsRecovery(job.operation) then a.releases else WithRelease(a, job.release, Abandoned).releases
    ensures i == |a.jobs| - 1 && NewestOnly(b) && LiveRelease(b)
  {
  }

  lemma RollBackIs(a: App, i: nat)
    requires NewestOnly(a) && i < |a.jobs| && a.jobs[i].state == Checking
    ensures var b := CommitStep(a, i, RollingBack);
      && i == |a.jobs| - 1 && NewestJobActive(a) && NewestJobActive(b)
      && b == a.(jobs := b.jobs, releases := b.releases)
  {
  }

  lemma RollBackKeepsStatus(a: App, b: App)
    requires StatusAgrees(a) && NewestJobActive(a) && NewestJobActive(b)
    requires b == a.(jobs := b.jobs, releases := b.releases)
    ensures StatusAgrees(b)
  {
  }

  lemma RollBackKeepsJobs(a: App, i: nat)
    requires AppInv(a) && i == |a.jobs| - 1 && a.jobs[i].state == Checking && a.jobs[i].attempts == 10
    ensures JobsFit(CommitStep(a, i, RollingBack))
  {
  }

  lemma RollBackKeeps(a: App, i: nat)
    requires AppInv(a) && i < |a.jobs| && a.jobs[i].state == Checking && a.jobs[i].attempts == 10
    ensures AppInv(CommitStep(a, i, RollingBack))
  {
    RollBackIs(a, i);
    RollBackKeepsStatus(a, CommitStep(a, i, RollingBack));
    RollBackKeepsJobs(a, i);
    GiveUpKeepsRows(a, CommitStep(a, i, RollingBack), i);
  }

  lemma SuccessKeeps(a: App, i: nat)
    requires AppInv(a) && i < |a.jobs| && a.jobs[i].state == Switching
    ensures AppInv(CommitStep(a, i, Succeeded))
  {
    var b := CommitStep(a, i, Succeeded);
    ActiveIsNewest(a);
    assert b.last == Some(a.jobs[i].release);
  }

  lemma RolledBackKeeps(a: App, i: nat)
    requires AppInv(a) && i < |a.jobs| && a.jobs[i].state == RollingBack
    ensures AppInv(CommitStep(a, i, Failed))
  {
    ActiveIsNewest(a);
  }

  lemma AdvanceKeeps(a: App, i: nat, healthy: bool)
    requires AppInv(a)
    ensures AppInv(AdvanceJob(a, i, healthy))
  {
    if i < |a.jobs| && !Terminal(a.jobs[i].state) {
      var next := NextStateWithHealth(a.jobs[i].state, healthy, HealthAttempt(a.jobs[i].attempts)).value;
      match next
      case Succeeded => SuccessKeeps(a, i);
      case Failed => RolledBackKeeps(a, i);
      case RollingBack => RollBackKeeps(a, i);
      case _ => ProgressKeeps(a, i, next);
    }
  }

  predicate CanFail(a: App, i: nat) {
    i < |a.jobs| && !Terminal(a.jobs[i].state) && DeploymentEdge(a.jobs[i].state, Failed)
  }

  lemma FailKeepsStatus(a: App, i: nat)
    requires AppInv(a) && CanFail(a, i)
    ensures i == |a.jobs| - 1 && StatusAgrees(FailJob(a, i))
  {
  }

  lemma FailKeepsJobs(a: App, i: nat)
    requires AppInv(a) && CanFail(a, i) && i == |a.jobs| - 1
    ensures JobsFit(FailJob(a, i))
  {
  }

  /** A job that is already rolling back has abandoned its release before. */
  lemma FailKeepsRows(a: App, i: nat)
    requires AppInv(a) && CanFail(a, i)
    ensures NewestOnly(FailJob(a, i)) && LiveRelease(FailJob(a, i))
  {
    if a.jobs[i].state != RollingBack { GiveUpKeepsRows(a, FailJob(a, i), i); }
  }

  lemma FailKeeps(a: App, i: nat)
    requires AppInv(a)
    ensures AppInv(FailJob(a, i))
  {
    if CanFail(a, i) {
      FailKeepsStatus(a, i);
      FailKeepsJobs(a, i);
      FailKeepsRows(a, i);
    }
  }

  lemma CreateReleaseKeeps(a: App, source: Option<nat>, built: Snapshot, key: string)
    requires AppInv(a)
    ensures AppInv(CreateRelease(a, source, built, key))
  {
    ActiveIsNewest(a);
  }

  lemma StartKeeps(a: App, key: string)
    requires AppInv(a)
    ensures AppInv(StartApp(a, key))
  {
    ActiveIsNewest(a);
  }

  lemma ClaimStopKeeps(a: App, k: nat)
    requires AppInv(a)
    ensures AppInv(ClaimStop(a, k))
  {
    ActiveIsNewest(a);
  }

  lemma RetryStopKeeps(a: App, k: nat)
    requires AppInv(a)
    ensures AppInv(RetryStop(a, k))
  {
    ActiveIsNewest(a);
  }

  lemma FinishStopKeepsNewest(a: App, k: nat)
    requires NewestOnly(a)
    ensures NewestOnly(FinishStop(a, k))
  {
  }

  lemma DeploymentRowsStay(a: App, b: App)
    requires LiveRelease(a) && JobsFit(a)
    requires b.jobs == a.jobs && b.releases == a.releases && b.last == a.last && b.route == a.route
    ensures LiveRelease(b) && JobsFit(b)
  {
  }

  lemma FinishStopKeepsStatus(a: App, k: nat)
    requires NewestOnly(a) && StatusAgrees(a)
    ensures StatusAgrees(FinishStop(a, k))
  {
  }

  lemma FinishStopKeeps(a: App, k: nat)
    requires AppInv(a)
    ensures AppInv(FinishStop(a, k))
  {
    FinishStopKeepsNewest(a, k);
    DeploymentRowsStay(a, FinishStop(a, k));
    FinishStopKeepsStatus(a, k);
  }

  lemma ClaimRestoreKeeps(a: App, k: nat)
    requires AppInv(a)
    ensures AppInv(ClaimRestore(a, k))
  {
    ActiveIsNewest(a);
  }

  lemma FinishRestoreKeeps(a: App, k: nat, ok: bool, healthy: bool)
    requires AppInv(a)
    ensures AppInv(FinishRestore(a, k, ok, healthy))
  {
    ActiveIsNewest(a);
  }

  lemma StopAppKeeps(a: App)
    requires AppInv(a)
    ensures AppInv(StopApp(a))
  {
    ActiveIsNewest(a);
  }

  lemma RestoreAppKeeps(a: App, at: int)
    requires AppInv(a)
    ensures AppInv(RestoreApp(a, at))
  {
    ActiveIsNewest(a);
  }

  lemma EraseKeeps(a: App)
    requires AppInv(a)
    ensures AppInv(DeleteApp(a)) && AppInv(ExpireSuspended(a))
  {
  }

  lemma SuspendKeeps(a: App)
    requires AppInv(a)
    ensures AppInv(Suspend(a))
  {
  }

  /** A suspended application that has been live gets its recovery job and goes back to updating. */
  lemma ResumeIs(a: App, reason: Reason, op: Operation, prefix: string, suffix: string)
    requires AppInv(a) && a.status == Suspended && a.reason == Some(reason)
    ensures a.last.Some? && Resume(a, reason, op, prefix, suffix)
         == a.(jobs := a.jobs + [Job(a.last.value, prefix + suffix, op, a.last, Queued, 0)],
               status := Updating, reason := None)
  {
    ActiveIsNewest(a);
    var b := InsertRecovery(a, reason, op, prefix + suffix);
    assert b.jobs[|a.jobs|].key == prefix + suffix;
  }

  lemma RecoveryQueuedKeeps(a: App, job: Job)
    requires AppInv(a) && a.status == Suspended && a.last.Some?
    requires IsRecovery(job.operation) && job.release == a.last.value && job.state == Queued && job.attempts == 0
    ensures AppInv(a.(jobs := a.jobs + [job], status := Updating, reason := None))
  {
  }

  lemma ResumeKeeps(a: App, reason: Reason, op: Operation, prefix: string, suffix: string)
    requires AppInv(a) && IsRecovery(op)
    ensures AppInv(Resume(a, reason, op, prefix, suffix))
  {
    if a.status == Suspended && a.reason == Some(reason) {
      ResumeIs(a, reason, op, prefix, suffix);
      RecoveryQueuedKeeps(a, Job(a.last.value, prefix + suffix, op, a.last, Queued, 0));
    }
  }

  /** A suspended application has no unfinished job, so the second statement alone resumes nothing. */
  lemma NothingToMark(a: App, reason: Reason, prefix: string)
    requires AppInv(a)
    ensures MarkResumed(a, reason, prefix) == a
  {
  }

  lemma SettleKeeps(a: App, outcome: Settlement, suffix: string)
    requires AppInv(a)
    ensures AppInv(SettleUsage(a, outcome, suffix))
  {
    SuspendKeeps(a);
    NothingToMark(a, BillingInsufficient, BILLING_KEY);
    NothingToMark(Suspend(a), BillingInsufficient, BILLING_KEY);
    ResumeKeeps(a, BillingInsufficient, BillingRecovery, BILLING_KEY, suffix);
  }

  predicate IsStopWork(e: AppEvent) {
    e.StopClaimed? || e.StopRetried? || e.StopFinished?
  }

  predicate IsWork(e: AppEvent) {
    e.WorkerAdvance? || e.WorkerError? || IsStopWork(e) || e.RestoreClaimed? || e.RestoreFinished?
  }

  lemma RequestKeeps(a: App, e: AppEvent)
    requires AppInv(a) && !IsWork(e)
    ensures AppInv(Step(a, e))
  {
    match e
    case RequestUpdate(built, key) => CreateReleaseKeeps(a, None, built, key);
    case RequestRollback(source, key) => CreateReleaseKeeps(a, Some(source), 0, key);
    case RequestStart(key) => StartKeeps(a, key);
    case RequestStop => StopAppKeeps(a);
    case RequestRestore(at) => RestoreAppKeeps(a, at);
    case RequestDelete => EraseKeeps(a);
    case RetentionExpired => EraseKeeps(a);
  }

  lemma StopWorkKeeps(a: App, e: AppEvent)
    requires AppInv(a) && IsStopWork(e)
    ensures AppInv(Step(a, e))
  {
    match e
    case StopClaimed(k) => ClaimStopKeeps(a, k);
    case StopRetried(k) => RetryStopKeeps(a, k);
    case StopFinished(k) => FinishStopKeeps(a, k);
  }

  lemma WorkKeeps(a: App, e: AppEvent)
    requires AppInv(a) && IsWork(e) && !IsStopWork(e)
    ensures AppInv(Step(a, e))
  {
    match e
    case WorkerAdvance(job, healthy) => AdvanceKeeps(a, job, healthy);
    case WorkerError(job) => FailKeeps(a, job);
    case RestoreClaimed(k) => ClaimRestoreKeeps(a, k);
    case RestoreFinished(k, ok, healthy) => FinishRestoreKeeps(a, k, ok, healthy);
  }

  lemma StepKeeps(a: App, e: AppEvent)
    requires AppInv(a)
    ensures AppInv(Step(a, e))
  {
    if IsStopWork(e) { StopWorkKeeps(a, e); }
    else if IsWork(e) { WorkKeeps(a, e); }
    else { RequestKeeps(a, e); }
  }

  lemma UserStepKeeps(a: App, e: UserEvent)
    requires AppInv(a)
    ensures AppInv(UserStep(a, e))
  {
    match e
    case UsageSettled(outcome, suffix) => SettleKeeps(a, outcome, suffix);
    case SubscriptionPaid(reference, suffix) =>
      ResumeKeeps(a, SubscriptionExpired, SubscriptionRecovery, reference + "/", suffix);
  }

  lemma ForUserKeeps(t: Table, user: UserId, change: UserEvent)
    requires TableInv(t)
    ensures TableInv(ForUser(t, user, change))
  {
    forall id | id in t ensures AppInv(ForUser(t, user, change)[id]) { UserStepKeeps(t[id], change); }
  }

  lemma ApplyKeeps(t: Table, e: Event)
    requires TableInv(t)
    ensures TableInv(Apply(t, e))
  {
    match e
    case CreateApp(id, owner, snapshot, key) => NewAppInv(owner, snapshot, key);
    case OnApp(id, action) => if id in t { StepKeeps(t[id], action); }
    case OnUser(user, change) => ForUserKeeps(t, user, change);
  }

  /** Every interleaving of API calls and worker passes keeps the invariant. */
  lemma {:induction false} RunKeeps(t: Table, events: seq<Event>)
    requires TableInv(t)
    ensures TableInv(Run(t, events))
  {
    if events != [] {
      RunKeeps(t, events[..|events| - 1]);
      ApplyKeeps(Run(t, events[..|events| - 1]), events[|events| - 1]);
    }
  }
}
