/** When a request is accepted, how it goes live, and what a failure leaves behind. */
module LifecycleRequests {
  import opened Domain
  import opened Lifecycle
  import opened LifecycleInvariant
  import opened LifecycleTheorems
  import opened LifecycleOutcomes

  // ---------------------------------------------------------------- the guards come down to the status

  predicate Idle(s: AppStatus) {
    s == Running || s == Broken || s == Stopped
  }

  lemma IdleHasNoWork(a: App)
    requires AppInv(a) && !InOperation(a.status)
    ensures !ActiveJob(a) && !ActiveRestore(a)
  {
    ActiveIsNewest(a);
  }

  /** In a consistent application the handlers never find an operation in progress that the status does not
      show: these are all the conditions there are. */
  lemma AcceptedIff(a: App, source: nat)
    requires AppInv(a)
    ensures ReleaseVerdict(a, None).Accepted? <==> Idle(a.status)
    ensures ReleaseVerdict(a, Some(source)).Accepted? <==>
      Idle(a.status) && source < |a.releases|
      && (a.releases[source].state == Active || a.releases[source].state == Superseded)
    ensures StartVerdict(a).Accepted? <==>
      a.last.Some? && (a.status == Stopped || a.status == Broken
                       || (a.status == Suspended && a.reason == Some(BillingInsufficient)))
    ensures RestoreVerdict(a).Accepted? <==> a.status == Running
    ensures StopVerdict(a).Accepted? <==> a.status == Running && !ActiveStop(a)
  {
    if !InOperation(a.status) { IdleHasNoWork(a); }
  }

  // ---------------------------------------------------------------- from the request to the live release

  predicate IsRelease(e: AppEvent) {
    e.RequestUpdate? || e.RequestRollback? || e.RequestStart?
  }

  /** The request is accepted: it inserts a job. */
  predicate Accepts(a: App, e: AppEvent) {
    IsRelease(e) && |Step(a, e).jobs| > |a.jobs|
  }

  /** The snapshot the request is for: a new one, that of the release rolled back to, or the live one. */
  predicate Wants(a: App, e: AppEvent, snapshot: Snapshot) {
    match e
    case RequestUpdate(built, _) => snapshot == built
    case RequestRollback(source, _) => source < |a.releases| && snapshot == a.releases[source].snapshot
    case RequestStart(_) =>
      a.last.Some? && a.last.value < |a.releases| && snapshot == a.releases[a.last.value].snapshot
    case _ => false
  }

  function OperationOf(e: AppEvent): Operation {
    match e
    case RequestRollback(_, _) => Rollback
    case RequestStart(_) => Start
    case _ => Update
  }

  /** `b` is `a` with a new release for the snapshot and a job on it that has come to `state`. */
  predicate OnItsWay(a: App, b: App, snapshot: Snapshot, op: Operation, state: DeploymentState, attempts: nat) {
    && b.status == Updating && b.last == a.last && b.route == a.route
    && b.releases == a.releases + [Release(snapshot, Created)]
    && |b.jobs| == |a.jobs| + 1 && b.jobs[..|a.jobs|] == a.jobs
    && var job := b.jobs[|a.jobs|];
       job.release == |a.releases| && job.operation == op && job.state == state && job.attempts == attempts
  }

  function KeyOf(e: AppEvent): string {
    match e
    case RequestUpdate(_, key) => key
    case RequestRollback(_, key) => key
    case RequestStart(key) => key
    case _ => ""
  }

  lemma RequestQueues(a: App, e: AppEvent, snapshot: Snapshot)
    requires AppInv(a) && Accepts(a, e) && Wants(a, e, snapshot)
    ensures OnItsWay(a, Step(a, e), snapshot, OperationOf(e), Queued, 0)
    ensures Step(a, e).jobs[|a.jobs|].key == KeyOf(e)
  {
  }

  /** The step of a good pass before the last. */
  predicate Follows(state: DeploymentState, next: DeploymentState) {
    match state
    case Queued => next == Pulling
    case Pulling => next == Starting
    case Starting => next == Checking
    case Checking => next == Switching
    case _ => false
  }

  lemma PassMovesOn(a: App, b: App, snapshot: Snapshot, op: Operation, state: DeploymentState,
                    next: DeploymentState, n: nat)
    requires OnItsWay(a, b, snapshot, op, state, n)
    requires Follows(state, next)
    ensures OnItsWay(a, Step(b, WorkerAdvance(|a.jobs|, true)), snapshot, op, next, n + 1)
  {
  }

  /** The release of the request is live and the one before it superseded; nothing else changed. */
  predicate WentLive(a: App, b: App, snapshot: Snapshot) {
    var r := |a.releases|;
    && b.status == Running && b.reason.None? && b.route == Some(r) && b.last == Some(r)
    && |b.releases| == r + 1 && b.releases[r] == Release(snapshot, Active)
    && (forall k :: 0 <= k < r ==>
          b.releases[k] == if a.last == Some(k) then Release(a.releases[k].snapshot, Superseded) else a.releases[k])
    && |b.jobs| == |a.jobs| + 1 && b.jobs[..|a.jobs|] == a.jobs && b.jobs[|a.jobs|].state == Succeeded
  }

  lemma LastPassGoesLive(a: App, b: App, snapshot: Snapshot, op: Operation, n: nat)
    requires LiveRelease(a) && OnItsWay(a, b, snapshot, op, Switching, n)
    ensures WentLive(a, Step(b, WorkerAdvance(|a.jobs|, true)), snapshot)
  {
  }

  function AfterPasses(a: App, e: AppEvent, n: nat): App {
    if n == 0 then Step(a, e) else Step(AfterPasses(a, e, n - 1), WorkerAdvance(|a.jobs|, true))
  }

  /** An accepted update, rollback or start is live after five good passes of the worker, with the snapshot
      it was for. */
  lemma RequestGoesLive(a: App, e: AppEvent, snapshot: Snapshot)
    requires AppInv(a) && Accepts(a, e) && Wants(a, e, snapshot)
    ensures WentLive(a, AfterPasses(a, e, 5), snapshot)
  {
    var op := OperationOf(e);
    RequestQueues(a, e, snapshot);
    PassMovesOn(a, AfterPasses(a, e, 0), snapshot, op, Queued, Pulling, 0);
    PassMovesOn(a, AfterPasses(a, e, 1), snapshot, op, Pulling, Starting, 1);
    PassMovesOn(a, AfterPasses(a, e, 2), snapshot, op, Starting, Checking, 2);
    PassMovesOn(a, AfterPasses(a, e, 3), snapshot, op, Checking, Switching, 3);
    LastPassGoesLive(a, AfterPasses(a, e, 4), snapshot, op, 4);
  }

  /** A job on the only or the live release, with the application on its way to it. */
  function Recovering(a: App, job: Job, state: DeploymentState, n: nat): App {
    a.(status := Updating, reason := None, jobs := a.jobs + [job.(state := state, attempts := n)])
  }

  function AfterWork(a: App, j: nat, n: nat): App {
    if n == 0 then a else Step(AfterWork(a, j, n - 1), WorkerAdvance(j, true))
  }

  lemma RecoveryMovesOn(a: App, job: Job, state: DeploymentState, next: DeploymentState, n: nat)
    requires Follows(state, next)
    ensures Step(Recovering(a, job, state, n), WorkerAdvance(|a.jobs|, true)) == Recovering(a, job, next, n + 1)
  {
    assert Recovering(a, job, state, n).jobs[|a.jobs|] == job.(state := state, attempts := n);
  }

  /** Making the live release the live one again changes no release. */
  lemma AlreadyLive(a: App, r: nat)
    requires LiveRelease(a) && a.last == Some(r)
    ensures AfterSuccess(a, r) == a.(status := Running, reason := None, route := Some(r))
  {
    assert a.releases[r := a.releases[r].(state := Active)] == a.releases;
    assert Superseding(a.releases, r) == a.releases;
  }

  lemma RecoveringKeepsLive(a: App, job: Job, n: nat)
    requires LiveRelease(a) && job.release < |a.releases|
    ensures LiveRelease(Recovering(a, job, Succeeded, n))
  {
  }

  lemma RecoveryEnds(a: App, job: Job, n: nat)
    requires LiveRelease(a) && a.last == Some(job.release) && job.release < |a.releases|
    ensures Step(Recovering(a, job, Switching, n), WorkerAdvance(|a.jobs|, true))
         == Recovering(a, job, Succeeded, n + 1).(status := Running, route := a.last)
  {
    var b := Recovering(a, job, Switching, n);
    assert b.jobs[|a.jobs|] == job.(state := Switching, attempts := n);
    assert Step(b, WorkerAdvance(|a.jobs|, true)) == AfterSuccess(Recovering(a, job, Succeeded, n + 1), job.release);
    RecoveringKeepsLive(a, job, n + 1);
    AlreadyLive(Recovering(a, job, Succeeded, n + 1), job.release);
  }

  lemma LiveExists(a: App)
    requires LiveRelease(a) && a.last.Some?
    ensures a.last.value < |a.releases|
  {
  }

  /** Where n good passes take a queued job. */
  function Stage(n: nat): DeploymentState
    requires n <= 4
  {
    if n == 0 then Queued else if n == 1 then Pulling else if n == 2 then Starting
    else if n == 3 then Checking else Switching
  }

  lemma StageFollows(n: nat)
    requires 0 < n <= 4
    ensures Follows(Stage(n - 1), Stage(n))
  {
  }

  lemma {:induction false} RecoveryPasses(a: App, job: Job, n: nat)
    requires n <= 4
    ensures AfterWork(Recovering(a, job, Queued, 0), |a.jobs|, n) == Recovering(a, job, Stage(n), n)
  {
    if n > 0 {
      RecoveryPasses(a, job, n - 1);
      StageFollows(n);
      RecoveryMovesOn(a, job, Stage(n - 1), Stage(n), n - 1);
    }
  }

  /** A recovery brings the live release back as it was: five good passes and the application is running and
      routed again, with nothing else changed. */
  lemma RecoveryGoesLive(a: App, job: Job)
    requires LiveRelease(a) && a.last == Some(job.release)
    ensures AfterWork(Recovering(a, job, Queued, 0), |a.jobs|, 5)
         == a.(status := Running, reason := None, route := a.last,
               jobs := a.jobs + [job.(state := Succeeded, attempts := 5)])
  {
    LiveExists(a);
    RecoveryPasses(a, job, 4);
    RecoveryEnds(a, job, 4);
  }

  // ---------------------------------------------------------------- what a failure leaves

  /** The rows and the status after a job of this operation on release `r` failed. */
  predicate FailureLeaves(a: App, b: App, op: Operation, r: nat) {
    && b.last == a.last && b.route == a.route && b.deleted == a.deleted
    && (op == Start ==> b.status == Stopped && b.reason.None?)
    && (op == BillingRecovery ==> b.status == Suspended && b.reason == Some(BillingInsufficient))
    && (op == SubscriptionRecovery ==> b.status == Suspended && b.reason == Some(SubscriptionExpired))
    && (op == Deploy || op == Update || op == Rollback ==>
          b.reason.None? && b.status == if a.last.Some? then Running else Broken)
    && (if IsRecovery(op) then b.releases == a.releases
        else r < |b.releases| && b.releases[r].state == Abandoned)
  }

  lemma RolledBackLeaves(a: App, j: nat, healthy: bool)
    requires AppInv(a) && j < |a.jobs| && a.jobs[j].state == RollingBack
    ensures FailureLeaves(a, AdvanceJob(a, j, healthy), a.jobs[j].operation, a.jobs[j].release)
  {
    ActiveIsNewest(a);
  }

  lemma ErrorLeaves(a: App, j: nat)
    requires AppInv(a) && CanFail(a, j)
    ensures FailureLeaves(a, FailJob(a, j), a.jobs[j].operation, a.jobs[j].release)
  {
  }

  predicate Unfinished(a: App, j: nat) {
    j < |a.jobs| && !Terminal(a.jobs[j].state)
  }

  predicate HasFailed(a: App, j: nat) {
    j < |a.jobs| && a.jobs[j].state == Failed
  }

  lemma StepFails(a: App, e: AppEvent, j: nat)
    requires AppInv(a) && Unfinished(a, j) && HasFailed(Step(a, e), j)
    ensures FailureLeaves(a, Step(a, e), a.jobs[j].operation, a.jobs[j].release)
  {
    OnlyWorkerMoves(a, e, j);
    if e.WorkerAdvance? {
      FailsFromRollingBack(a, j, e.healthy);
      RolledBackLeaves(a, j, e.healthy);
    } else {
      ErrorLeaves(a, j);
    }
  }

  lemma FailsFromRollingBack(a: App, j: nat, healthy: bool)
    requires Unfinished(a, j) && AttemptsFit(a.jobs[j]) && HasFailed(AdvanceJob(a, j, healthy), j)
    ensures a.jobs[j].state == RollingBack
  {
    PassGives(a, j, healthy);
  }

  lemma EffectFails(t: Table, e: Event, id: AppId, j: nat)
    requires TableInv(t) && id in t && Unfinished(t[id], j) && HasFailed(EffectOn(t, e, id), j)
    ensures FailureLeaves(t[id], EffectOn(t, e, id), t[id].jobs[j].operation, t[id].jobs[j].release)
  {
    match e
    case CreateApp(_, _, _, _) =>
    case OnApp(_, action) => StepFails(t[id], action, j);
    case OnUser(_, change) => UserLeavesJobs(t[id], change, j);
  }

  /** Whatever happens between the queueing of a job and its failure, the application is left with the release
      and route it had, and with the status its operation and a live release determine. */
  lemma FailureOutcome(t: Table, events: seq<Event>, id: AppId, j: nat)
    requires TableInv(t) && id in t && Unfinished(t[id], j) && BusyThroughout(t, events, id, j)
    requires id in Run(t, events) && HasFailed(Run(t, events)[id], j)
    ensures var a, b := t[id], Run(t, events)[id];
      && b.last == a.last && b.route == a.route
      && FailureStatus(b.status, b.reason, a.jobs[j].operation, a.last.Some?)
      && (!IsRecovery(a.jobs[j].operation) ==>
            a.jobs[j].release < |b.releases| && b.releases[a.jobs[j].release].state == Abandoned)
  {
    var front := events[..|events| - 1];
    BusyBefore(t, events, id, j);
    FailureLeavesLiveReleaseAlone(t, front, id, j);
    RunKeeps(t, front);
    AppsPersist(t, front, id);
    RunEffect(t, events, id);
    EffectFails(Run(t, front), events[|events| - 1], id, j);
  }

  /** The status a failed operation leaves. */
  predicate FailureStatus(status: AppStatus, reason: Option<Reason>, op: Operation, hasLive: bool) {
    match op
    case Start => status == Stopped && reason.None?
    case BillingRecovery => status == Suspended && reason == Some(BillingInsufficient)
    case SubscriptionRecovery => status == Suspended && reason == Some(SubscriptionExpired)
    case _ => reason.None? && status == if hasLive then Running else Broken
  }

  lemma RequestJobIs(a: App, e: AppEvent)
    requires AppInv(a) && Accepts(a, e)
    ensures var b := Step(a, e);
      Unfinished(b, |a.jobs|) && b.jobs[|a.jobs|].operation == OperationOf(e) && b.last == a.last
  {
    RequestQueues(a, e, WantedBy(a, e));
  }

  lemma RequestedJob(t: Table, id: AppId, e: AppEvent)
    requires TableInv(t) && id in t && Accepts(t[id], e)
    ensures var t1 := Apply(t, OnApp(id, e)); var j := |t[id].jobs|;
      && id in t1 && t1[id] == Step(t[id], e) && Unfinished(t1[id], j)
      && t1[id].jobs[j].operation == OperationOf(e) && t1[id].last == t[id].last
  {
    assert !e.RestoreClaimed?;
    ApplyEffect(t, OnApp(id, e), id);
    RequestJobIs(t[id], e);
  }

  function WantedBy(a: App, e: AppEvent): Snapshot
    requires AppInv(a) && Accepts(a, e)
  {
    match e
    case RequestUpdate(built, _) => built
    case RequestRollback(source, _) => a.releases[source].snapshot
    case RequestStart(_) => a.releases[a.last.value].snapshot
  }

  /** Whether a failed request leaves the status as it was: an update or rollback does so for a running
      application and for a broken one that was never live, a start only for a stopped one. So a failed
      update of a stopped application leaves it running, and a failed start of one suspended for want of
      funds leaves it stopped. */
  lemma FailedRequestUndoneIff(t: Table, id: AppId, e: AppEvent, events: seq<Event>)
    requires TableInv(t) && id in t && Accepts(t[id], e)
    requires var t1 := Apply(t, OnApp(id, e)); var j := |t[id].jobs|;
      BusyThroughout(t1, events, id, j) && id in Run(t1, events) && HasFailed(Run(t1, events)[id], j)
    ensures var a, b := t[id], Run(Apply(t, OnApp(id, e)), events)[id];
      b.status == a.status && b.reason == a.reason <==>
        if e.RequestStart? then a.status == Stopped
        else a.status == Running || (a.status == Broken && a.last.None?)
  {
    RequestedJob(t, id, e);
    ApplyKeeps(t, OnApp(id, e));
    FailureOutcome(Apply(t, OnApp(id, e)), events, id, |t[id].jobs|);
    StatusBefore(t[id], e);
  }

  lemma StatusBefore(a: App, e: AppEvent)
    requires AppInv(a) && Accepts(a, e)
    ensures a.status == Running ==> a.last.Some?
    ensures e.RequestStart? ==> a.last.Some?
    ensures Idle(a.status) || (e.RequestStart? && a.status == Suspended)
    ensures a.reason.Some? <==> a.status == Suspended
  {
  }

  /** A failed recovery is always undone: the suspension is back with its reason. */
  lemma FailedRecoveryUndone(t: Table, id: AppId, e: UserEvent, events: seq<Event>)
    requires TableInv(t) && id in t && |UserStep(t[id], e).jobs| > |t[id].jobs|
    requires var t1 := Apply(t, OnUser(t[id].owner, e)); var j := |t[id].jobs|;
      BusyThroughout(t1, events, id, j) && id in Run(t1, events) && HasFailed(Run(t1, events)[id], j)
    ensures var a, b := t[id], Run(Apply(t, OnUser(t[id].owner, e)), events)[id];
      && a.status == Suspended && b.status == a.status && b.reason == a.reason
      && b.last == a.last && b.route == a.route
  {
    RecoveryQueued(t[id], e);
    ApplyKeeps(t, OnUser(t[id].owner, e));
    ApplyEffect(t, OnUser(t[id].owner, e), id);
    FailureOutcome(Apply(t, OnUser(t[id].owner, e)), events, id, |t[id].jobs|);
  }

  lemma RecoveryQueued(a: App, e: UserEvent)
    requires AppInv(a) && |UserStep(a, e).jobs| > |a.jobs|
    ensures var b := UserStep(a, e);
      && a.status == Suspended && Unfinished(b, |a.jobs|) && b.last == a.last && b.route == a.route && a.last.Some?
      && FailureStatus(a.status, a.reason, b.jobs[|a.jobs|].operation, true)
  {
    match e
    case UsageSettled(outcome, suffix) =>
      SettlementIs(a, outcome, suffix);
      SuspendHistory(a);
      RecoveryIs(a, BillingInsufficient, BillingRecovery, BILLING_KEY, suffix);
    case SubscriptionPaid(reference, suffix) =>
      RecoveryIs(a, SubscriptionExpired, SubscriptionRecovery, reference + "/", suffix);
  }

  lemma RecoveryIs(a: App, reason: Reason, op: Operation, prefix: string, suffix: string)
    requires AppInv(a) && IsRecovery(op)
    ensures var b := Resume(a, reason, op, prefix, suffix);
      |b.jobs| > |a.jobs| ==>
        && a.status == Suspended && a.reason == Some(reason) && a.last.Some?
        && Unfinished(b, |a.jobs|) && b.jobs[|a.jobs|].operation == op && b.last == a.last && b.route == a.route
  {
    if a.status == Suspended && a.reason == Some(reason) { ResumeIs(a, reason, op, prefix, suffix); }
  }

  // ---------------------------------------------------------------- how a restore ends

  /** The end of a claimed restore: its row says whether it succeeded, and the application is broken only when
      it failed and the application was not healthy afterwards. */
  lemma RestoreOutcome(t: Table, id: AppId, k: nat, succeeded: bool, healthy: bool)
    requires id in t && k < |t[id].restores| && t[id].restores[k].status == RestoreRunning
    ensures var a, t1 := t[id], Apply(t, OnApp(id, RestoreFinished(k, succeeded, healthy)));
      && id in t1
      && var b := t1[id];
      && b == a.(restores := b.restores, status := b.status)
      && |b.restores| == |a.restores|
      && (forall l :: 0 <= l < |a.restores| && l != k ==> b.restores[l] == a.restores[l])
      && b.restores[k].status == (if succeeded then RestoreSucceeded else RestoreFailed)
      && (b.status == Broken <==> !succeeded && !healthy) && (b.status == Running <==> succeeded || healthy)
  {
  }

  /** Either way the application accepts requests again, and keeps what was live. */
  lemma RestoreReleases(t: Table, id: AppId, k: nat, succeeded: bool, healthy: bool)
    requires TableInv(t) && id in t && k < |t[id].restores| && t[id].restores[k].status == RestoreRunning
    ensures var b := Apply(t, OnApp(id, RestoreFinished(k, succeeded, healthy)))[id];
      && Idle(b.status) && ReleaseVerdict(b, None).Accepted? && !ActiveRestore(b)
      && b.last == t[id].last && b.route == t[id].route
  {
    var e := OnApp(id, RestoreFinished(k, succeeded, healthy));
    RestoreOutcome(t, id, k, succeeded, healthy);
    ApplyKeeps(t, e);
    AcceptedIff(Apply(t, e)[id], 0);
    IdleHasNoWork(Apply(t, e)[id]);
  }

  // ---------------------------------------------------------------- stopping and deleting

  predicate AllStopped(stops: seq<StopStatus>) {
    forall i :: 0 <= i < |stops| ==> stops[i] == StopSucceeded
  }

  /** A stop that is accepted unroutes the application at once; the worker may claim and give it back any
      number of times, and when it finishes the application is stopped and nothing else has changed. */
  lemma StopRuns(a: App, retries: nat)
    requires AppInv(a) && StopVerdict(a).Accepted?
    ensures var k := |a.stops|;
      var b := FinishStop(ClaimStop(Retried(StopApp(a), k, retries), k), k);
      && b == a.(status := Stopped, reason := None, route := None, stops := a.stops + [StopSucceeded])
      && AllStopped(b.stops)
  {
    ActiveIsNewest(a);
    RetriedIs(StopApp(a), |a.stops|, retries);
  }

  /** The claim given back as often as told. */
  function Retried(a: App, k: nat, retries: nat): App {
    if retries == 0 then a else RetryStop(ClaimStop(Retried(a, k, retries - 1), k), k)
  }

  lemma {:induction false} RetriedIs(a: App, k: nat, retries: nat)
    requires k < |a.stops| && a.stops[k] == StopQueued
    ensures Retried(a, k, retries) == a
  {
    if retries > 0 { RetriedIs(a, k, retries - 1); }
  }

  /** Deletion waits for every operation; retention ends only a suspension for want of funds. Both unroute and
      stop the application and keep all its rows. */
  lemma DeletedIff(a: App)
    requires AppInv(a)
    ensures var gone := a.(route := None, deleted := true, status := Stopped, reason := None);
      var free := !a.deleted && !InOperation(a.status) && !ActiveStop(a);
      && Step(a, RequestDelete) == (if free then gone else a)
      && Step(a, RetentionExpired) ==
           (if free && a.status == Suspended && a.reason == Some(BillingInsufficient) then gone else a)
  {
    ActiveIsNewest(a);
  }

  // ---------------------------------------------------------------- who is affected

  /** A step on an application touches no other, a step on an account no application of another user, and no
      application changes hands. */
  lemma Isolation(t: Table, e: Event, other: AppId)
    requires other in t
    ensures other in Apply(t, e) && Apply(t, e)[other].owner == t[other].owner
    ensures e.CreateApp? || (e.OnApp? && e.id != other) || (e.OnUser? && e.user != t[other].owner) ==>
      Apply(t, e)[other] == t[other]
  {
    if e.OnApp? && e.id == other { OwnerStays(t[other], e.action); }
  }

  lemma OwnerStays(a: App, e: AppEvent)
    ensures Step(a, e).owner == a.owner
  {
  }

  /** An application is only created with a free id: deploying, with one release and one queued job. */
  lemma CreatedIs(t: Table, id: AppId, owner: UserId, snapshot: Snapshot, key: string)
    requires id !in t
    ensures var b := Apply(t, CreateApp(id, owner, snapshot, key));
      && b.Keys == t.Keys + {id} && b[id].owner == owner && b[id].status == Deploying && b[id].route.None?
      && b[id].releases == [Release(snapshot, Created)]
      && b[id].jobs == [Job(0, key, Deploy, None, Queued, 0)]
  {
  }

  // ---------------------------------------------------------------- money and applications

  /** Without funds, or with less than the reserve after a charge, every running application of the account is
      suspended and unrouted. A charge that leaves the reserve and no usage waiting brings every application
      suspended for want of funds back on the way with a job on its live release. Nothing else happens. */
  lemma SettlementMeans(t: Table, user: UserId, outcome: Settlement, suffix: string, id: AppId)
    requires TableInv(t) && id in t && t[id].owner == user
    ensures var a, b := t[id], Apply(t, OnUser(user, UsageSettled(outcome, suffix)))[id];
      if outcome.Insufficient? || outcome.belowReserve then
        b == if a.status == Running
             then a.(status := Suspended, reason := Some(BillingInsufficient), route := None) else a
      else if outcome.morePending || a.status != Suspended || a.reason != Some(BillingInsufficient) then b == a
      else
        && a.last.Some? && b.status == Updating && b.reason.None? && |b.jobs| == |a.jobs| + 1
        && b == a.(status := Updating, reason := None, jobs := a.jobs + [b.jobs[|a.jobs|]])
        && b.jobs[|a.jobs|] == Job(a.last.value, BILLING_KEY + suffix, BillingRecovery, a.last, Queued, 0)
  {
    ApplyEffect(t, OnUser(user, UsageSettled(outcome, suffix)), id);
    SettlementIs(t[id], outcome, suffix);
    SettledApp(t[id], suffix);
  }

  lemma SettledApp(a: App, suffix: string)
    requires AppInv(a)
    ensures Suspend(a) == if a.status == Running
                          then a.(status := Suspended, reason := Some(BillingInsufficient), route := None) else a
    ensures var b := Resume(a, BillingInsufficient, BillingRecovery, BILLING_KEY, suffix);
      if a.status == Suspended && a.reason == Some(BillingInsufficient) then
        && a.last.Some?
        && b == a.(status := Updating, reason := None,
                   jobs := a.jobs + [Job(a.last.value, BILLING_KEY + suffix, BillingRecovery, a.last, Queued, 0)])
      else b == a
  {
    if a.status == Suspended && a.reason == Some(BillingInsufficient) {
      ResumeIs(a, BillingInsufficient, BillingRecovery, BILLING_KEY, suffix);
    }
  }

  /** A paid subscription brings every application of the account that its end had suspended back on the way,
      and touches no other. */
  lemma PaidSubscriptionMeans(t: Table, user: UserId, reference: string, suffix: string, id: AppId)
    requires TableInv(t) && id in t && t[id].owner == user
    ensures var a, b := t[id], Apply(t, OnUser(user, SubscriptionPaid(reference, suffix)))[id];
      if a.status == Suspended && a.reason == Some(SubscriptionExpired) then
        && a.last.Some?
        && var job := Job(a.last.value, reference + "/" + suffix, SubscriptionRecovery, a.last, Queued, 0);
        b == Recovering(a, job, Queued, 0)
      else b == a
  {
    ApplyEffect(t, OnUser(user, SubscriptionPaid(reference, suffix)), id);
    var a := t[id];
    if a.status == Suspended && a.reason == Some(SubscriptionExpired) {
      ResumeIs(a, SubscriptionExpired, SubscriptionRecovery, reference + "/", suffix);
    }
  }
}
