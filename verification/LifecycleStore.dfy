/** The lifecycle transactions as they update the tables, statement by statement. */
module LifecycleStore {
  import opened Domain
  import opened Lifecycle

  /** The recovery INSERT over the applications of one account. */
  function InsertAll(t: Table, user: UserId, reason: Reason, op: Operation, key: string): Table {
    map id | id in t :: if t[id].owner == user then InsertRecovery(t[id], reason, op, key) else t[id]
  }

  /** The UPDATE that follows it in the same transaction. */
  function MarkAll(t: Table, user: UserId, reason: Reason, prefix: string): Table {
    map id | id in t :: if t[id].owner == user then MarkResumed(t[id], reason, prefix) else t[id]
  }

  function ResumeAll(t: Table, user: UserId, reason: Reason, op: Operation, prefix: string, suffix: string): Table {
    map id | id in t :: if t[id].owner == user then Resume(t[id], reason, op, prefix, suffix) else t[id]
  }

  lemma InsertKeepsOwner(a: App, reason: Reason, op: Operation, key: string)
    ensures InsertRecovery(a, reason, op, key).owner == a.owner
  {
  }

  /** Two account-wide statements act like one pass that resumes each application by itself. */
  lemma StatementsCompose(t: Table, user: UserId, reason: Reason, op: Operation, prefix: string, suffix: string)
    ensures MarkAll(InsertAll(t, user, reason, op, prefix + suffix), user, reason, prefix)
         == ResumeAll(t, user, reason, op, prefix, suffix)
  {
    var mid := InsertAll(t, user, reason, op, prefix + suffix);
    forall id | id in t
      ensures MarkAll(mid, user, reason, prefix)[id] == ResumeAll(t, user, reason, op, prefix, suffix)[id]
    {
      InsertKeepsOwner(t[id], reason, op, prefix + suffix);
    }
  }

  function SuspendAll(t: Table, user: UserId): Table {
    map id | id in t :: if t[id].owner == user then Suspend(t[id]) else t[id]
  }

  /** The UPDATE of the running applications. */
  function SuspendStatuses(t: Table, user: UserId): Table {
    map id | id in t :: if t[id].owner == user && t[id].status == Running
                        then t[id].(status := Suspended, reason := Some(BillingInsufficient)) else t[id]
  }

  /** The DELETE of the routes of every application suspended for billing. */
  function DropRoutes(t: Table, user: UserId): Table {
    map id | id in t :: if t[id].owner == user && t[id].status == Suspended && t[id].reason == Some(BillingInsufficient)
                        then t[id].(route := None) else t[id]
  }

  lemma SuspensionComposes(t: Table, user: UserId)
    ensures DropRoutes(SuspendStatuses(t, user), user) == SuspendAll(t, user)
  {
    var mid := SuspendStatuses(t, user);
    forall id | id in t ensures DropRoutes(mid, user)[id] == SuspendAll(t, user)[id] {}
  }

  /** The statements of a charge, run over the account one after the other, settle each application. */
  lemma SettlementComposes(t: Table, user: UserId, outcome: Settlement, suffix: string)
    requires outcome.Charged?
    ensures var t1 := if outcome.belowReserve then SuspendAll(t, user) else t;
      var t2 := if !outcome.belowReserve && !outcome.morePending
                then InsertAll(t1, user, BillingInsufficient, BillingRecovery, BILLING_KEY + suffix) else t1;
      MarkAll(t2, user, BillingInsufficient, BILLING_KEY) == ForUser(t, user, UsageSettled(outcome, suffix))
  {
    forall id | id in t
      ensures InsertRecovery(t[id], BillingInsufficient, BillingRecovery, BILLING_KEY + suffix).owner == t[id].owner
    {
      InsertKeepsOwner(t[id], BillingInsufficient, BillingRecovery, BILLING_KEY + suffix);
    }
  }

  class AppTables {
    var apps: Table

    constructor ()
      ensures apps == map[]
    {
      apps := map[];
    }

    method CreateApp(id: AppId, owner: UserId, snapshot: Snapshot, key: string) returns (created: bool)
      modifies this
      ensures created <==> id !in old(apps)
      ensures apps == Apply(old(apps), Event.CreateApp(id, owner, snapshot, key))
    {
      created := id !in apps;
      if created {
        var app := App(owner, Deploying, None, None, None, false, [], [], [], []);
        app := app.(releases := app.releases + [Release(snapshot, Created)]);
        app := app.(jobs := app.jobs + [Job(0, key, Deploy, None, Queued, 0)]);
        assert app == NewApp(owner, snapshot, key);
        apps := apps[id := app];
      }
    }

    /** createReleaseJob, for an update (`source` is None) or a rollback. */
    method CreateReleaseJob(id: AppId, source: Option<nat>, built: Snapshot, key: string) returns (verdict: Verdict)
      requires id in apps
      modifies this
      ensures verdict == ReleaseVerdict(old(apps)[id], source)
      ensures apps == old(apps)[id := CreateRelease(old(apps)[id], source, built, key)]
      ensures verdict != Accepted ==> apps == old(apps)
    {
      var app := apps[id];
      if app.status == Suspended { return AppSuspended; }
      if app.status != Running && app.status != Broken && app.status != Stopped { return InvalidStatus; }
      if ActiveJob(app) { return OperationInProgress; }
      var snapshot, operation := built, Update;
      if source.Some? {
        if source.value >= |app.releases| || app.releases[source.value].state !in {Active, Superseded} {
          return ReleaseNotFound;
        }
        snapshot, operation := app.releases[source.value].snapshot, Rollback;
      }
      var release := |app.releases|;
      app := app.(releases := app.releases + [Release(snapshot, Created)]);
      app := app.(jobs := app.jobs + [Job(release, key, operation, source, Queued, 0)]);
      app := app.(status := Updating);
      apps := apps[id := app];
      return Accepted;
    }

    method StartApp(id: AppId, key: string) returns (verdict: Verdict)
      requires id in apps && (apps[id].last.Some? ==> apps[id].last.value < |apps[id].releases|)
      modifies this
      ensures verdict == StartVerdict(old(apps)[id])
      ensures apps == Apply(old(apps), OnApp(id, RequestStart(key)))
      ensures verdict != Accepted ==> apps == old(apps)
    {
      var app := apps[id];
      if app.status == Suspended && app.reason != Some(BillingInsufficient) { return AppSuspended; }
      if app.status == Stopping { return StopInProgress; }
      if app.status != Stopped && app.status != Broken
         && !(app.status == Suspended && app.reason == Some(BillingInsufficient)) {
        return InvalidStatus;
      }
      if app.last.None? { return ReleaseRequired; }
      var snapshot, release := app.releases[app.last.value].snapshot, |app.releases|;
      app := app.(releases := app.releases + [Release(snapshot, Created)]);
      app := app.(jobs := app.jobs + [Job(release, key, Start, app.last, Queued, 0)]);
      app := app.(status := Updating, reason := None);
      apps := apps[id := app];
      return Accepted;
    }

    method StopApp(id: AppId) returns (verdict: Verdict)
      requires id in apps
      modifies this
      ensures verdict == StopVerdict(old(apps)[id])
      ensures apps == Apply(old(apps), OnApp(id, RequestStop))
      ensures verdict != Accepted ==> apps == old(apps)
    {
      var app := apps[id];
      if app.status == Stopped { return AlreadyStopped; }
      if app.status == Stopping { return StopInProgress; }
      if app.status == Suspended { return AppSuspended; }
      if app.status != Running { return InvalidStatus; }
      if ActiveJob(app) || ActiveRestore(app) { return OperationInProgress; }
      if ActiveStop(app) { return UniqueViolation; }
      app := app.(stops := app.stops + [StopQueued]);
      app := app.(route := None);
      app := app.(status := Stopping, reason := None);
      apps := apps[id := app];
      return Accepted;
    }

    method RestoreAppBackup(id: AppId, at: int) returns (verdict: Verdict)
      requires id in apps
      modifies this
      ensures verdict == RestoreVerdict(old(apps)[id])
      ensures apps == Apply(old(apps), OnApp(id, RequestRestore(at)))
      ensures verdict != Accepted ==> apps == old(apps)
    {
      var app := apps[id];
      if app.status != Running { return InvalidStatus; }
      if ActiveRestore(app) { return OperationInProgress; }
      app := app.(restores := app.restores + [Restore(RestoreQueued, at)]);
      app := app.(status := Updating);
      apps := apps[id := app];
      return Accepted;
    }

    method DeleteApp(id: AppId) returns (verdict: Verdict)
      requires id in apps
      modifies this
      ensures verdict == DeleteVerdict(old(apps)[id])
      ensures apps == Apply(old(apps), OnApp(id, RequestDelete))
      ensures verdict != Accepted ==> apps == old(apps)
    {
      var app := apps[id];
      if app.deleted { return AlreadyDeleted; }
      if ActiveJob(app) || ActiveStop(app) || ActiveRestore(app) { return OperationInProgress; }
      app := app.(route := None);
      app := app.(deleted := true, status := Stopped, reason := None);
      apps := apps[id := app];
      return Accepted;
    }

    /** One pass of the deployment worker over job `i`. */
    method ProcessOne(id: AppId, i: nat, healthy: bool) returns (committed: bool)
      requires id in apps
      modifies this
      ensures apps == Apply(old(apps), OnApp(id, WorkerAdvance(i, healthy)))
      ensures committed <==> i < |old(apps)[id].jobs| && !Terminal(old(apps)[id].jobs[i].state)
    {
      var app := apps[id];
      if i >= |app.jobs| || Terminal(app.jobs[i].state) { return false; }
      var job := app.jobs[i];
      var next := NextStateWithHealth(job.state, healthy, HealthAttempt(job.attempts));
      if next.None? || !DeploymentEdge(job.state, next.value) { return false; }
      app := app.(jobs := app.jobs[i := job.(state := next.value, attempts := job.attempts + 1)]);
      if next.value == RollingBack {
        if !IsRecovery(job.operation) { app := WithRelease(app, job.release, Abandoned); }
      }
      if next.value == Succeeded {
        app := app.(status := Running, reason := None, last := Some(job.release));
        app := WithRelease(app, job.release, Active);
        app := app.(releases := Superseding(app.releases, job.release));
        app := app.(route := Some(job.release));
      }
      if next.value == Failed {
        var (status, reason) := FailureState(job.operation, app.last.Some?);
        app := app.(status := status, reason := reason);
        if job.state != RollingBack && !IsRecovery(job.operation) {
          app := WithRelease(app, job.release, Abandoned);
        }
      }
      apps := apps[id := app];
      return true;
    }

    method MarkJobError(id: AppId, i: nat) returns (committed: bool)
      requires id in apps
      modifies this
      ensures apps == Apply(old(apps), OnApp(id, WorkerError(i)))
      ensures committed <==> i < |old(apps)[id].jobs| && DeploymentEdge(old(apps)[id].jobs[i].state, Failed)
    {
      var app := apps[id];
      if i >= |app.jobs| || Terminal(app.jobs[i].state) { return false; }
      var job := app.jobs[i];
      if !DeploymentEdge(job.state, Failed) { return false; }
      app := app.(jobs := app.jobs[i := job.(state := Failed, attempts := job.attempts + 1)]);
      if !IsRecovery(job.operation) { app := WithRelease(app, job.release, Abandoned); }
      var (status, reason) := FailureState(job.operation, app.last.Some?);
      app := app.(status := status, reason := reason);
      apps := apps[id := app];
      return true;
    }

    /** The second transaction of processStopOne. */
    method CompleteStop(id: AppId, k: nat)
      requires id in apps && k < |apps[id].stops|
      modifies this
      ensures apps == Apply(old(apps), OnApp(id, StopFinished(k)))
    {
      var app := apps[id];
      if app.stops[k] == StopRunning { app := app.(stops := app.stops[k := StopSucceeded]); }
      if app.status == Stopping { app := app.(status := Stopped, reason := None); }
      apps := apps[id := app];
    }

    /** The claim of processRestoreOne, once its subquery has settled on row `k` of application `id`. */
    method ClaimRestore(id: AppId, k: nat) returns (claimed: bool)
      requires QueuedRestore(apps, id, k) && !HasOlderQueued(apps, apps[id].restores[k].created)
      modifies this
      ensures apps == Apply(old(apps), OnApp(id, RestoreClaimed(k)))
      ensures claimed <==> old(apps)[id].route.Some?
      ensures !claimed ==> apps == old(apps)
    {
      var app := apps[id];
      if app.route.None? { return false; }
      app := app.(restores := app.restores[k := app.restores[k].(status := RestoreRunning)]);
      apps := apps[id := app];
      return true;
    }

    method FinishRestore(id: AppId, k: nat, succeeded: bool, healthy: bool)
      requires id in apps && k < |apps[id].restores| && apps[id].restores[k].status == RestoreRunning
      modifies this
      ensures apps == Apply(old(apps), OnApp(id, RestoreFinished(k, succeeded, healthy)))
    {
      var (status, appStatus) := RestoreResult(succeeded, healthy);
      var app := apps[id];
      app := app.(restores := app.restores[k := app.restores[k].(status := status)]);
      app := app.(status := appStatus);
      apps := apps[id := app];
    }

    /** The lifecycle statements of one billUsage transaction. */
    method SettleAccount(user: UserId, outcome: Settlement, suffix: string)
      modifies this
      ensures apps == Apply(old(apps), OnUser(user, UsageSettled(outcome, suffix)))
    {
      if outcome.Insufficient? {
        SuspendRunning(user);
        return;
      }
      if outcome.belowReserve { SuspendRunning(user); }
      if !outcome.belowReserve && !outcome.morePending {
        apps := InsertAll(apps, user, BillingInsufficient, BillingRecovery, BILLING_KEY + suffix);
      }
      SettlementComposes(old(apps), user, outcome, suffix);
      apps := MarkAll(apps, user, BillingInsufficient, BILLING_KEY);
    }

    method SuspendRunning(user: UserId)
      modifies this
      ensures apps == SuspendAll(old(apps), user)
    {
      apps := SuspendStatuses(apps, user);
      apps := DropRoutes(apps, user);
      SuspensionComposes(old(apps), user);
    }

    /** The recovery INSERT and UPDATE shared by billUsage and resumeSubscriptionApps. */
    method ResumeSuspended(user: UserId, reason: Reason, op: Operation, prefix: string, suffix: string)
      modifies this
      ensures apps == ResumeAll(old(apps), user, reason, op, prefix, suffix)
    {
      StatementsCompose(apps, user, reason, op, prefix, suffix);
      apps := InsertAll(apps, user, reason, op, prefix + suffix);
      apps := MarkAll(apps, user, reason, prefix);
    }

    method ResumeSubscriptionApps(user: UserId, reference: string, suffix: string)
      modifies this
      ensures apps == Apply(old(apps), OnUser(user, SubscriptionPaid(reference, suffix)))
    {
      ResumeSuspended(user, SubscriptionExpired, SubscriptionRecovery, reference + "/", suffix);
    }
  }
}
