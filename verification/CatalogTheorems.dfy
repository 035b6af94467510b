/** A test succeeds by one healthy check, and nothing is published that was not seen healthy. */
module CatalogTheorems {
  import opened Dependencies
  import opened Catalog
  import opened CatalogInvariant

  // ---------------------------------------------------------------- what a pass makes of a test

  predicate IsChecking(c: Catalog, t: TestId) {
    t in c.tests && c.tests[t].state == HealthChecking
  }

  predicate HasSucceededTest(c: Catalog, t: TestId) {
    t in c.tests && c.tests[t].state == Succeeded
  }

  /** From running to succeeded leads one event only: a pass that finds the test healthy, with no request pending. */
  lemma SuccessNeedsHealth(c: Catalog, e: Event, t: TestId)
    requires t in c.tests && c.tests[t].state != Succeeded && HasSucceededTest(Apply(c, e), t)
    ensures e == TestWorked(t, true) && IsChecking(c, t) && !CancelPending(c, t)
  {
  }

  lemma StartsQueued(c: Catalog, e: Event, t: TestId)
    requires t !in c.tests && t in Apply(c, e).tests
    ensures Apply(c, e).tests[t].state == Queued && Apply(c, e).tests[t].healthAttempts == 0
  {
  }

  /** Some pass of the run found the test healthy while it was being checked. */
  ghost predicate SeenHealthy(events: seq<Event>, t: TestId) {
    events != [] &&
      (|| SeenHealthy(events[..|events| - 1], t)
       || (events[|events| - 1] == TestWorked(t, true) && IsChecking(Run(Empty(), events[..|events| - 1]), t)))
  }

  /** In every run a test that has succeeded was seen healthy. */
  lemma {:induction false} SucceededWasSeenHealthy(events: seq<Event>, t: TestId)
    requires HasSucceededTest(Run(Empty(), events), t)
    ensures SeenHealthy(events, t)
  {
    var front, e := events[..|events| - 1], events[|events| - 1];
    var before := Run(Empty(), front);
    if t !in before.tests {
      StartsQueued(before, e, t);
    } else if before.tests[t].state == Succeeded {
      SucceededWasSeenHealthy(front, t);
    } else {
      SuccessNeedsHealth(before, e, t);
    }
  }

  /** Every published version has a test of its own that was seen healthy. */
  lemma PublishedWasSeenHealthy(events: seq<Event>, v: VersionId)
    requires v in Run(Empty(), events).versions && Run(Empty(), events).versions[v].published
    ensures var c := Run(Empty(), events);
      exists t :: t in c.tests && c.tests[t].version == v && SeenHealthy(events, t)
  {
    RunKeeps(events);
    var c := Run(Empty(), events);
    assert HasSucceeded(c.tests, v);
    var t :| t in c.tests && c.tests[t].version == v && c.tests[t].state == Succeeded;
    SucceededWasSeenHealthy(events, t);
  }

  // ---------------------------------------------------------------- how often a test may fail its check

  /** How many passes found the test unhealthy while it was being checked and no request was pending. */
  ghost function FailedChecks(events: seq<Event>, t: TestId): nat {
    if events == [] then 0 else
      var before := Run(Empty(), events[..|events| - 1]);
      FailedChecks(events[..|events| - 1], t) +
      if events[|events| - 1] == TestWorked(t, false) && IsChecking(before, t) && !CancelPending(before, t)
      then 1 else 0
  }

  predicate Early(s: TestState) {
    s == Queued || s == Pulling || s == Starting
  }

  lemma ChecksStep(c: Catalog, e: Event, t: TestId)
    requires t in c.tests && TestInv(c.tests[t])
    ensures t in Apply(c, e).tests
    ensures var x, y := c.tests[t], Apply(c, e).tests[t];
      && (Early(y.state) ==> Early(x.state))
      && (y.state == HealthChecking ==>
            if x.state == HealthChecking
            then y.healthAttempts ==
                 x.healthAttempts + if e == TestWorked(t, false) && !CancelPending(c, t) then 1 else 0
            else Early(x.state) && y.healthAttempts == 0)
  {
  }

  /** The health attempts of a test under check are its failed checks. */
  lemma {:induction false} ChecksAreCounted(events: seq<Event>, t: TestId)
    ensures t !in Run(Empty(), events).tests ==> FailedChecks(events, t) == 0
    ensures t in Run(Empty(), events).tests && Early(Run(Empty(), events).tests[t].state) ==>
      FailedChecks(events, t) == 0
    ensures IsChecking(Run(Empty(), events), t) ==>
      Run(Empty(), events).tests[t].healthAttempts == FailedChecks(events, t)
  {
    if events != [] {
      var front, e := events[..|events| - 1], events[|events| - 1];
      ChecksAreCounted(front, t);
      RunKeeps(front);
      TestsStay(Run(Empty(), front), e, t);
      if t in Run(Empty(), front).tests { ChecksStep(Run(Empty(), front), e, t); }
      else if t in Run(Empty(), events).tests { StartsQueued(Run(Empty(), front), e, t); }
    }
  }

  /** What a pass makes of a test while no request is pending: a healthy check ends it succeeded, one of the
      first seven failed checks leaves it where it is, and the eighth ends it failed. */
  lemma PassOutcome(events: seq<Event>, t: TestId, healthy: bool)
    requires events != [] && events[|events| - 1] == TestWorked(t, healthy)
    requires var before := Run(Empty(), events[..|events| - 1]); t in before.tests && !CancelPending(before, t)
    ensures var front := events[..|events| - 1];
      && t in Run(Empty(), events).tests
      && Run(Empty(), events).tests[t].state ==
           match Run(Empty(), front).tests[t].state
           case Queued => Pulling
           case Pulling => Starting
           case Starting => HealthChecking
           case HealthChecking => if healthy then Succeeded
                                  else if FailedChecks(front, t) + 1 < 8 then HealthChecking else Failed
           case ended => ended
  {
    ChecksAreCounted(events[..|events| - 1], t);
  }

  // ---------------------------------------------------------------- when a version can be published

  /** The dependency is another product on offer that does not lead back to this one. */
  ghost predicate GoodTarget(c: Catalog, p: ProductId, t: ProductId) {
    t != p && Available(c, t) && !Connected(Edges(c.versions), t, p)
  }

  lemma CheckedIsGood(c: Catalog, p: ProductId, t: ProductId)
    ensures CheckDependency(c, p, t).NoError? <==> GoodTarget(c, p, t)
  {
    ReachableIsConnected(Edges(c.versions), t, p);
  }

  /** A version can be published exactly when its product is not retired, it is not published yet, a test of
      it has succeeded, and every dependency is another product on offer with no path back. */
  lemma PublishedIff(c: Catalog, v: VersionId)
    ensures PublishAnswer(c, v).Done? <==>
      && v in c.versions && c.versions[v].product in c.products
      && c.products[c.versions[v].product] != Retired && !c.versions[v].published
      && HasSucceeded(c.tests, v)
      && (forall t :: t in c.versions[v].deps ==> GoodTarget(c, c.versions[v].product, t))
  {
    if v in c.versions {
      var p, deps := c.versions[v].product, c.versions[v].deps;
      forall t ensures CheckDependency(c, p, t).NoError? <==> GoodTarget(c, p, t) { CheckedIsGood(c, p, t); }
      assert ValidateDependencies(c, p, deps).NoError? <==> forall t :: t in deps ==> GoodTarget(c, p, t);
    }
  }

  // ---------------------------------------------------------------- when a test, a version or a product may change

  predicate Running(c: Catalog, t: TestId, v: VersionId) {
    t in c.tests && c.tests[t].version == v && !Over(c.tests[t].state)
  }

  /** A test of a version can be started exactly while the version is unpublished, its product is not retired
      and no other test of it is running; it starts queued with the secrets given. */
  lemma TestStartedIff(c: Catalog, t: TestId, v: VersionId, secrets: map<string, string>)
    requires t !in c.tests
    ensures var d := Apply(c, TestStarted(t, v, secrets));
      && (t in d.tests <==>
            && v in c.versions && c.versions[v].product in c.products && c.products[c.versions[v].product] != Retired
            && !c.versions[v].published && forall u :: !Running(c, u, v))
      && (t in d.tests ==>
            && d == c.(tests := c.tests[t := Test(v, Queued, 0, 0, secrets)], products := d.products)
            && var p := c.versions[v].product;
               d.products == if c.products[p] == Draft then c.products[p := Testing] else c.products)
  {
    if ActiveTest(c, v) {
      var u :| u in c.tests && c.tests[u].version == v && !Over(c.tests[u].state);
      assert Running(c, u, v);
    }
  }

  predicate DependsOn(c: Catalog, v: VersionId, p: ProductId) {
    && OnOffer(c, v) && p in c.versions[v].deps && c.versions[v].product != p
    && c.versions[v].product in c.products && c.products[c.versions[v].product] == Published
  }

  predicate TestRuns(c: Catalog, t: TestId, p: ProductId) {
    && t in c.tests && !Over(c.tests[t].state)
    && c.tests[t].version in c.versions && c.versions[c.tests[t].version].product == p
  }

  lemma RunningTestFound(c: Catalog, p: ProductId)
    ensures ProductTested(c, p, true) <==> exists t :: TestRuns(c, t, p)
  {
    if ProductTested(c, p, true) {
      var t :| t in c.tests && c.tests[t].version in c.versions && c.versions[c.tests[t].version].product == p
               && !Over(c.tests[t].state);
      assert TestRuns(c, t, p);
    }
  }

  lemma DependentFound(c: Catalog, p: ProductId)
    ensures NeededBy(c, p) <==> exists v :: DependsOn(c, v, p)
  {
    if NeededBy(c, p) {
      var v :| v in c.versions && OnOffer(c, v) && c.versions[v].product != p && c.versions[v].product in c.products
               && c.products[c.versions[v].product] == Published && p in c.versions[v].deps;
      assert DependsOn(c, v, p);
    }
  }

  /** A product is taken off offer exactly when it is on, no test of it is running, and no version on offer of
      another product depends on it. */
  lemma RetiredIff(c: Catalog, p: ProductId)
    requires p in c.products && c.products[p] != Retired
    ensures var d := Apply(c, TakenOffOffer(p));
      d == c.(products := c.products[p := Retired])
      <==> (forall t :: !TestRuns(c, t, p)) && (forall v :: !DependsOn(c, v, p))
  {
    RunningTestFound(c, p);
    DependentFound(c, p);
    assert c != c.(products := c.products[p := Retired]) by { assert c.products[p := Retired][p] == Retired; }
  }

  /** A product put back is published if it has a version on offer, in testing if it was ever tested, and a
      draft otherwise. */
  lemma PutBackAs(c: Catalog, p: ProductId)
    requires p in c.products && c.products[p] == Retired && p in Apply(c, ProductRestored(p)).products
    requires Apply(c, ProductRestored(p)).products[p] != Retired
    ensures var state := Apply(c, ProductRestored(p)).products[p];
      && (state == Published <==> exists v :: OnOffer(c, v) && c.versions[v].product == p)
      && (state == Draft ==> forall t :: t in c.tests && c.tests[t].version in c.versions ==>
                               c.versions[c.tests[t].version].product != p)
      && (state == Testing ==> exists t :: t in c.tests && c.tests[t].version in c.versions
                                           && c.versions[c.tests[t].version].product == p)
  {
    if HasLiveVersion(c, p) {
      var v :| v in c.versions && OnOffer(c, v) && c.versions[v].product == p;
    } else if v :| OnOffer(c, v) && c.versions[v].product == p {
      assert HasLiveVersion(c, p);
    }
  }

  /** Publishing puts the product on offer and changes nothing else about it or any other version. */
  lemma PublishedIs(c: Catalog, v: VersionId)
    requires PublishAnswer(c, v).Done?
    ensures var d := Apply(c, VersionPublished(v));
      && d.products == c.products[c.versions[v].product := Published] && d.tests == c.tests
      && d.cancellations == c.cancellations && d.versions.Keys == c.versions.Keys && d.versions[v].published
      && (forall w :: w in c.versions && w != v ==> d.versions[w] == c.versions[w])
      && d.versions[v] == Version(c.versions[v].product, c.versions[v].deps, true, c.versions[v].deleted)
  {
  }

  /** A version is created exactly for a new id, a product that is not retired, and good dependencies; it starts
      unpublished. */
  lemma VersionCreatedIff(c: Catalog, v: VersionId, p: ProductId, deps: seq<ProductId>)
    requires v !in c.versions
    ensures var d := Apply(c, VersionCreated(v, p, deps));
      && (v in d.versions <==>
            p in c.products && c.products[p] != Retired && forall t :: t in deps ==> GoodTarget(c, p, t))
      && (v in d.versions ==> d == c.(versions := c.versions[v := Version(p, deps, false, false)]))
      && (v !in d.versions ==> d == c)
  {
    forall t ensures CheckDependency(c, p, t).NoError? <==> GoodTarget(c, p, t) { CheckedIsGood(c, p, t); }
    assert ValidateDependencies(c, p, deps).NoError? <==> forall t :: t in deps ==> GoodTarget(c, p, t);
  }

  /** A version is taken off exactly when none of its tests is running; it stays in the graph. */
  lemma VersionDeletedIff(c: Catalog, v: VersionId)
    requires v in c.versions
    ensures var d := Apply(c, VersionDeleted(v));
      && d == c.(versions := c.versions[v := d.versions[v]])
      && (d.versions[v].deleted <==> c.versions[v].deleted || forall t :: !Running(c, t, v))
      && Edges(d.versions) == Edges(c.versions)
  {
    if ActiveTest(c, v) {
      var t :| t in c.tests && c.tests[t].version == v && !Over(c.tests[t].state);
      assert Running(c, t, v);
    }
    SameEdges(c.versions, Apply(c, VersionDeleted(v)).versions);
  }

  /** A request to cancel is inserted exactly once, for a test that was seen running, and only asks. */
  lemma RequestedIff(c: Catalog, t: TestId, seen: TestState)
    ensures var d := Apply(c, CancelRequested(t, seen));
      if t in c.tests && t !in c.cancellations && (Early(seen) || seen == HealthChecking)
      then d == c.(cancellations := c.cancellations[t := false]) else d == c
  {
  }

  /** A product starts as a draft. */
  lemma ProductStarts(c: Catalog, p: ProductId)
    ensures Apply(c, ProductCreated(p)) == if p in c.products then c else c.(products := c.products[p := Draft])
  {
  }
}
