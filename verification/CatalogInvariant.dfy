/** What every run of the catalog and of the test worker keeps. */
module CatalogInvariant {
  import opened Dependencies
  import opened Catalog

  // ---------------------------------------------------------------- the parts

  /** How many transitions a test has made, state by state; a finished test keeps no secrets. */
  predicate TestInv(test: Test) {
    && test.healthAttempts < MAX_HEALTH_ATTEMPTS
    && match test.state
       case Queued => test.attempts == 0 && test.healthAttempts == 0
       case Pulling => test.attempts == 1 && test.healthAttempts == 0
       case Starting => test.attempts == 2 && test.healthAttempts == 0
       case HealthChecking => test.attempts == 3 + test.healthAttempts
       case _ => 0 < test.attempts <= 3 + MAX_HEALTH_ATTEMPTS && test.secrets == map[]
  }

  predicate TestsSane(versions: map<VersionId, Version>, tests: map<TestId, Test>) {
    forall t :: t in tests ==> TestInv(tests[t]) && tests[t].version in versions
  }

  /** A version has at most one test that is not over. */
  predicate OneActive(tests: map<TestId, Test>) {
    forall t, u | t in tests && u in tests && !Over(tests[t].state) && !Over(tests[u].state) ::
      tests[t].version == tests[u].version ==> t == u
  }

  predicate HasSucceeded(tests: map<TestId, Test>, v: VersionId) {
    exists t :: t in tests && tests[t].version == v && tests[t].state == Succeeded
  }

  /** A cancelled test was asked to stop, and an acknowledged request belongs to a finished test. */
  predicate CancelsSane(tests: map<TestId, Test>, cancellations: map<TestId, bool>) {
    && (forall t :: t in cancellations ==> t in tests && (cancellations[t] ==> Over(tests[t].state)))
    && (forall t :: t in tests && tests[t].state == Cancelled ==> t in cancellations)
  }

  predicate TestedBefore(versions: map<VersionId, Version>, tests: map<TestId, Test>) {
    forall v :: v in versions && versions[v].published ==> HasSucceeded(tests, v)
  }

  /** A product with a live version is on offer or retired, and what a product on offer depends on is on offer. */
  predicate OfferSane(c: Catalog) {
    && (forall v :: v in c.versions ==> c.versions[v].product in c.products)
    && (forall v :: v in c.versions && OnOffer(c, v) ==> c.products[c.versions[v].product] in {Published, Retired})
    && (forall v, t | v in c.versions && OnOffer(c, v) && t in c.versions[v].deps ::
          c.products[c.versions[v].product] == Published ==> Available(c, t))
  }

  predicate TestTablesSane(c: Catalog) {
    && TestsSane(c.versions, c.tests)
    && OneActive(c.tests)
    && CancelsSane(c.tests, c.cancellations)
    && TestedBefore(c.versions, c.tests)
  }

  ghost predicate CatalogInv(c: Catalog) {
    && TestTablesSane(c)
    && OfferSane(c) && Acyclic(Edges(c.versions))
  }

  // ---------------------------------------------------------------- the graph

  lemma EdgesAfterPublish(versions: map<VersionId, Version>, v: VersionId)
    requires v in versions
    ensures Edges(versions[v := versions[v].(published := true)])
         == Edges(versions) + NewEdges(versions[v].product, set t | t in versions[v].deps)
  {
    var after := versions[v := versions[v].(published := true)];
    var deps := set t | t in versions[v].deps;
    forall e | e in Edges(after) ensures e in Edges(versions) + NewEdges(versions[v].product, deps) {
      var w :| w in after && after[w].published && e.0 == after[w].product && e.1 in after[w].deps;
      if w != v { assert w in versions && versions[w] == after[w]; }
    }
    forall e | e in Edges(versions) ensures e in Edges(after) {
      var w :| w in versions && versions[w].published && e.0 == versions[w].product && e.1 in versions[w].deps;
      assert w in after && after[w].published && after[w].product == e.0 && e.1 in after[w].deps;
    }
    forall e | e in NewEdges(versions[v].product, deps) ensures e in Edges(after) {
      assert v in after && after[v].published && e.1 in after[v].deps;
    }
  }

  lemma PublishAcyclic(c: Catalog, v: VersionId)
    requires Acyclic(Edges(c.versions))
    ensures Acyclic(Edges(Publish(c, v).versions))
  {
    if PublishAnswer(c, v).Done? {
      var p := c.versions[v].product;
      var deps := set t | t in c.versions[v].deps;
      forall t | t in deps ensures p !in Reachable(Edges(c.versions), t) {
        var i :| 0 <= i < |c.versions[v].deps| && c.versions[v].deps[i] == t;
        assert CheckDependency(c, p, c.versions[v].deps[i]).NoError?;
      }
      PublishKeepsAcyclic(Edges(c.versions), p, deps);
      EdgesAfterPublish(c.versions, v);
    }
  }

  /** Apart from a deletion mark, nothing about a version changed. */
  predicate SameButDeleted(before: Version, after: Version) {
    before == after || before.(deleted := true) == after
  }

  lemma SameEdges(versions: map<VersionId, Version>, after: map<VersionId, Version>)
    requires forall v :: v in versions ==> v in after && SameButDeleted(versions[v], after[v])
    requires forall v :: v in after && v !in versions ==> !after[v].published
    ensures Edges(after) == Edges(versions)
  {
    forall e | e in Edges(after) ensures e in Edges(versions) {
      var w :| w in after && after[w].published && e.0 == after[w].product && e.1 in after[w].deps;
      assert w in versions && versions[w].published && e.1 in versions[w].deps;
    }
    forall e | e in Edges(versions) ensures e in Edges(after) {
      var w :| w in versions && versions[w].published && e.0 == versions[w].product && e.1 in versions[w].deps;
      assert w in after && after[w].published && e.1 in after[w].deps;
    }
  }

  // ---------------------------------------------------------------- what is on offer

  lemma ValidTargets(c: Catalog, p: ProductId, deps: seq<ProductId>)
    requires ValidateDependencies(c, p, deps).NoError?
    ensures forall t :: t in deps ==> t != p && Available(c, t)
  {
    forall t | t in deps ensures t != p && Available(c, t) {
      var i :| 0 <= i < |deps| && deps[i] == t;
      assert CheckDependency(c, p, deps[i]).NoError?;
    }
  }

  /** Availability survives as long as the product stays on offer and no version is unpublished. */
  lemma StaysAvailable(c: Catalog, d: Catalog, t: ProductId)
    requires Available(c, t) && t in d.products && d.products[t] == Published
    requires forall v :: v in c.versions && c.versions[v].published ==>
      v in d.versions && d.versions[v].published && d.versions[v].product == c.versions[v].product
    ensures Available(d, t)
  {
    var v :| v in c.versions && c.versions[v].product == t && c.versions[v].published;
    assert d.versions[v].product == t && d.versions[v].published;
  }

  lemma PublishOffers(c: Catalog, v: VersionId)
    requires OfferSane(c)
    ensures OfferSane(Publish(c, v))
  {
    if PublishAnswer(c, v).Done? {
      var d := Publish(c, v);
      var p := c.versions[v].product;
      ValidTargets(c, p, c.versions[v].deps);
      forall w, t | w in d.versions && OnOffer(d, w) && d.products[d.versions[w].product] == Published
                    && t in d.versions[w].deps
        ensures Available(d, t)
      {
        if w != v { assert OnOffer(c, w); }
        StaysAvailable(c, d, t);
      }
      forall w | w in d.versions && OnOffer(d, w) ensures d.products[d.versions[w].product] in {Published, Retired} {
        if w != v { assert OnOffer(c, w); }
      }
    }
  }

  lemma RestoreOffers(c: Catalog, p: ProductId)
    requires OfferSane(c)
    ensures OfferSane(Restore(c, p))
  {
    var d := Restore(c, p);
    if d != c {
      forall w, t | w in d.versions && OnOffer(d, w) && d.products[d.versions[w].product] == Published
                    && t in d.versions[w].deps
        ensures Available(d, t)
      {
        assert OnOffer(c, w);
        if d.versions[w].product == p { ValidTargets(c, p, c.versions[w].deps); }
        StaysAvailable(c, d, t);
      }
      forall w | w in d.versions && OnOffer(d, w) ensures d.products[d.versions[w].product] in {Published, Retired} {
        assert OnOffer(c, w);
        if d.versions[w].product == p { assert HasLiveVersion(c, p); }
      }
    }
  }

  lemma RetireOffers(c: Catalog, p: ProductId)
    requires OfferSane(c)
    ensures OfferSane(Retire(c, p))
  {
    var d := Retire(c, p);
    if d != c {
      forall w, t | w in d.versions && OnOffer(d, w) && d.products[d.versions[w].product] == Published
                    && t in d.versions[w].deps
        ensures Available(d, t)
      {
        assert OnOffer(c, w) && c.products[c.versions[w].product] == Published;
        assert t != p;
        StaysAvailable(c, d, t);
      }
      assert forall w :: w in d.versions && OnOffer(d, w) ==> OnOffer(c, w);
    }
  }

  /** Events that publish nothing and take nothing off offer. */
  lemma QuietOffers(c: Catalog, d: Catalog)
    requires OfferSane(c)
    requires forall p :: p in c.products ==>
      p in d.products && (d.products[p] == c.products[p] || (c.products[p] == Draft && d.products[p] == Testing))
    requires forall v :: v in c.versions ==> v in d.versions && SameButDeleted(c.versions[v], d.versions[v])
    requires forall v :: v in d.versions && v !in c.versions ==>
      !d.versions[v].published && d.versions[v].product in d.products
    ensures OfferSane(d)
  {
    forall w, t | w in d.versions && OnOffer(d, w) && d.products[d.versions[w].product] == Published
                  && t in d.versions[w].deps
      ensures Available(d, t)
    {
      assert OnOffer(c, w);
      StaysAvailable(c, d, t);
    }
    assert forall w :: w in d.versions && OnOffer(d, w) ==> OnOffer(c, w);
  }

  // ---------------------------------------------------------------- tests

  lemma SuccessStays(versions: map<VersionId, Version>, tests: map<TestId, Test>, after: map<TestId, Test>)
    requires TestedBefore(versions, tests)
    requires forall t :: t in tests && tests[t].state == Succeeded ==> t in after && after[t] == tests[t]
    ensures TestedBefore(versions, after)
  {
    forall v | v in versions && versions[v].published ensures HasSucceeded(after, v) {
      assert HasSucceeded(tests, v);
      var t :| t in tests && tests[t].version == v && tests[t].state == Succeeded;
      assert after[t].version == v && after[t].state == Succeeded;
    }
  }

  lemma ActiveStays(tests: map<TestId, Test>, t: TestId, after: Test)
    requires OneActive(tests) && t in tests && after.version == tests[t].version
    requires (Over(tests[t].state) ==> after == tests[t])
    ensures OneActive(tests[t := after])
  {
  }

  /** At most the request for `t` was made or acknowledged. */
  predicate Marked(before: map<TestId, bool>, after: map<TestId, bool>, t: TestId) {
    after == before || after == before[t := false] || after == before[t := true]
  }

  lemma CancelsStay(tests: map<TestId, Test>, t: TestId, after: Test, before: map<TestId, bool>,
                    cancellations: map<TestId, bool>)
    requires CancelsSane(tests, before) && t in tests
    requires if Over(tests[t].state) then after == tests[t] else (after.state == Cancelled ==> t in cancellations)
    requires Marked(before, cancellations, t)
    requires t in cancellations && cancellations[t] ==> Over(after.state)
    ensures CancelsSane(tests[t := after], cancellations)
  {
  }

  lemma TestStaysSane(versions: map<VersionId, Version>, tests: map<TestId, Test>, t: TestId, after: Test)
    requires TestsSane(versions, tests) && t in tests && TestInv(after) && after.version == tests[t].version
    ensures TestsSane(versions, tests[t := after])
  {
  }

  lemma TestTablesReplaced(c: Catalog, t: TestId, after: Test, cancellations: map<TestId, bool>)
    requires TestTablesSane(c) && t in c.tests && TestInv(after) && after.version == c.tests[t].version
    requires if Over(c.tests[t].state) then after == c.tests[t] else (after.state == Cancelled ==> t in cancellations)
    requires Marked(c.cancellations, cancellations, t) && (t in cancellations && cancellations[t] ==> Over(after.state))
    ensures TestTablesSane(c.(tests := c.tests[t := after], cancellations := cancellations))
  {
    TestStaysSane(c.versions, c.tests, t, after);
    ActiveStays(c.tests, t, after);
    CancelsStay(c.tests, t, after, c.cancellations, cancellations);
    SuccessStays(c.versions, c.tests, c.tests[t := after]);
  }

  lemma OffersIgnoreTests(c: Catalog, tests: map<TestId, Test>, cancellations: map<TestId, bool>)
    requires OfferSane(c)
    ensures OfferSane(c.(tests := tests, cancellations := cancellations))
  {
    QuietOffers(c, c.(tests := tests, cancellations := cancellations));
  }

  /** A test row replaced by a later one of the same test. */
  lemma TestReplaced(c: Catalog, t: TestId, after: Test, cancellations: map<TestId, bool>)
    requires CatalogInv(c) && t in c.tests && TestInv(after) && after.version == c.tests[t].version
    requires if Over(c.tests[t].state) then after == c.tests[t] else (after.state == Cancelled ==> t in cancellations)
    requires Marked(c.cancellations, cancellations, t) && (t in cancellations && cancellations[t] ==> Over(after.state))
    ensures CatalogInv(c.(tests := c.tests[t := after], cancellations := cancellations))
  {
    TestTablesReplaced(c, t, after, cancellations);
    OffersIgnoreTests(c, c.tests[t := after], cancellations);
  }

  lemma WorkKeeps(c: Catalog, t: TestId, healthy: bool)
    requires CatalogInv(c)
    ensures CatalogInv(Work(c, t, healthy))
  {
    if t in c.tests && !Over(c.tests[t].state) && !CancelPending(c, t) {
      TestReplaced(c, t, Worked(c.tests[t], healthy), c.cancellations);
    }
  }

  lemma FailKeeps(c: Catalog, t: TestId)
    requires CatalogInv(c)
    ensures CatalogInv(Fail(c, t))
  {
    if t in c.tests && !Over(c.tests[t].state) {
      TestReplaced(c, t, Fail(c, t).tests[t], c.cancellations);
    }
  }

  lemma CancelKeeps(c: Catalog, t: TestId)
    requires CatalogInv(c)
    ensures CatalogInv(Cancel(c, t))
  {
    if CancelPending(c, t) && t in c.tests {
      TestReplaced(c, t, Cancel(c, t).tests[t], c.cancellations[t := true]);
    }
  }

  lemma RequestKeeps(c: Catalog, t: TestId, seen: TestState)
    requires CatalogInv(c)
    ensures CatalogInv(RequestCancel(c, t, seen))
  {
    if t in c.tests && t !in c.cancellations {
      TestReplaced(c, t, c.tests[t], c.cancellations[t := false]);
      assert c.tests[t := c.tests[t]] == c.tests;
    }
  }

  lemma QueuedAdded(versions: map<VersionId, Version>, tests: map<TestId, Test>, t: TestId, after: Test)
    requires TestsSane(versions, tests) && OneActive(tests) && t !in tests && after.version in versions
    requires after.state == Queued && after.attempts == 0 && after.healthAttempts == 0
    requires !exists u :: u in tests && tests[u].version == after.version && !Over(tests[u].state)
    ensures TestsSane(versions, tests[t := after]) && OneActive(tests[t := after])
  {
  }

  lemma StartTestTables(c: Catalog, t: TestId, v: VersionId, secrets: map<string, string>)
    requires TestTablesSane(c) && t !in c.tests && StartTestAnswer(c, v).Done?
    ensures TestTablesSane(StartTest(c, t, v, secrets))
  {
    QueuedAdded(c.versions, c.tests, t, Test(v, Queued, 0, 0, secrets));
    SuccessStays(c.versions, c.tests, StartTest(c, t, v, secrets).tests);
  }

  lemma StartTestOffers(c: Catalog, t: TestId, v: VersionId, secrets: map<string, string>)
    requires OfferSane(c)
    ensures OfferSane(StartTest(c, t, v, secrets)) && StartTest(c, t, v, secrets).versions == c.versions
  {
    QuietOffers(c, StartTest(c, t, v, secrets));
  }

  lemma StartTestKeeps(c: Catalog, t: TestId, v: VersionId, secrets: map<string, string>)
    requires CatalogInv(c)
    ensures CatalogInv(StartTest(c, t, v, secrets))
  {
    StartTestOffers(c, t, v, secrets);
    if t !in c.tests && StartTestAnswer(c, v).Done? {
      StartTestTables(c, t, v, secrets);
    } else {
      assert StartTest(c, t, v, secrets) == c;
    }
  }

  lemma PublishKeeps(c: Catalog, v: VersionId)
    requires CatalogInv(c)
    ensures CatalogInv(Publish(c, v))
  {
    PublishAcyclic(c, v);
    PublishOffers(c, v);
  }

  lemma CreateProductKeeps(c: Catalog, p: ProductId)
    requires CatalogInv(c)
    ensures CatalogInv(CreateProduct(c, p))
  {
    QuietOffers(c, CreateProduct(c, p));
  }

  lemma CreateVersionKeeps(c: Catalog, v: VersionId, p: ProductId, deps: seq<ProductId>)
    requires CatalogInv(c)
    ensures CatalogInv(CreateVersion(c, v, p, deps))
  {
    QuietOffers(c, CreateVersion(c, v, p, deps));
    SameEdges(c.versions, CreateVersion(c, v, p, deps).versions);
  }

  lemma DeleteVersionKeeps(c: Catalog, v: VersionId)
    requires CatalogInv(c)
    ensures CatalogInv(DeleteVersion(c, v))
  {
    QuietOffers(c, DeleteVersion(c, v));
    SameEdges(c.versions, DeleteVersion(c, v).versions);
  }

  lemma AvailabilityKeeps(c: Catalog, p: ProductId)
    requires CatalogInv(c)
    ensures CatalogInv(Restore(c, p)) && CatalogInv(Retire(c, p))
  {
    RestoreOffers(c, p);
    RetireOffers(c, p);
  }

  // ---------------------------------------------------------------- runs

  lemma StepKeeps(c: Catalog, e: Event)
    requires CatalogInv(c)
    ensures CatalogInv(Apply(c, e))
  {
    match e
    case ProductCreated(p) => CreateProductKeeps(c, p);
    case VersionCreated(v, p, deps) => CreateVersionKeeps(c, v, p, deps);
    case VersionPublished(v) => PublishKeeps(c, v);
    case VersionDeleted(v) => DeleteVersionKeeps(c, v);
    case ProductRestored(p) => AvailabilityKeeps(c, p);
    case TakenOffOffer(p) => AvailabilityKeeps(c, p);
    case TestStarted(t, v, secrets) => StartTestKeeps(c, t, v, secrets);
    case CancelRequested(t, seen) => RequestKeeps(c, t, seen);
    case TestWorked(t, healthy) => WorkKeeps(c, t, healthy);
    case TestFailed(t) => FailKeeps(c, t);
    case CancelProcessed(t) => CancelKeeps(c, t);
  }

  lemma EmptyIsAcyclic()
    ensures Acyclic(Edges(Empty().versions))
  {
    var g := Edges(Empty().versions);
    forall path | IsPath(g, path) ensures |path| == 1 {
      if |path| > 1 { FirstEdge(g, path); }
    }
  }

  /** In every run the dependency graph of published versions is acyclic, a published version has a
      succeeded test, a finished test has no secrets, and an acknowledged cancellation has stopped its test. */
  lemma {:induction false} RunKeeps(events: seq<Event>)
    ensures CatalogInv(Run(Empty(), events))
  {
    if events == [] {
      EmptyIsAcyclic();
    } else {
      RunKeeps(events[..|events| - 1]);
      StepKeeps(Run(Empty(), events[..|events| - 1]), events[|events| - 1]);
    }
  }

  // ---------------------------------------------------------------- how a test ends

  /** Whatever happens next, a finished test stays exactly as it is, and no test disappears. */
  lemma {:induction false} FinishedStaysFinished(c: Catalog, events: seq<Event>, t: TestId)
    requires t in c.tests && Over(c.tests[t].state)
    ensures t in Run(c, events).tests && Run(c, events).tests[t] == c.tests[t]
  {
    if events != [] {
      FinishedStaysFinished(c, events[..|events| - 1], t);
      FinishedStays(Run(c, events[..|events| - 1]), events[|events| - 1], t);
    }
  }

  lemma FinishedStays(c: Catalog, e: Event, t: TestId)
    requires t in c.tests && Over(c.tests[t].state)
    ensures t in Apply(c, e).tests && Apply(c, e).tests[t] == c.tests[t]
  {
  }

  predicate Moves(c: Catalog, e: Event, t: TestId) {
    t in c.tests && t in Apply(c, e).tests && Apply(c, e).tests[t] != c.tests[t]
  }

  predicate FollowsTrigger(before: Test, after: Test) {
    && TestEdge(before.state, after.state) && after.version == before.version
    && after.attempts == before.attempts + 1
    && after.secrets == (if Over(after.state) then map[] else before.secrets)
  }

  lemma WorkedFollows(test: Test, healthy: bool)
    requires TestInv(test) && !Over(test.state)
    ensures FollowsTrigger(test, Worked(test, healthy))
  {
  }

  lemma CompletedFollows(test: Test)
    requires !Over(test.state)
    ensures FollowsTrigger(test, Completed(test, Failed)) && FollowsTrigger(test, Completed(test, Cancelled))
  {
  }

  lemma MoveFollows(c: Catalog, e: Event, t: TestId)
    requires Moves(c, e, t) && TestInv(c.tests[t]) && !Over(c.tests[t].state)
    ensures FollowsTrigger(c.tests[t], Apply(c, e).tests[t])
  {
    CompletedFollows(c.tests[t]);
    if e.TestWorked? { WorkedFollows(c.tests[t], e.healthy); }
  }

  /** Every change of a test passes the trigger on its table, counts one attempt, and clears the
      secrets exactly when it ends the test. */
  lemma MovesFollowTrigger(c: Catalog, e: Event, t: TestId)
    requires CatalogInv(c) && Moves(c, e, t)
    ensures FollowsTrigger(c.tests[t], Apply(c, e).tests[t])
  {
    if Over(c.tests[t].state) { FinishedStays(c, e, t); } else { MoveFollows(c, e, t); }
  }

  function MovesOf(c: Catalog, events: seq<Event>, t: TestId): nat {
    if events == [] then 0
    else
      var front := events[..|events| - 1];
      MovesOf(c, front, t) + if Moves(Run(c, front), events[|events| - 1], t) then 1 else 0
  }

  lemma TestsStay(c: Catalog, e: Event, t: TestId)
    ensures t in c.tests ==> t in Apply(c, e).tests
    ensures t !in c.tests && t in Apply(c, e).tests ==> Apply(c, e).tests[t].attempts == 0
  {
  }

  lemma StepCounts(c: Catalog, e: Event, t: TestId)
    requires CatalogInv(c)
    ensures t in c.tests ==>
      t in Apply(c, e).tests && Apply(c, e).tests[t].attempts == c.tests[t].attempts + if Moves(c, e, t) then 1 else 0
    ensures t !in c.tests && t in Apply(c, e).tests ==> Apply(c, e).tests[t].attempts == 0
  {
    TestsStay(c, e, t);
    if Moves(c, e, t) { MovesFollowTrigger(c, e, t); }
  }

  lemma {:induction false} AttemptsCountMoves(events: seq<Event>, t: TestId)
    ensures t !in Run(Empty(), events).tests ==> MovesOf(Empty(), events, t) == 0
    ensures t in Run(Empty(), events).tests ==> Run(Empty(), events).tests[t].attempts == MovesOf(Empty(), events, t)
  {
    if events != [] {
      var front, e := events[..|events| - 1], events[|events| - 1];
      AttemptsCountMoves(front, t);
      RunKeeps(front);
      StepCounts(Run(Empty(), front), e, t);
    }
  }

  /** A test makes at most eleven moves, of which at most seven are unhealthy retries, and is over after
      the eleventh. */
  lemma TestEndsWithinElevenMoves(events: seq<Event>, t: TestId)
    ensures MovesOf(Empty(), events, t) <= 11
    ensures MovesOf(Empty(), events, t) == 11 ==>
      t in Run(Empty(), events).tests && Over(Run(Empty(), events).tests[t].state)
    ensures t in Run(Empty(), events).tests ==> Run(Empty(), events).tests[t].healthAttempts < MAX_HEALTH_ATTEMPTS
  {
    AttemptsCountMoves(events, t);
    RunKeeps(events);
  }

  /** A pass over a running test without a pending request moves it; so does every failure and every
      cancellation, and with a request pending both end it as cancelled. */
  lemma PassesMove(c: Catalog, t: TestId, healthy: bool)
    requires t in c.tests && !Over(c.tests[t].state)
    ensures Moves(c, TestWorked(t, healthy), t) <==> !CancelPending(c, t)
    ensures Moves(c, TestFailed(t), t)
    ensures CancelPending(c, t) ==>
      Moves(c, CancelProcessed(t), t) && Apply(c, CancelProcessed(t)).tests[t].state == Cancelled
    ensures CancelPending(c, t) ==> Apply(c, TestFailed(t)).tests[t].state == Cancelled
    ensures !CancelPending(c, t) ==> Apply(c, TestFailed(t)).tests[t].state == Failed
  {
  }

  // ---------------------------------------------------------------- what becomes of a request

  datatype Seen = Never | At(state: TestState)

  /** The state of the test when its request was inserted. */
  function StateAtRequest(events: seq<Event>, t: TestId): Seen {
    if events == [] then Never
    else
      var front := events[..|events| - 1];
      if t in Run(Empty(), front).cancellations then StateAtRequest(front, t)
      else if t in Run(Empty(), events).cancellations && t in Run(Empty(), front).tests
      then At(Run(Empty(), front).tests[t].state)
      else Never
  }

  /** After a request found the test in state `s`: over, it stays; running, it waits there to be cancelled. */
  predicate Answered(c: Catalog, t: TestId, s: TestState) {
    && t in c.tests && t in c.cancellations
    && (if Over(s) then c.tests[t].state == s && s != Cancelled
        else (c.tests[t].state == s && !c.cancellations[t]) || c.tests[t].state == Cancelled)
  }

  lemma AnsweredStays(c: Catalog, e: Event, t: TestId, s: TestState)
    requires Answered(c, t, s)
    ensures Answered(Apply(c, e), t, s)
  {
  }

  lemma OnlyRequestsInsert(c: Catalog, e: Event, t: TestId)
    requires t !in c.cancellations && t in Apply(c, e).cancellations
    ensures e.CancelRequested? && Apply(c, e) == c.(cancellations := c.cancellations[t := false]) && t in c.tests
  {
  }

  lemma RequestInserted(c: Catalog, e: Event, t: TestId)
    requires CancelsSane(c.tests, c.cancellations) && t !in c.cancellations && t in Apply(c, e).cancellations
    ensures t in c.tests && Answered(Apply(c, e), t, c.tests[t].state)
  {
    OnlyRequestsInsert(c, e, t);
  }

  lemma {:induction false} RequestsAnswered(events: seq<Event>, t: TestId)
    requires t in Run(Empty(), events).cancellations
    ensures StateAtRequest(events, t).At? && Answered(Run(Empty(), events), t, StateAtRequest(events, t).state)
  {
    var front, e := events[..|events| - 1], events[|events| - 1];
    var c := Run(Empty(), front);
    RunKeeps(front);
    if t in c.cancellations {
      RequestsAnswered(front, t);
      AnsweredStays(c, e, t, StateAtRequest(front, t).state);
    } else {
      RequestInserted(c, e, t);
    }
  }

  /** In every run an acknowledged request has cancelled its test if and only if the test had neither
      succeeded nor failed when the request was inserted. */
  lemma AcknowledgedIsCancelledIff(events: seq<Event>, t: TestId)
    requires t in Run(Empty(), events).cancellations && Run(Empty(), events).cancellations[t]
    ensures t in Run(Empty(), events).tests && StateAtRequest(events, t).At?
    ensures Run(Empty(), events).tests[t].state == Cancelled <==>
      StateAtRequest(events, t).state !in {Succeeded, Failed}
  {
    RequestsAnswered(events, t);
    RunKeeps(events);
  }

  // ---------------------------------------------------------------- a request that comes too late

  /** A version with one test, as far as the test has come. */
  function OneTest(state: TestState, attempts: nat, cancellations: map<TestId, bool>): Catalog {
    Catalog(map[0 := Testing], map[0 := Version(0, [], false, false)], map[0 := Test(0, state, attempts, 0, map[])],
            cancellations)
  }

  ghost predicate Reached(c: Catalog) {
    exists events :: c == Run(Empty(), events)
  }

  lemma ReachStep(c: Catalog, e: Event)
    requires Reached(c)
    ensures Reached(Apply(c, e))
  {
    var events :| c == Run(Empty(), events);
    assert (events + [e])[..|events|] == events;
    assert Apply(c, e) == Run(Empty(), events + [e]);
  }

  lemma WorkerSteps()
    ensures Work(OneTest(Queued, 0, map[]), 0, true) == OneTest(Pulling, 1, map[])
    ensures Work(OneTest(Pulling, 1, map[]), 0, true) == OneTest(Starting, 2, map[])
    ensures Work(OneTest(Starting, 2, map[]), 0, true) == OneTest(HealthChecking, 3, map[])
    ensures Work(OneTest(HealthChecking, 3, map[]), 0, true) == OneTest(Succeeded, 4, map[])
  {
  }

  lemma LateRequest()
    ensures RequestCancel(OneTest(Succeeded, 4, map[]), 0, HealthChecking) == OneTest(Succeeded, 4, map[0 := false])
    ensures Cancel(OneTest(Succeeded, 4, map[0 := false]), 0) == OneTest(Succeeded, 4, map[0 := true])
  {
  }

  lemma FirstTestQueued()
    ensures Reached(OneTest(Queued, 0, map[]))
  {
    var c0 := Empty();
    var c1 := Catalog(map[0 := Draft], map[], map[], map[]);
    var c2 := c1.(versions := map[0 := Version(0, [], false, false)]);
    assert Reached(c0) by { assert Run(Empty(), []) == Empty(); }
    ReachStep(c0, ProductCreated(0));
    assert Apply(c0, ProductCreated(0)) == c1;
    ReachStep(c1, VersionCreated(0, 0, []));
    assert Apply(c1, VersionCreated(0, 0, [])) == c2;
    ReachStep(c2, TestStarted(0, 0, map[]));
    assert Apply(c2, TestStarted(0, 0, map[])) == OneTest(Queued, 0, map[]);
  }

  lemma ReachWork(c: Catalog, d: Catalog)
    requires Reached(c) && Work(c, 0, true) == d
    ensures Reached(d)
  {
    ReachStep(c, TestWorked(0, true));
  }

  lemma ReachRequest(c: Catalog, d: Catalog)
    requires Reached(c) && RequestCancel(c, 0, HealthChecking) == d
    ensures Reached(d)
  {
    ReachStep(c, CancelRequested(0, HealthChecking));
  }

  lemma ReachCancel(c: Catalog, d: Catalog)
    requires Reached(c) && Cancel(c, 0) == d
    ensures Reached(d)
  {
    ReachStep(c, CancelProcessed(0));
  }

  lemma FirstTestSucceeds()
    ensures Reached(OneTest(HealthChecking, 3, map[])) && Reached(OneTest(Succeeded, 4, map[]))
  {
    FirstTestQueued();
    WorkerSteps();
    ReachWork(OneTest(Queued, 0, map[]), OneTest(Pulling, 1, map[]));
    ReachWork(OneTest(Pulling, 1, map[]), OneTest(Starting, 2, map[]));
    ReachWork(OneTest(Starting, 2, map[]), OneTest(HealthChecking, 3, map[]));
    ReachWork(OneTest(HealthChecking, 3, map[]), OneTest(Succeeded, 4, map[]));
  }

  /** The look of cancelProductVersionTest can be stale: from an empty catalog a test that was seen
      health-checking succeeds, its request is inserted all the same, and the acknowledgement leaves it succeeded. */
  lemma CancellationCanComeTooLate()
    ensures Reached(OneTest(HealthChecking, 3, map[]))
    ensures Work(OneTest(HealthChecking, 3, map[]), 0, true) == OneTest(Succeeded, 4, map[])
    ensures RequestCancel(OneTest(Succeeded, 4, map[]), 0, HealthChecking) == OneTest(Succeeded, 4, map[0 := false])
    ensures Cancel(OneTest(Succeeded, 4, map[0 := false]), 0) == OneTest(Succeeded, 4, map[0 := true])
    ensures Reached(OneTest(Succeeded, 4, map[0 := true]))
  {
    FirstTestSucceeds();
    WorkerSteps();
    LateRequest();
    ReachRequest(OneTest(Succeeded, 4, map[]), OneTest(Succeeded, 4, map[0 := false]));
    ReachCancel(OneTest(Succeeded, 4, map[0 := false]), OneTest(Succeeded, 4, map[0 := true]));
  }
}
