/** The catalog and test-worker transactions as they update the tables. */
module CatalogStore {
  import opened Dependencies
  import opened Catalog

  class CatalogTables {
    var products: map<ProductId, ProductState>
    var versions: map<VersionId, Version>
    var tests: map<TestId, Test>
    var cancellations: map<TestId, bool>

    ghost function State(): Catalog
      reads this
    {
      Catalog(products, versions, tests, cancellations)
    }

    constructor ()
      ensures State() == Empty()
    {
      products, versions, tests, cancellations := map[], map[], map[], map[];
    }

    /** The loop of validateProductDependencies over the dependencies of a version. */
    method ValidateProductDependencies(product: ProductId, deps: seq<ProductId>) returns (err: DependencyError)
      ensures err == ValidateDependencies(State(), product, deps)
    {
      var c := Catalog(products, versions, tests, cancellations);
      var k := 0;
      while k < |deps|
        invariant 0 <= k <= |deps|
        invariant ValidateDependencies(c, product, deps[k..]) == ValidateDependencies(c, product, deps)
      {
        var t := deps[k];
        if t == product { return SameProduct; }
        if !Available(c, t) { return NotAvailable; }
        var reachable := ReachableQuery(Edges(versions), t);
        if product in reachable { return Cyclic; }
        assert deps[k..][1..] == deps[k + 1..];
        k := k + 1;
      }
      return NoError;
    }

    method PublishProductVersion(v: VersionId) returns (answer: Answer)
      modifies this
      ensures answer == PublishAnswer(old(State()), v)
      ensures State() == Apply(old(State()), VersionPublished(v))
      ensures !answer.Done? ==> State() == old(State())
    {
      if v !in versions || versions[v].product !in products { return NotFound; }
      var p := versions[v].product;
      if products[p] == Retired { return ProductRetired; }
      if versions[v].published { return AlreadyPublished; }
      var err := ValidateProductDependencies(p, versions[v].deps);
      if !err.NoError? { return DependencyConflict; }
      if !exists t :: t in tests && tests[t].version == v && tests[t].state == Succeeded { return TestRequired; }
      products := products[p := Published];
      versions := versions[v := versions[v].(published := true)];
      return Done;
    }

    method CreateProductVersion(v: VersionId, p: ProductId, deps: seq<ProductId>) returns (answer: Answer)
      modifies this`versions
      ensures answer == CreateVersionAnswer(old(State()), v, p, deps)
      ensures State() == Apply(old(State()), VersionCreated(v, p, deps))
    {
      if p !in products || v in versions { return NotFound; }
      if products[p] == Retired { return ProductRetired; }
      var err := ValidateProductDependencies(p, deps);
      if !err.NoError? { return DependencyConflict; }
      versions := versions[v := Version(p, deps, false, false)];
      return Done;
    }

    method StartProductVersionTest(t: TestId, v: VersionId, secrets: map<string, string>) returns (answer: Answer)
      requires t !in tests
      modifies this
      ensures answer == StartTestAnswer(old(State()), v)
      ensures State() == Apply(old(State()), TestStarted(t, v, secrets))
      ensures !answer.Done? ==> State() == old(State())
    {
      if v !in versions || versions[v].product !in products { return NotFound; }
      var p := versions[v].product;
      if products[p] == Retired { return ProductRetired; }
      if versions[v].published { return AlreadyPublished; }
      if exists u :: u in tests && tests[u].version == v && !Over(tests[u].state) { return TestInProgress; }
      tests := tests[t := Test(v, Queued, 0, 0, secrets)];
      if products[p] == Draft { products := products[p := Testing]; }
      return Done;
    }

    /** The INSERT of cancelProductVersionTest, some time after it read state `seen`. */
    method InsertCancellation(t: TestId, seen: TestState)
      requires t in tests
      modifies this`cancellations
      ensures State() == Apply(old(State()), CancelRequested(t, seen))
    {
      if Over(seen) { return; }
      if t !in cancellations { cancellations := cancellations[t := false]; }
    }

    /** completeProductVersionTest. */
    method Complete(t: TestId, state: TestState)
      requires t in tests
      modifies this`tests
      ensures tests == old(tests)[t := Completed(old(tests)[t], state)]
    {
      var row := tests[t];
      row := row.(state := state, attempts := row.attempts + 1, secrets := map[]);
      tests := tests[t := row];
    }

    /** advanceProductVersionTest. */
    method Advance(t: TestId, next: TestState)
      requires t in tests
      modifies this`tests
      ensures tests == old(tests)[t := old(tests)[t].(state := next, attempts := old(tests)[t].attempts + 1)]
    {
      tests := tests[t := tests[t].(state := next, attempts := tests[t].attempts + 1)];
    }

    method ProcessProductVersionTestOne(t: TestId, healthy: bool)
      modifies this`tests
      ensures State() == Apply(old(State()), TestWorked(t, healthy))
    {
      if t !in tests || Over(tests[t].state) { return; }
      var cancellationRequested := t in cancellations && !cancellations[t];
      if cancellationRequested { return; }
      var row := tests[t];
      match row.state {
        case Queued => Advance(t, Pulling);
        case Pulling => Advance(t, Starting);
        case Starting => Advance(t, HealthChecking);
        case HealthChecking =>
          if healthy {
            Complete(t, Succeeded);
          } else if row.healthAttempts + 1 >= MAX_HEALTH_ATTEMPTS {
            Complete(t, Failed);
          } else {
            tests := tests[t := row.(attempts := row.attempts + 1, healthAttempts := row.healthAttempts + 1)];
          }
        case _ =>
      }
    }

    method FailProductVersionTest(t: TestId)
      modifies this`tests
      ensures State() == Apply(old(State()), TestFailed(t))
    {
      if t in tests && !Over(tests[t].state) {
        var cancellationRequested := t in cancellations && !cancellations[t];
        if cancellationRequested { Complete(t, Cancelled); } else { Complete(t, Failed); }
      }
    }

    method ProcessCancellationOne(t: TestId)
      modifies this`tests, this`cancellations
      ensures State() == Apply(old(State()), CancelProcessed(t))
    {
      if t !in cancellations || cancellations[t] || t !in tests { return; }
      if !Over(tests[t].state) { Complete(t, Cancelled); }
      cancellations := cancellations[t := true];
    }

    method UpdateProductAvailability(p: ProductId, enabled: bool)
      modifies this`products
      ensures State() == Apply(old(State()), if enabled then ProductRestored(p) else TakenOffOffer(p))
    {
      var c := Catalog(products, versions, tests, cancellations);
      if p !in products { return; }
      var targetStatus := products[p];
      if enabled {
        if products[p] == Retired {
          if !LiveVersionsValid(c, p) { return; }
          targetStatus := RestoredState(HasLiveVersion(c, p), ProductTested(c, p, false));
        }
      } else if products[p] != Retired {
        if ProductTested(c, p, true) || NeededBy(c, p) { return; }
        targetStatus := Retired;
      }
      if targetStatus == products[p] { assert products[p := targetStatus] == products; return; }
      products := products[p := targetStatus];
    }
  }
}
