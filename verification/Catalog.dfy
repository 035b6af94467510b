/** The product catalog: versions and their tests, publication, and taking products off and back on offer. */
module Catalog {
  import opened Dependencies

  type VersionId = nat
  type TestId = nat

  datatype ProductState = Draft | Testing | Published | Retired

  datatype Version = Version(product: ProductId, deps: seq<ProductId>, published: bool, deleted: bool)

  datatype TestState = Queued | Pulling | Starting | HealthChecking | Succeeded | Failed | Cancelled

  const MAX_HEALTH_ATTEMPTS: nat := 8

  datatype Test = Test(version: VersionId, state: TestState, attempts: nat, healthAttempts: nat,
                       secrets: map<string, string>)

  /** `cancellations` maps a test to whether its cancellation request has been processed. */
  datatype Catalog = Catalog(products: map<ProductId, ProductState>, versions: map<VersionId, Version>,
                             tests: map<TestId, Test>, cancellations: map<TestId, bool>)

  predicate Over(s: TestState) {
    s in {Succeeded, Failed, Cancelled}
  }

  /** The transitions the trigger on the tests table lets through. */
  predicate TestEdge(from: TestState, to: TestState) {
    match from
    case Queued => to in {Pulling, Failed, Cancelled}
    case Pulling => to in {Starting, Failed, Cancelled}
    case Starting => to in {HealthChecking, Failed, Cancelled}
    case HealthChecking => to in {HealthChecking, Succeeded, Failed, Cancelled}
    case _ => false
  }

  // ---------------------------------------------------------------- dependencies of published versions

  /** One edge for each dependency of each version that was ever published. */
  function Edges(versions: map<VersionId, Version>): set<Edge> {
    set v, t | v in versions && versions[v].published && t in versions[v].deps :: (versions[v].product, t)
  }

  /** A product on offer with a published version. */
  predicate Available(c: Catalog, p: ProductId) {
    && p in c.products && c.products[p] == Published
    && exists v :: v in c.versions && c.versions[v].product == p && c.versions[v].published
  }

  datatype DependencyError = NoError | SameProduct | NotAvailable | Cyclic

  function CheckDependency(c: Catalog, product: ProductId, t: ProductId): DependencyError {
    if t == product then SameProduct
    else if !Available(c, t) then NotAvailable
    else if product in Reachable(Edges(c.versions), t) then Cyclic
    else NoError
  }

  /** validateProductDependencies: the first dependency that fails decides. */
  function ValidateDependencies(c: Catalog, product: ProductId, deps: seq<ProductId>): (r: DependencyError)
    ensures r.NoError? <==> forall i :: 0 <= i < |deps| ==> CheckDependency(c, product, deps[i]).NoError?
  {
    if deps == [] then NoError
    else if !CheckDependency(c, product, deps[0]).NoError? then CheckDependency(c, product, deps[0])
    else
      var r := ValidateDependencies(c, product, deps[1..]);
      assert forall i :: 1 <= i < |deps| ==> deps[i] == deps[1..][i - 1];
      r
  }

  // ---------------------------------------------------------------- catalog transactions

  datatype Answer = Done | AlreadyDone | NotFound | ProductRetired | DependencyConflict | TestRequired
                  | AlreadyPublished | TestInProgress

  predicate Retirable(c: Catalog, p: ProductId) {
    p in c.products && c.products[p] != Retired
  }

  function CreateProduct(c: Catalog, p: ProductId): Catalog {
    if p in c.products then c else c.(products := c.products[p := Draft])
  }

  function CreateVersionAnswer(c: Catalog, v: VersionId, p: ProductId, deps: seq<ProductId>): Answer {
    if p !in c.products || v in c.versions then NotFound
    else if c.products[p] == Retired then ProductRetired
    else if !ValidateDependencies(c, p, deps).NoError? then DependencyConflict
    else Done
  }

  function CreateVersion(c: Catalog, v: VersionId, p: ProductId, deps: seq<ProductId>): Catalog {
    if CreateVersionAnswer(c, v, p, deps).Done?
    then c.(versions := c.versions[v := Version(p, deps, false, false)]) else c
  }

  predicate HasTest(c: Catalog, v: VersionId, state: TestState) {
    exists t :: t in c.tests && c.tests[t].version == v && c.tests[t].state == state
  }

  predicate ActiveTest(c: Catalog, v: VersionId) {
    exists t :: t in c.tests && c.tests[t].version == v && !Over(c.tests[t].state)
  }

  function PublishAnswer(c: Catalog, v: VersionId): Answer {
    if v !in c.versions || c.versions[v].product !in c.products then NotFound
    else if c.products[c.versions[v].product] == Retired then ProductRetired
    else if c.versions[v].published then AlreadyPublished
    else if !ValidateDependencies(c, c.versions[v].product, c.versions[v].deps).NoError? then DependencyConflict
    else if !HasTest(c, v, Succeeded) then TestRequired
    else Done
  }

  function Publish(c: Catalog, v: VersionId): Catalog {
    if PublishAnswer(c, v).Done?
    then c.(products := c.products[c.versions[v].product := Published],
            versions := c.versions[v := c.versions[v].(published := true)])
    else c
  }

  predicate OnOffer(c: Catalog, v: VersionId) {
    v in c.versions && c.versions[v].published && !c.versions[v].deleted
  }

  /** Another product on offer has a live version that depends on `p`. */
  predicate NeededBy(c: Catalog, p: ProductId) {
    exists v :: v in c.versions && OnOffer(c, v) && c.versions[v].product != p
      && c.versions[v].product in c.products && c.products[c.versions[v].product] == Published
      && p in c.versions[v].deps
  }

  predicate ProductTested(c: Catalog, p: ProductId, active: bool) {
    exists t :: t in c.tests && c.tests[t].version in c.versions && c.versions[c.tests[t].version].product == p
      && (active ==> !Over(c.tests[t].state))
  }

  function RestoredState(hasPublishedVersion: bool, hasTestHistory: bool): ProductState {
    if hasPublishedVersion then Published else if hasTestHistory then Testing else Draft
  }

  predicate LiveVersionsValid(c: Catalog, p: ProductId) {
    forall v :: v in c.versions && OnOffer(c, v) && c.versions[v].product == p ==>
      ValidateDependencies(c, p, c.versions[v].deps).NoError?
  }

  predicate HasLiveVersion(c: Catalog, p: ProductId) {
    exists v :: v in c.versions && OnOffer(c, v) && c.versions[v].product == p
  }

  /** updateProductAvailability with enabled = true. */
  function Restore(c: Catalog, p: ProductId): Catalog {
    if p !in c.products || c.products[p] != Retired then c
    else if !LiveVersionsValid(c, p) then c
    else c.(products := c.products[p := RestoredState(HasLiveVersion(c, p), ProductTested(c, p, false))])
  }

  /** updateProductAvailability with enabled = false. */
  function Retire(c: Catalog, p: ProductId): Catalog {
    if !Retirable(c, p) || ProductTested(c, p, true) || NeededBy(c, p) then c
    else c.(products := c.products[p := Retired])
  }

  function DeleteVersion(c: Catalog, v: VersionId): Catalog {
    if v !in c.versions || c.versions[v].deleted || ActiveTest(c, v) then c
    else c.(versions := c.versions[v := c.versions[v].(deleted := true)])
  }

  // ---------------------------------------------------------------- version tests

  function StartTestAnswer(c: Catalog, v: VersionId): Answer {
    if v !in c.versions || c.versions[v].product !in c.products then NotFound
    else if c.products[c.versions[v].product] == Retired then ProductRetired
    else if c.versions[v].published then AlreadyPublished
    else if ActiveTest(c, v) then TestInProgress
    else Done
  }

  function StartTest(c: Catalog, t: TestId, v: VersionId, secrets: map<string, string>): Catalog {
    if t in c.tests || !StartTestAnswer(c, v).Done? then c else
      var p := c.versions[v].product;
      c.(tests := c.tests[t := Test(v, Queued, 0, 0, secrets)],
         products := if c.products[p] == Draft then c.products[p := Testing] else c.products)
  }

  /** cancelProductVersionTest looks at the test without a lock and inserts the request later: `seen` is
      the state it saw, which the test may have left since. */
  function RequestCancel(c: Catalog, t: TestId, seen: TestState): Catalog {
    if t !in c.tests || Over(seen) || t in c.cancellations then c
    else c.(cancellations := c.cancellations[t := false])
  }

  function Completed(test: Test, state: TestState): Test {
    test.(state := state, attempts := test.attempts + 1, secrets := map[])
  }

  predicate CancelPending(c: Catalog, t: TestId) {
    t in c.cancellations && !c.cancellations[t]
  }

  /** The committed effect of one pass of the test worker that went well as far as Docker goes. */
  function Worked(test: Test, healthy: bool): Test {
    match test.state
    case Queued => test.(state := Pulling, attempts := test.attempts + 1)
    case Pulling => test.(state := Starting, attempts := test.attempts + 1)
    case Starting => test.(state := HealthChecking, attempts := test.attempts + 1)
    case HealthChecking =>
      if healthy then Completed(test, Succeeded)
      else if test.healthAttempts + 1 >= MAX_HEALTH_ATTEMPTS then Completed(test, Failed)
      else test.(attempts := test.attempts + 1, healthAttempts := test.healthAttempts + 1)
    case _ => test
  }

  /** processProductVersionTestOne. The worker looks for a request after it has locked the test row, and
      a request cannot be inserted while that lock is held, so what it saw holds until it commits. */
  function Work(c: Catalog, t: TestId, healthy: bool): Catalog {
    if t !in c.tests || Over(c.tests[t].state) || CancelPending(c, t) then c
    else c.(tests := c.tests[t := Worked(c.tests[t], healthy)])
  }

  /** failProductVersionTest, in its own transaction after the worker's was rolled back. */
  function Fail(c: Catalog, t: TestId): Catalog {
    if t !in c.tests || Over(c.tests[t].state) then c
    else c.(tests := c.tests[t := Completed(c.tests[t], if CancelPending(c, t) then Cancelled else Failed)])
  }

  /** processProductVersionTestCancellationOne. */
  function Cancel(c: Catalog, t: TestId): Catalog {
    if !CancelPending(c, t) || t !in c.tests then c
    else
      var stopped := if Over(c.tests[t].state) then c.tests[t] else Completed(c.tests[t], Cancelled);
      c.(tests := c.tests[t := stopped], cancellations := c.cancellations[t := true])
  }

  // ---------------------------------------------------------------- runs

  datatype Event =
    | ProductCreated(p: ProductId)
    | VersionCreated(v: VersionId, p: ProductId, deps: seq<ProductId>)
    | VersionPublished(v: VersionId)
    | VersionDeleted(v: VersionId)
    | ProductRestored(p: ProductId)
    | TakenOffOffer(p: ProductId)
    | TestStarted(t: TestId, v: VersionId, secrets: map<string, string>)
    | CancelRequested(t: TestId, seen: TestState)
    | TestWorked(t: TestId, healthy: bool)
    | TestFailed(t: TestId)
    | CancelProcessed(t: TestId)

  function Apply(c: Catalog, e: Event): Catalog {
    match e
    case ProductCreated(p) => CreateProduct(c, p)
    case VersionCreated(v, p, deps) => CreateVersion(c, v, p, deps)
    case VersionPublished(v) => Publish(c, v)
    case VersionDeleted(v) => DeleteVersion(c, v)
    case ProductRestored(p) => Restore(c, p)
    case TakenOffOffer(p) => Retire(c, p)
    case TestStarted(t, v, secrets) => StartTest(c, t, v, secrets)
    case CancelRequested(t, seen) => RequestCancel(c, t, seen)
    case TestWorked(t, healthy) => Work(c, t, healthy)
    case TestFailed(t) => Fail(c, t)
    case CancelProcessed(t) => Cancel(c, t)
  }

  function Run(c: Catalog, events: seq<Event>): Catalog {
    if events == [] then c
    else Apply(Run(c, events[..|events| - 1]), events[|events| - 1])
  }

  function Empty(): Catalog {
    Catalog(map[], map[], map[], map[])
  }
}
