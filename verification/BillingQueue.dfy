/** Billing across the platform: the worker claims the oldest claimable row of all users and no other. */
module BillingQueue {
  import opened Domain
  import opened Ledger
  import opened Accounts
  import opened AccountsInvariant
  import opened AccountsTheorems

  type UserId = nat
  type Platform = map<UserId, Account>

  /** Row `index` of the usage of `user`. */
  datatype Row = Row(user: UserId, index: nat)

  predicate Exists(p: Platform, r: Row) {
    r.user in p && r.index < |p[r.user].usage|
  }

  function UsageOf(p: Platform, r: Row): Usage
    requires Exists(p, r)
  {
    p[r.user].usage[r.index]
  }

  predicate CanClaim(p: Platform, r: Row, now: int) {
    r.user in p && Claimable(p[r.user], r.index, now)
  }

  predicate NotAfter(p: Platform, r: Row, s: Row)
    requires Exists(p, r) && Exists(p, s)
  {
    UsageOf(p, r).slot.start <= UsageOf(p, s).slot.start
  }

  /** ORDER BY window_start LIMIT 1 over the claimable rows; nothing orders rows of the same window. */
  ghost predicate Head(p: Platform, r: Row, now: int) {
    CanClaim(p, r, now) && forall s :: CanClaim(p, s, now) ==> NotAfter(p, r, s)
  }

  /** One billUsage transaction on the row it claimed. */
  ghost function Billed(prices: Prices, p: Platform, r: Row, now: int): Platform
    requires r.user in p
  {
    p[r.user := BillUsage(prices, p[r.user], r.index, now)]
  }

  datatype Event =
    | Opens(user: UserId, initial: int)
    | Claims(row: Row, now: int)
    | Within(user: UserId, event: Accounts.Event)

  ghost function Apply(prices: Prices, p: Platform, e: Event): Platform {
    match e
    case Opens(user, initial) => if user in p then p else p[user := Opened(initial)]
    case Claims(row, now) => if Head(p, row, now) then Billed(prices, p, row, now) else p
    case Within(user, event) =>
      if user in p && !event.UsageBilled? then p[user := Accounts.Apply(prices, p[user], event)] else p
  }

  ghost function Run(prices: Prices, p: Platform, events: seq<Event>): Platform {
    if events == [] then p
    else Apply(prices, Run(prices, p, events[..|events| - 1]), events[|events| - 1])
  }

  ghost predicate PlatformInv(prices: Prices, p: Platform) {
    forall user :: user in p ==> AccountInv(prices, p[user])
  }

  lemma AccountSet(prices: Prices, p: Platform, user: UserId, a: Account)
    requires PlatformInv(prices, p) && AccountInv(prices, a)
    ensures PlatformInv(prices, p[user := a])
  {
  }

  lemma BilledKeeps(prices: Prices, p: Platform, r: Row, now: int)
    requires PlatformInv(prices, p) && r.user in p
    ensures PlatformInv(prices, Billed(prices, p, r, now))
  {
    BillUsageKeeps(prices, p[r.user], r.index, now);
    AccountSet(prices, p, r.user, BillUsage(prices, p[r.user], r.index, now));
  }

  lemma WithinKeeps(prices: Prices, p: Platform, user: UserId, e: Accounts.Event)
    requires PlatformInv(prices, p) && user in p
    ensures PlatformInv(prices, p[user := Accounts.Apply(prices, p[user], e)])
  {
    StepKeeps(prices, p[user], e);
    AccountSet(prices, p, user, Accounts.Apply(prices, p[user], e));
  }

  lemma OpensKeeps(prices: Prices, p: Platform, user: UserId, initial: int)
    requires PlatformInv(prices, p)
    ensures PlatformInv(prices, p[user := Opened(initial)])
  {
    OpenedInv(prices, initial);
    AccountSet(prices, p, user, Opened(initial));
  }

  lemma StepKeepsPlatform(prices: Prices, p: Platform, e: Event)
    requires PlatformInv(prices, p)
    ensures PlatformInv(prices, Apply(prices, p, e))
  {
    match e
    case Opens(user, initial) => OpensKeeps(prices, p, user, initial);
    case Claims(row, now) => if row.user in p { BilledKeeps(prices, p, row, now); }
    case Within(user, event) => if user in p { WithinKeeps(prices, p, user, event); }
  }

  lemma {:induction false} RunKeepsPlatform(prices: Prices, p: Platform, events: seq<Event>)
    requires PlatformInv(prices, p)
    ensures PlatformInv(prices, Run(prices, p, events))
  {
    if events != [] {
      RunKeepsPlatform(prices, p, events[..|events| - 1]);
      StepKeepsPlatform(prices, Run(prices, p, events[..|events| - 1]), events[|events| - 1]);
    }
  }

  // ---------------------------------------------------------------- when a pass gets anywhere

  /** The price of the row is known and fits the column it is computed into. */
  predicate Payable(prices: Prices, u: Usage) {
    u.price.Some? && u.price.value in prices && Price(prices[u.price.value], u.quantity) <= MAX_INT64
  }

  /** The pass on the claimed row charges or refuses it. */
  predicate Writes(prices: Prices, p: Platform, r: Row, now: int) {
    && r.user in p
    && var outcome := BillingOutcome(prices, p[r.user], r.index, now);
    outcome.OutOfFunds? || outcome.Settled?
  }

  lemma UnpayableChangesNothing(prices: Prices, a: Account, i: nat, now: int)
    requires i < |a.usage| && !Payable(prices, a.usage[i])
    ensures BillUsage(prices, a, i, now) == a
  {
  }

  lemma PayableIsWritten(prices: Prices, a: Account, i: nat, now: int)
    requires AccountInv(prices, a) && Claimable(a, i, now) && Payable(prices, a.usage[i])
    ensures BillingOutcome(prices, a, i, now).OutOfFunds? || BillingOutcome(prices, a, i, now).Settled?
    ensures var r := BillUsage(prices, a, i, now);
      r.attempts != a.attempts || r.charges != a.charges
  {
    ClaimIsNew(a, i, now);
    if BillingOutcome(prices, a, i, now).OutOfFunds? {
      var u := a.usage[i];
      var t := Attempt(u.slot, u.price.value, false, a.wallet.balance, CreditOf(a, now));
      assert t !in a.attempts;
      assert t in BillUsage(prices, a, i, now).attempts;
    }
  }

  /** The claim takes the oldest row whatever comes of it: a pass changes anything at all exactly when the
      price of that row fits. */
  lemma PassCommitsIffPayable(prices: Prices, p: Platform, r: Row, now: int)
    requires PlatformInv(prices, p) && Head(p, r, now)
    ensures Apply(prices, p, Claims(r, now)) != p <==> Payable(prices, UsageOf(p, r))
    ensures Writes(prices, p, r, now) <==> Payable(prices, UsageOf(p, r))
  {
    if Payable(prices, UsageOf(p, r)) {
      PayableIsWritten(prices, p[r.user], r.index, now);
      assert Apply(prices, p, Claims(r, now))[r.user] != p[r.user];
    } else {
      UnpayableChangesNothing(prices, p[r.user], r.index, now);
    }
  }

  // ---------------------------------------------------------------- one row that halts the platform

  predicate Waits(a: Account, i: nat) {
    i < |a.usage| && a.usage[i].disposition.Unbilled? && a.usage[i].price.Some?
  }

  /** The row waits, was never refused for lack of funds, and has no charge in its way. */
  predicate Untouched(a: Account, i: nat) {
    && Waits(a, i)
    && (forall j :: 0 <= j < |a.charges| ==> !ChargeBlocks(a.charges[j], a.usage[i]))
    && (forall t :: t in a.attempts && t.slot == a.usage[i].slot ==> t.paid)
  }

  /** The row is the first in line: every other waiting row of the platform is of a later window. */
  ghost predicate FirstInLine(p: Platform, r: Row) {
    && r.user in p && Untouched(p[r.user], r.index)
    && forall s: Row :: s.user in p && Waits(p[s.user], s.index) && s != r ==> !NotAfter(p, s, r)
  }

  /** Nothing is aggregated any more for the window at `start` or an earlier one. */
  predicate Later(e: Event, start: int) {
    e.Within? && e.event.UsageAggregated? ==> e.event.slot.start > start
  }

  lemma UntouchedIsClaimable(a: Account, i: nat, now: int)
    requires Untouched(a, i)
    ensures Claimable(a, i, now)
  {
  }

  lemma FirstIsHead(p: Platform, r: Row, s: Row, now: int)
    requires FirstInLine(p, r)
    ensures Head(p, s, now) <==> s == r
  {
    UntouchedIsClaimable(p[r.user], r.index, now);
    if Head(p, s, now) { assert NotAfter(p, s, r); }
    forall other | CanClaim(p, other, now) ensures NotAfter(p, r, other) {
      assert other != r ==> !NotAfter(p, other, r);
    }
  }

  /** No usage row that waits goes, and none comes for a window up to `start`. */
  predicate UsageSettledFor(a: Account, b: Account, start: int) {
    && |a.usage| <= |b.usage| && b.charges == a.charges && b.attempts == a.attempts
    && (forall i :: 0 <= i < |a.usage| ==>
          a.usage[i] == b.usage[i] || (a.usage[i].slot.start > start && b.usage[i].slot == a.usage[i].slot))
    && (forall i :: |a.usage| <= i < |b.usage| ==> b.usage[i].slot.start > start)
  }

  lemma OtherStepsLeaveUsage(prices: Prices, a: Account, e: Accounts.Event, start: int)
    requires !e.UsageBilled? && (e.UsageAggregated? ==> e.slot.start > start)
    ensures UsageSettledFor(a, Accounts.Apply(prices, a, e), start)
  {
  }

  /** Charges and attempts are as they were, for every user there was. */
  predicate Frozen(p: Platform, q: Platform) {
    forall user :: user in p ==>
      user in q && q[user].charges == p[user].charges && q[user].attempts == p[user].attempts
  }

  lemma StillFirst(p: Platform, r: Row, user: UserId, b: Account)
    requires FirstInLine(p, r)
    requires (if user in p then UsageSettledFor(p[user], b, UsageOf(p, r).slot.start) else b.usage == [])
    ensures FirstInLine(p[user := b], r) && UsageOf(p[user := b], r) == UsageOf(p, r)
  {
    var q := p[user := b];
    forall s: Row | s.user in q && Waits(q[s.user], s.index) && s != r ensures !NotAfter(q, s, r) {
      if s.user in p && s.index < |p[s.user].usage| && p[s.user].usage[s.index] == q[s.user].usage[s.index] {
        assert Waits(p[s.user], s.index) && !NotAfter(p, s, r);
      }
    }
  }

  lemma StepStaysHalted(prices: Prices, p: Platform, r: Row, e: Event)
    requires FirstInLine(p, r) && !Payable(prices, UsageOf(p, r)) && Later(e, UsageOf(p, r).slot.start)
    ensures var q := Apply(prices, p, e);
      FirstInLine(q, r) && UsageOf(q, r) == UsageOf(p, r) && Frozen(p, q)
  {
    match e
    case Opens(user, initial) => if user !in p { StillFirst(p, r, user, Opened(initial)); }
    case Claims(row, now) =>
      FirstIsHead(p, r, row, now);
      if row == r { UnpayableChangesNothing(prices, p[r.user], r.index, now); }
      assert Apply(prices, p, e) == p;
    case Within(user, event) =>
      if user in p && !event.UsageBilled? {
        OtherStepsLeaveUsage(prices, p[user], event, UsageOf(p, r).slot.start);
        StillFirst(p, r, user, Accounts.Apply(prices, p[user], event));
      }
  }

  predicate AllLater(events: seq<Event>, start: int) {
    forall k :: 0 <= k < |events| ==> Later(events[k], start)
  }

  lemma {:induction false} RunStaysHalted(prices: Prices, p: Platform, r: Row, events: seq<Event>)
    requires FirstInLine(p, r) && !Payable(prices, UsageOf(p, r)) && AllLater(events, UsageOf(p, r).slot.start)
    ensures var q := Run(prices, p, events);
      FirstInLine(q, r) && UsageOf(q, r) == UsageOf(p, r) && Frozen(p, q)
  {
    if events != [] {
      RunStaysHalted(prices, p, r, events[..|events| - 1]);
      StepStaysHalted(prices, Run(prices, p, events[..|events| - 1]), r, events[|events| - 1]);
    }
  }

  /** Whatever users pay, are granted or use from now on, no row of any user is charged or refused again. */
  ghost predicate Halted(prices: Prices, p: Platform, start: int) {
    forall events :: AllLater(events, start) ==> Frozen(p, Run(prices, p, events))
  }

  lemma FirstPayableIsWritten(prices: Prices, p: Platform, r: Row)
    requires r.user in p && AccountInv(prices, p[r.user]) && FirstInLine(p, r) && Payable(prices, UsageOf(p, r))
    ensures !Frozen(p, Apply(prices, p, Claims(r, 0)))
  {
    FirstIsHead(p, r, r, 0);
    PayableIsWritten(prices, p[r.user], r.index, 0);
  }

  lemma RunOfOne(prices: Prices, p: Platform, e: Event)
    ensures Run(prices, p, [e]) == Apply(prices, p, e)
  {
    assert [e][..0] == [];
    assert Run(prices, p, []) == p;
  }

  /** The first row in line halts the billing of the whole platform for good exactly when its price does not fit. */
  lemma BillingHaltsIffFirstUnpayable(prices: Prices, p: Platform, r: Row)
    requires PlatformInv(prices, p) && FirstInLine(p, r)
    ensures Halted(prices, p, UsageOf(p, r).slot.start) <==> !Payable(prices, UsageOf(p, r))
  {
    if Payable(prices, UsageOf(p, r)) {
      FirstPayableIsWritten(prices, p, r);
      RunOfOne(prices, p, Claims(r, 0));
      assert AllLater([Claims(r, 0)], UsageOf(p, r).slot.start);
    } else {
      forall events | AllLater(events, UsageOf(p, r).slot.start) ensures Frozen(p, Run(prices, p, events)) {
        RunStaysHalted(prices, p, r, events);
      }
    }
  }

  // ---------------------------------------------------------------- otherwise billing comes to rest

  function BoundOf(a: Account, now: int): nat {
    Bound(WaitingOf(a), UntriedOf(a, now))
  }

  /** The bound on committed passes, over the users listed. */
  function TotalBound(p: Platform, users: seq<UserId>, now: int): nat
    requires forall k :: 0 <= k < |users| ==> users[k] in p
  {
    if users == [] then 0
    else TotalBound(p, users[..|users| - 1], now) + BoundOf(p[users[|users| - 1]], now)
  }

  predicate ListsUsers(p: Platform, users: seq<UserId>) {
    && (forall k :: 0 <= k < |users| ==> users[k] in p)
    && (forall user :: user in p ==> user in users)
  }

  lemma {:induction false} TotalUpdated(p: Platform, users: seq<UserId>, now: int, user: UserId, b: Account)
    requires user in p && BoundOf(b, now) < BoundOf(p[user], now)
    requires forall k :: 0 <= k < |users| ==> users[k] in p
    ensures TotalBound(p[user := b], users, now) <= TotalBound(p, users, now)
    ensures user in users ==> TotalBound(p[user := b], users, now) < TotalBound(p, users, now)
  {
    if users != [] {
      TotalUpdated(p, users[..|users| - 1], now, user, b);
      assert users == users[..|users| - 1] + [users[|users| - 1]];
    }
  }

  lemma CommittedPassLowers(prices: Prices, p: Platform, users: seq<UserId>, r: Row, now: int)
    requires ListsUsers(p, users) && Writes(prices, p, r, now)
    ensures TotalBound(Billed(prices, p, r, now), users, now) < TotalBound(p, users, now)
  {
    var a, b := p[r.user], BillUsage(prices, p[r.user], r.index, now);
    BillingStepDecreases(prices, a, r.index, now);
    UntriedAtMostWaiting(b.usage, b.attempts, b.wallet.balance, CreditOf(b, now));
    BoundFalls(WaitingOf(a), UntriedOf(a, now), WaitingOf(b), UntriedOf(b, now));
    TotalUpdated(p, users, now, r.user, b);
  }

  /** Passes one after the other, each on an oldest row and each written. */
  ghost predicate AllWrite(prices: Prices, p: Platform, rows: seq<Row>, clocks: seq<int>)
    requires |rows| == |clocks|
  {
    rows != [] ==>
      && Head(p, rows[0], clocks[0]) && Writes(prices, p, rows[0], clocks[0])
      && AllWrite(prices, Billed(prices, p, rows[0], clocks[0]), rows[1..], clocks[1..])
  }

  predicate NoneExpires(p: Platform, from: int, to: int) {
    forall user :: user in p ==> NoExpiry(p[user].grants, from, to)
  }

  lemma CommittedPass(prices: Prices, p: Platform, users: seq<UserId>, r: Row, now: int, from: int, to: int)
    requires ListsUsers(p, users) && NoneExpires(p, from, to) && from <= now <= to && Writes(prices, p, r, now)
    ensures var next := Billed(prices, p, r, now);
      && ListsUsers(next, users)
      && NoneExpires(next, from, to)
      && TotalBound(next, users, from) < TotalBound(p, users, from)
  {
    TimeAloneChangesNothing(prices, p[r.user], r.index, from, now);
    CommittedPassLowers(prices, p, users, r, from);
    BillingKeepsExpiries(prices, p[r.user], r.index, now, from, to);
  }

  /** With nothing new and no grant expiring in between, at most that many passes are written, whichever of
      the oldest rows the worker picks. When none is any more, the oldest row left, if any, is not payable. */
  lemma {:induction false} PlatformComesToRest(prices: Prices, p: Platform, users: seq<UserId>,
                                               rows: seq<Row>, clocks: seq<int>, from: int, to: int)
    requires ListsUsers(p, users) && NoneExpires(p, from, to)
    requires |rows| == |clocks| && AllWrite(prices, p, rows, clocks)
    requires forall k :: 0 <= k < |clocks| ==> from <= clocks[k] <= to
    ensures |rows| <= TotalBound(p, users, from)
    decreases |rows|
  {
    if rows != [] {
      CommittedPass(prices, p, users, rows[0], clocks[0], from, to);
      PlatformComesToRest(prices, Billed(prices, p, rows[0], clocks[0]), users, rows[1..], clocks[1..], from, to);
    }
  }

  // ---------------------------------------------------------------- it happens

  /** Two price versions: one with a minimum quantity mistaken by some orders of magnitude, one of a cent a unit. */
  function PriceList(): Prices {
    map[0 := Pricing(1_000_000_000, Up, 10_000_000_000_000_000_000_000_000_000, 0), 1 := Pricing(1_000_000, Up, 0, 0)]
  }

  const UNIT: nat := 1_000_000_000_000

  /** An account with a hundred cents and one unit of usage. */
  function OneUsage(app: nat, start: int, price: PriceId): Account {
    Aggregate(Opened(100), Slot(0, Some(app), start, start + 300), Some(price), UNIT)
  }

  lemma OneUsageIs(app: nat, start: int, price: PriceId)
    ensures OneUsage(app, start, price)
         == Opened(100).(usage := [Usage(Slot(0, Some(app), start, start + 300), Some(price), UNIT, Unbilled)])
  {
  }

  ghost predicate Reached(prices: Prices, p: Platform) {
    exists events :: p == Run(prices, map[], events)
  }

  lemma ReachStep(prices: Prices, p: Platform, e: Event, q: Platform)
    requires Reached(prices, p) && q == Apply(prices, p, e)
    ensures Reached(prices, q)
  {
    var events :| p == Run(prices, map[], events);
    assert (events + [e])[..|events|] == events;
    assert q == Run(prices, map[], events + [e]);
  }

  lemma ReachUsage(prices: Prices, p: Platform, user: UserId, app: nat, start: int, price: PriceId)
    requires Reached(prices, p) && user !in p
    ensures Reached(prices, p[user := OneUsage(app, start, price)])
  {
    var empty := p[user := Opened(100)];
    ReachStep(prices, p, Opens(user, 100), empty);
    ReachStep(prices, empty, Within(user, UsageAggregated(Slot(0, Some(app), start, start + 300), Some(price), UNIT)),
              p[user := OneUsage(app, start, price)]);
  }

  /** The mispriced usage of user 0 and, a window later, the usage of user 1. */
  function Stranded(): Platform {
    map[0 := OneUsage(0, 0, 0)][1 := OneUsage(1, 300, 1)]
  }

  lemma StrandedIsReached()
    ensures Reached(PriceList(), Stranded()) && PlatformInv(PriceList(), Stranded())
  {
    assert Reached(PriceList(), map[]) by { assert Run(PriceList(), map[], []) == map[]; }
    ReachUsage(PriceList(), map[], 0, 0, 0, 0);
    ReachUsage(PriceList(), map[0 := OneUsage(0, 0, 0)], 1, 1, 300, 1);
    assert map[][0 := OneUsage(0, 0, 0)] == map[0 := OneUsage(0, 0, 0)];
    var events :| Stranded() == Run(PriceList(), map[], events);
    RunKeepsPlatform(PriceList(), map[], events);
  }

  lemma StrandedPrices()
    ensures Price(PriceList()[0], UNIT) > MAX_INT64 && Price(PriceList()[1], UNIT) == 1
  {
  }

  lemma StrandedIsFirst()
    ensures FirstInLine(Stranded(), Row(0, 0)) && UsageOf(Stranded(), Row(0, 0)).slot.start == 0
    ensures !Payable(PriceList(), UsageOf(Stranded(), Row(0, 0)))
  {
    OneUsageIs(0, 0, 0);
    OneUsageIs(1, 300, 1);
    StrandedPrices();
  }

  lemma SecondCouldPay(now: int)
    ensures BillingOutcome(PriceList(), OneUsage(1, 300, 1), 0, now).Settled?
  {
    OneUsageIs(1, 300, 1);
    StrandedPrices();
    assert CreditOf(OneUsage(1, 300, 1), now) == 0;
  }

  lemma StrandedHalts()
    ensures Halted(PriceList(), Stranded(), 0)
  {
    StrandedIsReached();
    StrandedIsFirst();
    BillingHaltsIffFirstUnpayable(PriceList(), Stranded(), Row(0, 0));
  }

  /** From an empty platform: a user with a hundred cents and usage of one is never charged, because a row
      of another user, one window older, costs more than an int64. */
  lemma OneRowHaltsThePlatform()
    ensures exists p: Platform ::
      && Reached(PriceList(), p) && 1 in p
      && (forall now :: BillingOutcome(PriceList(), p[1], 0, now).Settled?)
      && Halted(PriceList(), p, 0)
  {
    StrandedIsReached();
    StrandedHalts();
    forall now ensures BillingOutcome(PriceList(), Stranded()[1], 0, now).Settled? { SecondCouldPay(now); }
  }
}
