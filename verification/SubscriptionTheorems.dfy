/** What plan changes cost over a service period, and how renewals chain. */
module SubscriptionTheorems {
  import opened Domain
  import opened Calendar
  import opened Subscription

  // ---------------------------------------------------------------- what is quoted

  predicate SamePlan(s: Standing, target: Target) {
    s.current.Some? && s.current.value.plan == target.plan
  }

  predicate SameVersion(s: Standing, target: Target) {
    s.current.Some? && s.current.value.version == target.version
  }

  predicate PaidFor(s: Standing, now: int, price: nat) {
    || (s.Running(now) && s.current.value.price == price)
    || exists i :: 0 <= i < |s.purchases| && s.purchases[i].Covers(now) && s.purchases[i].price == price
  }

  /** The baseline is the dearest of the running plan and the purchases that cover `now`. */
  lemma BaselineMeans(s: Standing, now: int)
    ensures forall price: nat :: PaidFor(s, now, price) ==> price <= PaidBaseline(s, now)
    ensures PaidBaseline(s, now) > 0 ==> PaidFor(s, now, PaidBaseline(s, now))
  {
  }

  /** Only a change of version within the paid time costs less than the price, by what is paid already; only
      it ends with the running period. A period begins where the paid time ends when it is renewed, and at
      once otherwise. */
  lemma QuoteMeans(s: Standing, now: int, target: Target)
    ensures var q := Quoted(s, now, target);
      var change := s.Running(now) && !SameVersion(s, target);
      && q.amount == (if !change then target.price as int else Max(0, target.price - PaidBaseline(s, now)))
      && q.start == (if s.Running(now) && SameVersion(s, target) then s.current.value.ends.value else now)
      && q.end == (if change then s.current.value.ends.value else AddMonth(q.start))
      && (q.ends == Some(q.end) || q.ends.None?)
      && (q.ends.None? <==> target.price == 0 && !(s.Running(now) && SameVersion(s, target)))
  {
  }

  lemma ActionMeans(s: Standing, now: int, target: Target)
    ensures var action := Quoted(s, now, target).action;
      && (action == Purchasing <==> s.current.None?)
      && (action == Renewal <==> if s.Running(now) then SameVersion(s, target) else SamePlan(s, target))
      && (action == Upgrade ==> target.price > s.current.value.price)
      && (action == Downgrade ==> target.price < s.current.value.price)
      && (action == Change ==> target.price == s.current.value.price)
  {
  }

  /** Out of the paid time, whatever was bought before: the whole price, for the calendar month from now. */
  lemma FullPriceOutsidePeriod(s: Standing, now: int, target: Target)
    requires !s.Running(now)
    ensures Charge(s, now, target) == target.price
    ensures Buy(s, Request(now, target)).purchases
         == s.purchases + [Purchase(target.version, target.price, target.price, true, now, AddMonth(now))]
    ensures Buy(s, Request(now, target)).current
         == Some(Current(target.plan, target.version, target.price, true, now,
                         if target.price > 0 then Some(AddMonth(now)) else None))
  {
  }

  /** What a purchase leaves: one more row either way; paid, the plan is in force from now, or on from when it
      began, and for want of funds nothing but the row. */
  lemma StandingAfter(s: Standing, now: int, target: Target, verdict: Verdict)
    requires verdict.Bought? || verdict.Insufficient?
    ensures var q, r := Quoted(s, now, target), After(s, now, target, verdict);
      && r.purchases == s.purchases
           + [Purchase(target.version, target.price, q.amount, verdict.Bought?, q.start, q.end)]
      && (verdict.Insufficient? ==> r.current == s.current)
      && (verdict.Bought? ==>
            && r.current.Some? && r.current.value.active && r.current.value.ends == q.ends
            && r.current.value.plan == target.plan && r.current.value.version == target.version
            && r.current.value.price == target.price
            && r.current.value.starts == if s.Running(now) then s.current.value.starts else now)
  {
  }

  predicate LocksChange(s: Standing, now: int, target: Target) {
    s.current.Some? && !SameVersion(s, target) && FutureCycle(s.purchases, now)
  }

  predicate KeepsFree(s: Standing, target: Target) {
    s.current.Some? && s.current.value.active && s.current.value.ends.None? && SameVersion(s, target)
  }

  /** A purchase goes through exactly when the plan can be had, it changes something, no later period is
      prepaid, and the wallet covers the quote. */
  lemma BoughtIff(s: Standing, now: int, target: Target, balance: int)
    ensures Decide(s, now, target, balance).Bought? <==>
      && (target.enabled || SamePlan(s, target)) && !KeepsFree(s, target) && !LocksChange(s, now, target)
      && balance >= Quoted(s, now, target).amount
  {
  }

  // ---------------------------------------------------------------- plan changes

  function Max(a: int, b: int): int {
    if a > b then a else b
  }

  /** From `now` to `end`, the purchases alone hold the baseline at `p`. */
  ghost predicate Steady(s: Standing, now: int, end: int, p: nat)
  {
    && s.Running(now) && s.current.value.price <= p
    && forall t :: now <= t < end ==> PaidMax(s.purchases, t) == p
  }

  /** A succeeded purchase at the baseline price covers the rest of the period (a baseline of a cent needs none). */
  predicate Lasting(s: Standing, now: int, end: int)
  {
    var p := PaidBaseline(s, now);
    p <= 1 || exists i :: 0 <= i < |s.purchases| && s.purchases[i].Covers(now)
                          && s.purchases[i].price >= p && s.purchases[i].end >= end
  }

  predicate ChangeAt(s: Standing, r: Request, end: int)
  {
    && s.Running(r.now) && s.current.value.ends == Some(end)
    && r.target.price > 0 && r.target.version != s.current.value.version
  }

  lemma PaidMaxAfter(s: Standing, r: Request, end: int, t: int)
    requires ChangeAt(s, r, end)
    requires r.now <= t < end
    ensures PaidMax(Buy(s, r).purchases, t) == Max(PaidMax(s.purchases, t), r.target.price)
  {
    var after := Buy(s, r).purchases;
    assert after[..|after| - 1] == s.purchases;
  }

  /** Before the first change, nothing dearer than the baseline will come to cover the period. */
  lemma NothingDearerAhead(s: Standing, now: int, t: int)
    requires now <= t
    requires !FutureCycle(s.purchases, now)
    ensures PaidMax(s.purchases, t) <= PaidMax(s.purchases, now)
  {
    forall i | 0 <= i < |s.purchases| && s.purchases[i].Covers(t)
      ensures s.purchases[i].Covers(now)
    {
      assert !s.purchases[i].Ahead(now);
    }
  }

  lemma SteadyStep(s: Standing, now: int, end: int, r: Request, p: nat)
    requires ChangeAt(s, r, end) && Steady(s, now, end, p) && now <= r.now < end
    ensures Charge(s, r.now, r.target) == Max(p, r.target.price) - p
    ensures Steady(Buy(s, r), r.now, end, Max(p, r.target.price))
  {
    forall t | r.now <= t < end
      ensures PaidMax(Buy(s, r).purchases, t) == Max(p, r.target.price)
    {
      PaidMaxAfter(s, r, end, t);
    }
  }

  lemma {:induction false} SteadyPathTelescopes(s: Standing, now: int, end: int, path: seq<Request>, p: nat)
    requires ChangesWithin(s, now, end, path) && Steady(s, now, end, p)
    ensures TotalCharge(s, now, end, path) == Peak(p, path) - p
    decreases |path|
  {
    if path != [] {
      SteadyStep(s, now, end, path[0], p);
      SteadyPathTelescopes(Buy(s, path[0]), path[0].now, end, path[1..], Max(p, path[0].target.price));
    }
  }

  lemma LastingIsSteady(s: Standing, now: int, end: int)
    requires s.Running(now) && s.current.value.ends == Some(end) && !FutureCycle(s.purchases, now)
    requires PaidBaseline(s, now) > 1 && Lasting(s, now, end)
    ensures Steady(s, now, end, PaidBaseline(s, now))
  {
    var p := PaidBaseline(s, now);
    var i :| 0 <= i < |s.purchases| && s.purchases[i].Covers(now)
             && s.purchases[i].price >= p && s.purchases[i].end >= end;
    forall t | now <= t < end
      ensures PaidMax(s.purchases, t) == p
    {
      NothingDearerAhead(s, now, t);
      assert s.purchases[i].Covers(t);
    }
  }

  lemma LastingPathTelescopes(s: Standing, now: int, end: int, path: seq<Request>)
    requires path != [] && path[0].now == now && ChangesWithin(s, now, end, path) && Lasting(s, now, end)
    ensures TotalCharge(s, now, end, path) == Peak(PaidBaseline(s, now), path) - PaidBaseline(s, now)
  {
    var p := PaidBaseline(s, now);
    assert !FutureCycle(s.purchases, now);
    if p > 1 {
      LastingIsSteady(s, now, end);
      SteadyPathTelescopes(s, now, end, path, p);
    } else {
      var r := path[0];
      forall t | now <= t < end
        ensures PaidMax(Buy(s, r).purchases, t) == r.target.price
      {
        NothingDearerAhead(s, now, t);
        PaidMaxAfter(s, r, end, t);
      }
      SteadyPathTelescopes(Buy(s, r), now, end, path[1..], r.target.price);
    }
  }

  /** The moment the last purchase at `p` or more that covers `now` runs out. */
  function RunsOut(purchases: seq<Purchase>, now: int, p: nat): (r: int)
    ensures now <= r
    ensures forall i :: 0 <= i < |purchases| && purchases[i].Covers(now) && purchases[i].price >= p ==>
      purchases[i].end <= r
    ensures r != now ==>
      exists i :: 0 <= i < |purchases| && purchases[i].Covers(now) && purchases[i].price >= p && purchases[i].end == r
  {
    if purchases == [] then now else
      var last := purchases[|purchases| - 1];
      var rest := RunsOut(purchases[..|purchases| - 1], now, p);
      if last.Covers(now) && last.price >= p && last.end > rest then last.end else rest
  }

  /** Down to a cheap plan, then up past the baseline once nothing holds it: the peak is paid for again. */
  function Detour(s: Standing, now: int): (path: seq<Request>)
    requires s.Running(now)
  {
    var p := PaidBaseline(s, now);
    var version := s.current.value.version;
    [Request(now, Target(0, version + 1, 1, true)),
     Request(RunsOut(s.purchases, now, p), Target(0, version + 2, p + 1, true))]
  }

  /** One accepted change to a paid plan within the period. */
  ghost predicate OneChange(s: Standing, now: int, end: int, r: Request) {
    && ChangeAt(s, r, end) && s.Running(now) && now <= r.now < end
    && Decide(s, r.now, r.target, Charge(s, r.now, r.target)).Bought?
  }

  lemma SingleChange(s: Standing, now: int, end: int, r: Request)
    requires OneChange(s, now, end, r)
    ensures ChangesWithin(s, now, end, [r])
    ensures TotalCharge(s, now, end, [r]) == Charge(s, r.now, r.target)
  {
    assert [r][1..] == [];
    assert ChangesWithin(Buy(s, r), r.now, end, []);
  }

  lemma TwoChanges(s: Standing, now: int, end: int, r: Request, q: Request)
    requires OneChange(s, now, end, r) && OneChange(Buy(s, r), r.now, end, q)
    ensures ChangesWithin(s, now, end, [r, q])
    ensures TotalCharge(s, now, end, [r, q]) == Charge(s, r.now, r.target) + Charge(Buy(s, r), q.now, q.target)
  {
    SingleChange(Buy(s, r), r.now, end, q);
    assert [r, q][1..] == [q];
  }

  /** By then no purchase holds the baseline any more, and the period is not over. */
  lemma BaselineGone(s: Standing, now: int, end: int)
    requires s.Running(now) && s.current.value.ends == Some(end) && !FutureCycle(s.purchases, now)
    requires !Lasting(s, now, end)
    ensures var p, t := PaidBaseline(s, now), RunsOut(s.purchases, now, PaidBaseline(s, now));
      p > 1 && now <= t < end && PaidMax(s.purchases, t) < p
  {
    var t := RunsOut(s.purchases, now, PaidBaseline(s, now));
    forall i | 0 <= i < |s.purchases| && s.purchases[i].Covers(t)
      ensures s.purchases[i].price < PaidBaseline(s, now)
    {
      assert !s.purchases[i].Ahead(now);
    }
  }

  lemma StillNoneAhead(s: Standing, r: Request, end: int, t: int)
    requires ChangeAt(s, r, end) && !FutureCycle(s.purchases, r.now) && r.now <= t
    ensures !FutureCycle(Buy(s, r).purchases, t)
  {
    var after := Buy(s, r).purchases;
    forall i | 0 <= i < |after| ensures !after[i].Ahead(t) {
      if i < |s.purchases| { assert !s.purchases[i].Ahead(r.now); }
    }
  }

  lemma DetourCostsMore(s: Standing, now: int, end: int)
    requires s.Running(now) && s.current.value.ends == Some(end) && !FutureCycle(s.purchases, now)
    requires !Lasting(s, now, end)
    ensures ChangesWithin(s, now, end, Detour(s, now))
    ensures TotalCharge(s, now, end, Detour(s, now)) > Peak(PaidBaseline(s, now), Detour(s, now)) - PaidBaseline(s, now)
  {
    var p := PaidBaseline(s, now);
    var first, second := Detour(s, now)[0], Detour(s, now)[1];
    var mid := Buy(s, first);
    BaselineGone(s, now, end);
    PaidMaxAfter(s, first, end, second.now);
    StillNoneAhead(s, first, end, second.now);
    assert PaidBaseline(mid, second.now) < p;
    TwoChanges(s, now, end, first, second);
    assert Peak(p, Detour(s, now)) == p + 1;
  }

  ghost predicate EveryPathTelescopes(s: Standing, now: int, end: int)
  {
    forall path: seq<Request> :: path != [] && path[0].now == now && ChangesWithin(s, now, end, path) ==>
      TotalCharge(s, now, end, path) == Peak(PaidBaseline(s, now), path) - PaidBaseline(s, now)
  }

  /** Within a service period the cost of any path of paid plans is the peak price less the starting
      baseline, exactly when a purchase at the baseline price lasts to the end of the period. */
  lemma PathIndependentIffBaselineLasts(s: Standing, now: int, end: int)
    requires s.Running(now) && s.current.value.ends == Some(end) && !FutureCycle(s.purchases, now)
    ensures EveryPathTelescopes(s, now, end) <==> Lasting(s, now, end)
  {
    if Lasting(s, now, end) {
      forall path: seq<Request> | path != [] && path[0].now == now && ChangesWithin(s, now, end, path)
        ensures TotalCharge(s, now, end, path) == Peak(PaidBaseline(s, now), path) - PaidBaseline(s, now)
      {
        LastingPathTelescopes(s, now, end, path);
      }
    } else {
      DetourCostsMore(s, now, end);
      assert Detour(s, now)[0].now == now;
    }
  }

  const DEAR := Target(1, 1, 100, true)
  const FREE := Target(2, 2, 0, true)
  const CHEAP := Target(3, 3, 10, true)

  /** A dear plan dropped for a free one, then a cheap plan while the dear purchase still covers now. */
  ghost function Dear(t: int): Standing {
    Buy(Standing(None, []), Request(t, DEAR))
  }

  ghost function Dropped(t: int): Standing {
    Buy(Dear(t), Request(t + 10 * DAY, FREE))
  }

  ghost function Returned(t: int): Standing {
    Buy(Dropped(t), Request(t + 20 * DAY, CHEAP))
  }

  lemma DearIs(t: int)
    ensures Dear(t) == Standing(Some(Current(1, 1, 100, true, t, Some(AddMonth(t)))),
                                [Purchase(1, 100, 100, true, t, AddMonth(t))])
  {
  }

  lemma DroppedIs(t: int)
    ensures Dropped(t).current == Some(Current(2, 2, 0, true, t, None))
    ensures Dropped(t).purchases == [Purchase(1, 100, 100, true, t, AddMonth(t)),
                                     Purchase(2, 0, 0, true, t + 10 * DAY, AddMonth(t))]
  {
    DearIs(t);
    MonthBounds(t);
  }

  lemma ReturnedIs(t: int)
    ensures var s := Returned(t); var end := AddMonth(t + 20 * DAY);
      && s.current == Some(Current(3, 3, 10, true, t + 20 * DAY, Some(end)))
      && s.purchases == [Purchase(1, 100, 100, true, t, AddMonth(t)),
                         Purchase(2, 0, 0, true, t + 10 * DAY, AddMonth(t)),
                         Purchase(3, 10, 10, true, t + 20 * DAY, end)]
  {
    DroppedIs(t);
  }

  lemma MonthBounds(t: int)
    ensures t + 28 * DAY <= AddMonth(t) <= t + 31 * DAY
  {
    AddMonthIs(t);
  }

  lemma ReturnedIsReached(t: int)
    ensures Decide(Standing(None, []), t, DEAR, 100).Bought?
    ensures Decide(Dear(t), t + 10 * DAY, FREE, 0).Bought?
    ensures Decide(Dropped(t), t + 20 * DAY, CHEAP, 10).Bought?
  {
    MonthBounds(t);
    DearIs(t);
    DroppedIs(t);
  }

  lemma ReturnedDoesNotLast(s: Standing, t: int, dearEnd: int, end: int)
    requires s.current == Some(Current(3, 3, 10, true, t + 20 * DAY, Some(end)))
    requires s.purchases == [Purchase(1, 100, 100, true, t, dearEnd), Purchase(2, 0, 0, true, t + 10 * DAY, dearEnd),
                             Purchase(3, 10, 10, true, t + 20 * DAY, end)]
    requires t + 28 * DAY <= dearEnd <= t + 31 * DAY && t + 48 * DAY <= end
    ensures s.Running(t + 25 * DAY) && !FutureCycle(s.purchases, t + 25 * DAY) && !Lasting(s, t + 25 * DAY, end)
  {
    assert s.purchases[0].Covers(t + 25 * DAY);
    assert PaidBaseline(s, t + 25 * DAY) >= 100;
  }

  /** From an empty account, at any time, three purchases lead to a period whose cost does depend on the path. */
  lemma ReturnedIsPathDependent(t: int)
    ensures Returned(t).current.Some? && Returned(t).current.value.ends == Some(AddMonth(t + 20 * DAY))
    ensures !EveryPathTelescopes(Returned(t), t + 25 * DAY, AddMonth(t + 20 * DAY))
  {
    ReturnedIs(t);
    MonthBounds(t);
    MonthBounds(t + 20 * DAY);
    ReturnedDoesNotLast(Returned(t), t, AddMonth(t), AddMonth(t + 20 * DAY));
    PathIndependentIffBaselineLasts(Returned(t), t + 25 * DAY, AddMonth(t + 20 * DAY));
  }

  // ---------------------------------------------------------------- renewals

  ghost function RenewAll(s: Standing, nows: seq<int>, target: Target): Standing {
    if nows == [] then s
    else Buy(RenewAll(s, nows[..|nows| - 1], target), Request(nows[|nows| - 1], target))
  }

  ghost predicate RenewalAt(s: Standing, now: int, target: Target) {
    && s.Running(now) && s.current.value.version == target.version
    && Decide(s, now, target, target.price).Bought?
  }

  /** Renewals of the version in force, each bought before the paid time is over. */
  ghost predicate RenewsEach(s: Standing, nows: seq<int>, target: Target) {
    nows != [] ==>
      && RenewsEach(s, nows[..|nows| - 1], target)
      && RenewalAt(RenewAll(s, nows[..|nows| - 1], target), nows[|nows| - 1], target)
  }

  /** The end of the n-th month after an instant. */
  ghost function MonthsOn(t: int, n: nat): int {
    if n == 0 then t else AddMonth(MonthsOn(t, n - 1))
  }

  ghost function RenewalRow(target: Target, from: int, i: nat): Purchase {
    Purchase(target.version, target.price, target.price, true, MonthsOn(from, i), MonthsOn(from, i + 1))
  }

  ghost function RenewalRows(target: Target, from: int, n: nat): seq<Purchase> {
    if n == 0 then [] else RenewalRows(target, from, n - 1) + [RenewalRow(target, from, n - 1)]
  }

  lemma RenewalStep(s: Standing, now: int, target: Target, from: int, n: nat)
    requires RenewalAt(s, now, target) && s.current.value.ends == Some(MonthsOn(from, n))
    ensures var t := Buy(s, Request(now, target));
      && t.purchases == s.purchases + [RenewalRow(target, from, n)]
      && t.current.Some? && t.current.value.ends == Some(MonthsOn(from, n + 1))
  {
  }

  /** n renewals buy n periods that begin where the paid time ended and meet end to start. */
  lemma {:induction false} RenewalsAreBackToBack(s: Standing, nows: seq<int>, target: Target)
    requires s.current.Some? && s.current.value.ends.Some? && RenewsEach(s, nows, target)
    ensures var from := s.current.value.ends.value;
      && RenewAll(s, nows, target).current.Some?
      && RenewAll(s, nows, target).current.value.ends == Some(MonthsOn(from, |nows|))
      && RenewAll(s, nows, target).purchases == s.purchases + RenewalRows(target, from, |nows|)
  {
    if nows != [] {
      var from, k := s.current.value.ends.value, |nows| - 1;
      RenewalsAreBackToBack(s, nows[..k], target);
      RenewalStep(RenewAll(s, nows[..k], target), nows[k], target, from, k);
    }
  }

  /** Each of those periods is one calendar month: same clock time, 28 to 31 days, and a day of the
      month that never grows. */
  lemma {:induction false} RenewalPeriodIsAMonth(from: int, n: nat)
    ensures Civil(MonthsOn(from, n + 1)) == MonthLater(Civil(MonthsOn(from, n)))
    ensures Civil(MonthsOn(from, n + 1)).clock == Civil(from).clock
    ensures Civil(MonthsOn(from, n + 1)).date.day <= Civil(MonthsOn(from, n)).date.day <= Civil(from).date.day
    ensures exists days :: 28 <= days <= 31 && MonthsOn(from, n + 1) == MonthsOn(from, n) + days * DAY
  {
    AddMonthIs(MonthsOn(from, n));
    if n > 0 { RenewalPeriodIsAMonth(from, n - 1); }
  }
}
