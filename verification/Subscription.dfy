/** Buying, renewing and changing a plan: the quote, the guards and what a purchase leaves behind. */
module Subscription {
  import opened Domain
  import opened Calendar

  type PlanId = nat
  type VersionId = nat

  datatype Target = Target(plan: PlanId, version: VersionId, price: nat, enabled: bool)

  datatype Current = Current(plan: PlanId, version: VersionId, price: nat, active: bool,
                             starts: int, ends: Option<int>)

  datatype Purchase = Purchase(version: VersionId, price: nat, amount: int, succeeded: bool, start: int, end: int)
  {
    predicate Covers(now: int)
    {
      succeeded && start <= now < end
    }

    predicate Ahead(now: int)
    {
      succeeded && now < start && now < end
    }
  }

  /** The subscription row of a user and the purchases made so far. */
  datatype Standing = Standing(current: Option<Current>, purchases: seq<Purchase>)
  {
    /** An active subscription with an end that is still ahead. */
    predicate Running(now: int)
    {
      current.Some? && current.value.active && current.value.ends.Some? && now < current.value.ends.value
    }
  }

  datatype Action = Purchasing | Renewal | Upgrade | Downgrade | Change

  datatype Quote = Quote(action: Action, amount: int, start: int, end: int, ends: Option<int>)

  function ByPrice(price: int, before: int): Action {
    if price > before then Upgrade else if price < before then Downgrade else Change
  }

  /** quoteSubscription. */
  ghost function QuoteSubscription(now: int, s: Standing, target: Target, paidBaseline: int): (q: Quote)
    ensures q.amount >= 0 && (q.ends.Some? ==> q.ends.value == q.end)
    ensures q.start < q.end
  {
    if s.Running(now) then
      var current := s.current.value;
      if current.version == target.version then
          var end := AddMonth(current.ends.value);
        Quote(Renewal, target.price, current.ends.value, end, Some(end))
      else
        var amount := target.price - paidBaseline;
        Quote(ByPrice(target.price, current.price), if amount < 0 then 0 else amount, now, current.ends.value,
              if target.price > 0 then current.ends else None)
    else
      var end := AddMonth(now);
      var action := if s.current.Some? && s.current.value.plan == target.plan then Renewal
                    else if s.current.Some? then ByPrice(target.price, s.current.value.price)
                    else Purchasing;
      Quote(action, target.price, now, end, if target.price > 0 then Some(end) else None)
  }

  method ComputeQuote(now: int, s: Standing, target: Target, paidBaseline: int) returns (q: Quote)
    ensures q == QuoteSubscription(now, s, target, paidBaseline)
  {
    var activeFinite := s.Running(now);
    if activeFinite && s.current.value.version == target.version {
      var start := s.current.value.ends.value;
      var end := MonthAfter(start);
      return Quote(Renewal, target.price, start, end, Some(end));
    }
    if activeFinite {
      var amount := target.price - paidBaseline;
      if amount < 0 { amount := 0; }
      var end := s.current.value.ends.value;
      var action := ByPrice(target.price, s.current.value.price);
      return Quote(action, amount, now, end, if target.price > 0 then Some(end) else None);
    }
    var action := Purchasing;
    if s.current.Some? {
      action := if s.current.value.plan == target.plan then Renewal else ByPrice(target.price, s.current.value.price);
    }
    var end := MonthAfter(now);
    return Quote(action, target.price, now, end, if target.price > 0 then Some(end) else None);
  }

  predicate CanPurchasePlan(enabled: bool, current: Option<Current>, plan: PlanId) {
    enabled || (current.Some? && current.value.plan == plan)
  }

  /** The highest price among the succeeded purchases whose period contains `now`. */
  function PaidMax(purchases: seq<Purchase>, now: int): (r: nat)
    ensures forall i :: 0 <= i < |purchases| && purchases[i].Covers(now) ==> purchases[i].price <= r
    ensures r == 0 || exists i :: 0 <= i < |purchases| && purchases[i].Covers(now) && purchases[i].price == r
  {
    if purchases == [] then 0 else
      var p := purchases[|purchases| - 1];
      var rest := PaidMax(purchases[..|purchases| - 1], now);
      if p.Covers(now) && p.price > rest then p.price else rest
  }

  function PaidBaseline(s: Standing, now: int): nat
  {
    var paid := PaidMax(s.purchases, now);
    if s.Running(now) && s.current.value.price > paid then s.current.value.price else paid
  }

  predicate FutureCycle(purchases: seq<Purchase>, now: int)
  {
    exists i :: 0 <= i < |purchases| && purchases[i].Ahead(now)
  }

  datatype Verdict = Unavailable | NoChange | PrepaidLocked | Insufficient | Bought

  /** What purchaseSubscription answers for a wallet holding `balance`. */
  ghost function Decide(s: Standing, now: int, target: Target, balance: int): Verdict
  {
    if !CanPurchasePlan(target.enabled, s.current, target.plan) then Unavailable
    else if s.current.Some? && s.current.value.active && s.current.value.ends.None?
         && s.current.value.version == target.version then NoChange
    else if s.current.Some? && s.current.value.version != target.version && FutureCycle(s.purchases, now)
    then PrepaidLocked
    else if balance < Charge(s, now, target) then Insufficient
    else Bought
  }

  ghost function Quoted(s: Standing, now: int, target: Target): (q: Quote)
  {
    QuoteSubscription(now, s, target, PaidBaseline(s, now))
  }

  ghost function Charge(s: Standing, now: int, target: Target): (amount: int)
    ensures amount >= 0
  {
    Quoted(s, now, target).amount
  }

  /** The rows purchaseSubscription writes when it answers `verdict`. */
  ghost function After(s: Standing, now: int, target: Target, verdict: Verdict): Standing
  {
    var q := Quoted(s, now, target);
    var row := Purchase(target.version, target.price, q.amount, verdict.Bought?, q.start, q.end);
    match verdict
    case Bought =>
      var starts := if s.Running(now) then s.current.value.starts else now;
      Standing(Some(Current(target.plan, target.version, target.price, true, starts, q.ends)), s.purchases + [row])
    case Insufficient => s.(purchases := s.purchases + [row])
    case _ => s
  }

  /** The guards, the quote and the subscription rows of one purchase. */
  method DecidePurchase(s: Standing, now: int, target: Target, balance: int) returns (verdict: Verdict, amount: int,
                        after: Standing)
    ensures verdict == Decide(s, now, target, balance)
    ensures amount == Charge(s, now, target)
    ensures after == After(s, now, target, verdict)
  {
    var paidBaseline := PaidMax(s.purchases, now);
    if s.Running(now) && s.current.value.price > paidBaseline { paidBaseline := s.current.value.price; }
    var q := ComputeQuote(now, s, target, paidBaseline);
    amount := q.amount;
    if !CanPurchasePlan(target.enabled, s.current, target.plan) { return Unavailable, amount, s; }
    if s.current.Some? && s.current.value.active && s.current.value.ends.None?
       && s.current.value.version == target.version {
      return NoChange, amount, s;
    }
    if s.current.Some? && s.current.value.version != target.version && FutureCycle(s.purchases, now) {
      return PrepaidLocked, amount, s;
    }
    if balance < amount {
      after := s.(purchases := s.purchases + [Purchase(target.version, target.price, amount, false, q.start, q.end)]);
      return Insufficient, amount, after;
    }
    var startsAt := now;
    if s.Running(now) { startsAt := s.current.value.starts; }
    after := s.(current := Some(Current(target.plan, target.version, target.price, true, startsAt, q.ends)));
    var row := Purchase(target.version, target.price, amount, true, q.start, q.end);
    after := after.(purchases := after.purchases + [row]);
    return Bought, amount, after;
  }

  // ---------------------------------------------------------------- plan changes within one service period

  datatype Request = Request(now: int, target: Target)

  ghost function Buy(s: Standing, r: Request): Standing
  {
    After(s, r.now, r.target, Bought)
  }

  /** `path` is a run of accepted changes between paid plans from `now` on, inside the period ending at `end`. */
  ghost predicate ChangesWithin(s: Standing, now: int, end: int, path: seq<Request>)
    decreases |path|
  {
    && s.Running(now) && s.current.value.ends == Some(end)
    && (path != [] ==>
          && now <= path[0].now < end
          && path[0].target.price > 0 && path[0].target.version != s.current.value.version
          && Decide(s, path[0].now, path[0].target, Charge(s, path[0].now, path[0].target)) == Bought
          && ChangesWithin(Buy(s, path[0]), path[0].now, end, path[1..]))
  }

  ghost function TotalCharge(s: Standing, now: int, end: int, path: seq<Request>): int
    requires ChangesWithin(s, now, end, path)
    decreases |path|
  {
    if path == [] then 0
    else Charge(s, path[0].now, path[0].target) + TotalCharge(Buy(s, path[0]), path[0].now, end, path[1..])
  }

  function Peak(baseline: nat, path: seq<Request>): (r: nat)
    ensures r >= baseline && forall i :: 0 <= i < |path| ==> r >= path[i].target.price
    ensures r == baseline || exists i :: 0 <= i < |path| && r == path[i].target.price
    decreases |path|
  {
    if path == [] then baseline
    else Peak(if path[0].target.price > baseline then path[0].target.price else baseline, path[1..])
  }
}
