/** Balances that stay exact, usage billed once, and billing that comes to rest. */
module AccountsTheorems {
  import opened Domain
  import opened Calendar
  import opened Ledger
  import opened Credits
  import opened Accounts
  import opened AccountsInvariant
  import Subscription

  // ---------------------------------------------------------------- exact, non-negative balances

  /** A check-in whose reward would push the balance past the largest int64. */
  predicate Wraps(a: Account, e: Event) {
    e.CheckedIn? && CheckinVerdict(a, e.settings, e.day, e.reward).Done? && a.wallet.balance + e.reward > MAX_INT64
  }

  lemma DebitSound(w: Wallet, kind: Kind, ref: Ref, amount: int)
    requires Sound(w) && 0 <= amount <= w.balance
    ensures Sound(Debit(w, kind, ref, amount))
  {
    SoundIffInRange(w, kind, ref, -amount);
  }

  lemma CreditSound(a: Account, kind: Kind, ref: Ref, amount: int)
    requires Sound(a.wallet) && amount >= 0
    ensures Sound(CreditWallet(a, kind, ref, amount).wallet)
  {
    if Add(a.wallet, kind, ref, amount).Some? {
      AddIsStore(a.wallet, kind, ref, amount);
      SoundIffInRange(a.wallet, kind, ref, amount);
    }
  }

  /** adjustWallet computes in Go too, but a wrapped sum is negative there and is refused. */
  lemma AdjustSound(a: Account, amount: int, text: string)
    requires Sound(a.wallet)
    ensures Sound(Adjust(a, amount, text).wallet)
    ensures AdjustVerdict(a.wallet, amount, text).Done? ==>
      Adjust(a, amount, text).wallet.balance == a.wallet.balance + amount
  {
    SoundIffInRange(a.wallet, Adjustment, TextRef(text), amount);
  }

  /** Top-ups and invite rewards are never negative: their tables and guards say so. */
  predicate Natural(e: Event) {
    (e.OrderPaid? ==> e.amount > 0) && (e.InviteRewarded? ==> e.amount > 0)
  }

  lemma BilledSound(prices: Prices, a: Account, row: nat, now: int)
    requires Sound(a.wallet)
    ensures Sound(BillUsage(prices, a, row, now).wallet)
  {
    if BillingOutcome(prices, a, row, now).Settled? {
      var u := a.usage[row];
      var amount := Price(prices[u.price.value], u.quantity);
      DebitSound(a.wallet, UsageFee, Key(u.slot, u.price.value), amount - Lesser(amount, CreditOf(a, now)));
    }
  }

  lemma PurchaseSound(a: Account, now: int, target: Subscription.Target)
    requires Sound(a.wallet)
    ensures Sound(PurchasePlan(a, now, target).wallet)
  {
    if PurchaseVerdict(a, now, target).Bought? {
      DebitSound(a.wallet, Kind.Fee, PurchaseRef(|a.standing.purchases|), Subscription.Charge(a.standing, now, target));
    }
  }

  lemma RefundSound(a: Account, order: OrderId, amount: int)
    requires Sound(a.wallet)
    ensures Sound(DebitRefund(a, order, amount).wallet)
  {
    if Refundable(a, order, amount) { SoundIffInRange(a.wallet, Refund, OrderRef(order), -amount); }
  }

  lemma PostingSound(prices: Prices, a: Account, e: Event)
    requires Sound(a.wallet) && Natural(e) && IsPosting(e)
    ensures Sound(Apply(prices, a, e).wallet)
  {
    match e
    case WalletAdjusted(amount, text) => AdjustSound(a, amount, text);
    case OrderPaid(order, amount) => CreditSound(a, Topup, OrderRef(order), amount);
    case OrderRefunded(order, amount) => RefundSound(a, order, amount);
    case InviteRewarded(invite, amount) => CreditSound(a, Bonus, InviteRef(invite), amount);
  }

  /** A step leaves a sound wallet sound unless it is a check-in that wraps. */
  lemma StepSoundIff(prices: Prices, a: Account, e: Event)
    requires Sound(a.wallet) && Natural(e)
    ensures Sound(Apply(prices, a, e).wallet) <==> !Wraps(a, e)
  {
    if IsPosting(e) {
      PostingSound(prices, a, e);
    } else {
      match e
      case UsageBilled(row, now) => BilledSound(prices, a, row, now);
      case CheckedIn(settings, day, reward) => SoundIffInRange(a.wallet, CheckinReward, DayRef(day), reward);
      case PlanPurchased(now, target) => PurchaseSound(a, now, target);
      case UsageAggregated(slot, price, quantity) =>
      case CreditGranted(now, ref, amount, expires, id, note) =>
    }
  }

  /** The wallet is sound after every step of the run. */
  ghost predicate SoundThroughout(prices: Prices, a: Account, events: seq<Event>) {
    && Sound(Run(prices, a, events).wallet)
    && (events != [] ==> SoundThroughout(prices, a, events[..|events| - 1]))
  }

  ghost predicate NeverWraps(prices: Prices, a: Account, events: seq<Event>) {
    events != [] ==>
      && NeverWraps(prices, a, events[..|events| - 1])
      && !Wraps(Run(prices, a, events[..|events| - 1]), events[|events| - 1])
  }

  /** Along a whole run every balance is the exact sum of its ledger, between zero and the largest
      int64, exactly when no check-in reward is paid onto a balance without room for it. */
  lemma {:induction false} BalanceExactIffNoCheckinWraps(prices: Prices, a: Account, events: seq<Event>)
    requires Sound(a.wallet) && forall k :: 0 <= k < |events| ==> Natural(events[k])
    ensures SoundThroughout(prices, a, events) <==> NeverWraps(prices, a, events)
  {
    if events != [] {
      var front := events[..|events| - 1];
      BalanceExactIffNoCheckinWraps(prices, a, front);
      if SoundThroughout(prices, a, front) {
        StepSoundIff(prices, Run(prices, a, front), events[|events| - 1]);
      }
    }
  }

  function FillAndCheckIn(): seq<Event> {
    [WalletAdjusted(MAX_INT64, "x"), CheckedIn(CheckinSettings(true, 1, 10), 0, 1)]
  }

  /** The wrap can happen: an administrator fills a new wallet, which adjustWallet accepts, and the next
      check-in leaves the most negative balance. */
  lemma CheckinCanWrap(prices: Prices)
    ensures Run(prices, Opened(0), FillAndCheckIn()[..1]).wallet.balance == MAX_INT64
    ensures Run(prices, Opened(0), FillAndCheckIn()).wallet.balance == -MAX_INT64 - 1
  {
    var fill := FillAndCheckIn()[0];
    var full := Adjust(Opened(0), MAX_INT64, "x");
    assert AdjustVerdict(Opened(0).wallet, MAX_INT64, "x").Done?;
    assert FillAndCheckIn()[..1] == [fill] && [fill][..0] == [];
    assert Run(prices, Opened(0), [fill]) == Apply(prices, Run(prices, Opened(0), []), fill) == full;
    assert CheckinVerdict(full, CheckinSettings(true, 1, 10), 0, 1).Done?;
  }

  // ---------------------------------------------------------------- charged once

  /** Charges are only appended and a row that is no longer waiting stays as it is. */
  predicate Grows(a: Account, r: Account) {
    && |a.charges| <= |r.charges| && r.charges[..|a.charges|] == a.charges
    && |a.usage| <= |r.usage|
    && forall i :: 0 <= i < |a.usage| && a.usage[i].disposition != Unbilled ==> r.usage[i] == a.usage[i]
  }

  lemma StepGrows(prices: Prices, a: Account, e: Event)
    ensures Grows(a, Apply(prices, a, e))
  {
    if e.UsageBilled? { BillingGrows(prices, a, e.row, e.now); }
  }

  lemma BillingGrows(prices: Prices, a: Account, i: nat, now: int)
    ensures Grows(a, BillUsage(prices, a, i, now))
  {
  }

  lemma {:induction false} ChargesOnlyGrow(prices: Prices, a: Account, events: seq<Event>)
    ensures Grows(a, Run(prices, a, events))
  {
    if events != [] {
      var before := Run(prices, a, events[..|events| - 1]);
      ChargesOnlyGrow(prices, a, events[..|events| - 1]);
      StepGrows(prices, before, events[|events| - 1]);
      GrowsOn(a, before, Run(prices, a, events));
    }
  }

  lemma GrowsOn(a: Account, b: Account, c: Account)
    requires Grows(a, b) && Grows(b, c)
    ensures Grows(a, c)
  {
    assert c.charges[..|b.charges|][..|a.charges|] == c.charges[..|a.charges|];
  }

  predicate ChargeOf(u: Usage, c: Charge) {
    c.slot == u.slot && Some(c.price) == u.price
  }

  /** In every reachable state a usage row has at most one charge, none while it waits or when it has
      no price, and a charge at its own quantity and price once it is charged. */
  lemma EachRowChargedOnce(prices: Prices, initial: int, events: seq<Event>, i: nat)
    requires i < |Run(prices, Opened(initial), events).usage|
    ensures var r := Run(prices, Opened(initial), events); var u := r.usage[i];
      && (forall j, k | 0 <= j < |r.charges| && 0 <= k < |r.charges| ::
            ChargeOf(u, r.charges[j]) && ChargeOf(u, r.charges[k]) ==> j == k)
      && (u.disposition != Charged ==> forall j :: 0 <= j < |r.charges| ==> !ChargeOf(u, r.charges[j]))
      && (u.price.None? <==> u.disposition == Unpriced)
      && (u.disposition == Charged ==>
            exists j :: 0 <= j < |r.charges| && ChargeOf(u, r.charges[j]) && u.price.value in prices
                        && r.charges[j].amount == Price(prices[u.price.value], u.quantity))
  {
    RunKeeps(prices, initial, events);
    var r := Run(prices, Opened(initial), events);
    var u := r.usage[i];
    forall j | 0 <= j < |r.charges| && ChargeOf(u, r.charges[j]) ensures u.disposition == Charged {
      assert HasRow(r.usage, r.charges[j]);
      var k :| 0 <= k < |r.usage| && ChargedAs(r.usage[k], r.charges[j]);
      assert k == i;
    }
    forall j, k | 0 <= j < |r.charges| && 0 <= k < |r.charges| && ChargeOf(u, r.charges[j]) && ChargeOf(u, r.charges[k])
      ensures j == k
    {
      assert ChargeRef(r.charges[j]) == ChargeRef(r.charges[k]);
    }
    if u.disposition == Charged {
      assert HasCharge(u, r.charges);
      var j :| 0 <= j < |r.charges| && ChargedAs(u, r.charges[j]);
      assert ChargeOf(u, r.charges[j]);
    }
  }

  // ---------------------------------------------------------------- billing is never blocked by its own rows

  /** A claimed row fails only when its price exceeds an int64; the ledger never refuses it. */
  lemma BillingRejectsOnlyOverflow(prices: Prices, a: Account, i: nat, now: int)
    requires AccountInv(prices, a) && BillingOutcome(prices, a, i, now).Rejected?
    ensures Price(prices[a.usage[i].price.value], a.usage[i].quantity) > MAX_INT64
  {
    ClaimIsNew(a, i, now);
  }

  // ---------------------------------------------------------------- funds

  function LiveSum(grants: seq<Grant>, now: int): nat {
    if grants == [] then 0 else
      var g := grants[|grants| - 1];
      LiveSum(grants[..|grants| - 1], now) + if Live(g, now) then g.remaining else 0
  }

  lemma {:induction false} AvailableAppended(grants: seq<Grant>, order: seq<nat>, i: nat)
    requires InRange(grants, order) && i < |grants|
    ensures Available(grants, order + [i]) == Available(grants, order) + grants[i].remaining
  {
    if order == [] {
      assert order + [i] == [i];
    } else {
      AvailableAppended(grants, order[1..], i);
      assert (order + [i])[1..] == order[1..] + [i];
    }
  }

  lemma {:induction false} AvailablePlaced(grants: seq<Grant>, order: seq<nat>, i: nat)
    requires i < |grants| && i !in order && Ordered(grants, order)
    ensures Available(grants, Placed(grants, order, i)) == Available(grants, order) + grants[i].remaining
  {
    AvailableAppended(grants, order, i);
    if order != [] && !Before(grants[order[|order| - 1]], grants[i]) {
      var front, last := order[..|order| - 1], order[|order| - 1];
      FrontOrdered(grants, order);
      AvailablePlaced(grants, front, i);
      AvailableAppended(grants, front, last);
      AvailableAppended(grants, Placed(grants, front, i), last);
    }
  }

  lemma {:induction false} AvailableUpTo(grants: seq<Grant>, now: int, n: nat)
    requires n <= |grants|
    ensures Available(grants, OrderUpTo(grants, now, n)) == LiveSum(grants[..n], now)
  {
    if n > 0 {
      AvailableUpTo(grants, now, n - 1);
      assert grants[..n][..n - 1] == grants[..n - 1];
      if Live(grants[n - 1], now) { AvailablePlaced(grants, OrderUpTo(grants, now, n - 1), n - 1); }
    }
  }

  /** What the credit query adds up is the sum over the live grants. */
  lemma AvailableIsLiveSum(grants: seq<Grant>, now: int)
    ensures Available(grants, CreditQuery(grants, now)) == LiveSum(grants, now)
  {
    AvailableUpTo(grants, now, |grants|);
    assert grants[..|grants|] == grants;
  }

  lemma {:induction false} LiveSumUpdated(grants: seq<Grant>, now: int, i: nat, g: Grant)
    requires i < |grants| && Live(grants[i], now) && g == grants[i].(remaining := g.remaining)
    requires g.remaining <= grants[i].remaining
    ensures LiveSum(grants[i := g], now) == LiveSum(grants, now) - (grants[i].remaining - g.remaining)
  {
    var front := grants[..|grants| - 1];
    if i < |front| {
      LiveSumUpdated(front, now, i, g);
      assert grants[i := g][..|grants| - 1] == front[i := g];
    } else {
      assert grants[i := g][..|grants| - 1] == front;
    }
  }

  lemma {:induction false} SpendLowersLiveSum(s: Spending, now: int, order: seq<nat>, need: nat, charge: nat)
    requires InRange(s.grants, order) && Distinct(order) && need <= Available(s.grants, order)
    requires forall k :: 0 <= k < |order| ==> Live(s.grants[order[k]], now)
    ensures LiveSum(SpendCredit(s, order, need, charge).grants, now) == LiveSum(s.grants, now) - need
    decreases |order|
  {
    if order != [] && need > 0 {
      var used := Lesser(s.grants[order[0]].remaining, need);
      var next := Draw(s, order[0], used, charge);
      assert order[0] !in order[1..];
      LiveSumUpdated(s.grants, now, order[0], next.grants[order[0]]);
      AvailableElsewhere(s.grants, order[1..], order[0], next.grants[order[0]]);
      SpendLowersLiveSum(next, now, order[1..], need - used, charge);
    }
  }

  lemma SettleTakes(a: Account, i: nat, amount: nat, now: int)
    requires i < |a.usage| && a.usage[i].price.Some?
    requires 0 <= amount - Lesser(amount, CreditOf(a, now)) <= a.wallet.balance <= MAX_INT64
    ensures var r := Settle(a, i, amount, now);
      && r.wallet.balance == a.wallet.balance - (amount - Lesser(amount, CreditOf(a, now)))
      && CreditOf(r, now) == CreditOf(a, now) - Lesser(amount, CreditOf(a, now))
      && Attempt(a.usage[i].slot, a.usage[i].price.value, true, r.wallet.balance, CreditOf(r, now)) in r.attempts
  {
    var order := CreditQuery(a.grants, now);
    var used := Lesser(amount, Available(a.grants, order));
    SpendLowersLiveSum(Spending(a.grants, a.consumptions), now, order, used, |a.charges|);
    AvailableIsLiveSum(a.grants, now);
    AvailableIsLiveSum(Settle(a, i, amount, now).grants, now);
  }

  /** A paid usage takes its whole amount, credit first, and the attempt row it writes records exactly
      the balance and credit that are left. */
  lemma PaidUsageTakesItsAmount(prices: Prices, a: Account, i: nat, now: int)
    requires BillingOutcome(prices, a, i, now).Settled?
    requires 0 <= a.wallet.balance <= MAX_INT64
    ensures var r := BillUsage(prices, a, i, now);
      var amount := Price(prices[a.usage[i].price.value], a.usage[i].quantity);
      && r.wallet.balance + CreditOf(r, now) == a.wallet.balance + CreditOf(a, now) - amount
      && CreditOf(r, now) == CreditOf(a, now) - Lesser(amount, CreditOf(a, now))
      && (CreditOf(r, now) > 0 ==> r.wallet.balance == a.wallet.balance)
      && Attempt(a.usage[i].slot, a.usage[i].price.value, true, r.wallet.balance, CreditOf(r, now)) in r.attempts
  {
    var amount := Price(prices[a.usage[i].price.value], a.usage[i].quantity);
    SettleTakes(a, i, amount, now);
  }

  // ---------------------------------------------------------------- billing comes to rest

  function Waiting(usage: seq<Usage>): nat {
    if usage == [] then 0 else
      var u := usage[|usage| - 1];
      Waiting(usage[..|usage| - 1]) + if u.disposition == Unbilled && u.price.Some? then 1 else 0
  }

  /** Waiting rows not yet refused at this balance and credit. */
  function Untried(usage: seq<Usage>, attempts: set<Attempt>, balance: int, credit: nat): nat {
    if usage == [] then 0 else
      var u := usage[|usage| - 1];
      Untried(usage[..|usage| - 1], attempts, balance, credit)
      + if u.disposition == Unbilled && u.price.Some? && !Refused(attempts, u.slot, balance, credit) then 1 else 0
  }

  lemma {:induction false} UntriedAtMostWaiting(usage: seq<Usage>, attempts: set<Attempt>, balance: int, credit: nat)
    ensures Untried(usage, attempts, balance, credit) <= Waiting(usage)
  {
    if usage != [] { UntriedAtMostWaiting(usage[..|usage| - 1], attempts, balance, credit); }
  }

  lemma {:induction false} OneLessWaiting(usage: seq<Usage>, i: nat)
    requires i < |usage| && usage[i].disposition == Unbilled && usage[i].price.Some?
    ensures Waiting(usage[i := usage[i].(disposition := Charged)]) == Waiting(usage) - 1
  {
    var front := usage[..|usage| - 1];
    var after := usage[i := usage[i].(disposition := Charged)];
    if i < |front| {
      OneLessWaiting(front, i);
      assert after[..|usage| - 1] == front[i := usage[i].(disposition := Charged)];
    } else {
      assert after[..|usage| - 1] == front;
    }
  }

  lemma {:induction false} RefusalCounts(usage: seq<Usage>, attempts: set<Attempt>, t: Attempt)
    requires !t.paid
    ensures var more := attempts + {t};
      && Untried(usage, more, t.balance, t.credit) <= Untried(usage, attempts, t.balance, t.credit)
      && ((exists i :: 0 <= i < |usage| && usage[i].disposition == Unbilled && usage[i].price.Some?
                       && usage[i].slot == t.slot && !Refused(attempts, t.slot, t.balance, t.credit))
          ==> Untried(usage, more, t.balance, t.credit) < Untried(usage, attempts, t.balance, t.credit))
  {
    if usage != [] {
      var front, u := usage[..|usage| - 1], usage[|usage| - 1];
      var more := attempts + {t};
      RefusalCounts(front, attempts, t);
      assert t in more;
      if Refused(attempts, u.slot, t.balance, t.credit) {
        var r :| r in attempts && r.slot == u.slot && !r.paid && r.balance == t.balance && r.credit == t.credit;
        assert r in more;
      }
      if i :| 0 <= i < |usage| && usage[i].disposition == Unbilled && usage[i].price.Some? && usage[i].slot == t.slot {
        assert i < |front| ==> front[i] == usage[i];
      }
    }
  }

  function WaitingOf(a: Account): nat {
    Waiting(a.usage)
  }

  function UntriedOf(a: Account, now: int): nat {
    Untried(a.usage, a.attempts, a.wallet.balance, CreditOf(a, now))
  }

  /** Every committed billing step lowers (waiting rows, rows untried at the present funds). */
  lemma BillingStepDecreases(prices: Prices, a: Account, i: nat, now: int)
    requires BillingOutcome(prices, a, i, now) in {OutOfFunds, Settled}
    ensures var r := BillUsage(prices, a, i, now);
      || WaitingOf(r) < WaitingOf(a)
      || (WaitingOf(r) == WaitingOf(a) && UntriedOf(r, now) < UntriedOf(a, now))
  {
    if BillingOutcome(prices, a, i, now).Settled? {
      OneLessWaiting(a.usage, i);
    } else {
      RefusalCounts(a.usage, a.attempts,
                    Attempt(a.usage[i].slot, a.usage[i].price.value, false, a.wallet.balance, CreditOf(a, now)));
    }
  }

  /** One call of billUsage: the row it claims and its clock reading. */
  datatype Pass = Pass(row: nat, now: int)

  ghost predicate EachCommits(prices: Prices, a: Account, passes: seq<Pass>)
    decreases |passes|
  {
    passes != [] ==>
      && BillingOutcome(prices, a, passes[0].row, passes[0].now) in {OutOfFunds, Settled}
      && EachCommits(prices, BillUsage(prices, a, passes[0].row, passes[0].now), passes[1..])
  }

  function Bound(waiting: nat, untried: nat): nat {
    waiting * (waiting + 1) + untried
  }

  lemma BoundFalls(w: nat, u: nat, w': nat, u': nat)
    requires u' <= w' && (w' < w || (w' == w && u' < u))
    ensures Bound(w', u') < Bound(w, u)
  {
    if w' < w {
      assert w' * (w' + 1) + w' < (w' + 1) * (w' + 2);
      assert (w' + 1) * (w' + 2) <= w * (w + 1) by { Squares(w' + 1, w); }
    }
  }

  lemma Squares(x: nat, y: nat)
    requires x <= y
    ensures x * (x + 1) <= y * (y + 1)
  {
    assert x * x <= x * y <= y * y;
  }

  predicate SameLiveness(grants: seq<Grant>, now: int, later: int) {
    forall i :: 0 <= i < |grants| ==> (Live(grants[i], now) <==> Live(grants[i], later))
  }

  lemma {:induction false} SameQuery(grants: seq<Grant>, now: int, later: int, n: nat)
    requires n <= |grants| && SameLiveness(grants, now, later)
    ensures OrderUpTo(grants, now, n) == OrderUpTo(grants, later, n)
  {
    if n > 0 { SameQuery(grants, now, later, n - 1); }
  }

  /** While no grant expires, the passing of time changes nothing about a billing step. */
  lemma TimeAloneChangesNothing(prices: Prices, a: Account, i: nat, now: int, later: int)
    requires SameLiveness(a.grants, now, later)
    ensures BillingOutcome(prices, a, i, now) == BillingOutcome(prices, a, i, later)
    ensures BillUsage(prices, a, i, now) == BillUsage(prices, a, i, later)
  {
    SameQuery(a.grants, now, later, |a.grants|);
  }

  /** No grant expires after `from` and up to `to`. */
  predicate NoExpiry(grants: seq<Grant>, from: int, to: int) {
    forall i :: 0 <= i < |grants| && grants[i].expires.Some? ==> !(from < grants[i].expires.value <= to)
  }

  lemma BillingKeepsExpiries(prices: Prices, a: Account, i: nat, now: int, from: int, to: int)
    requires NoExpiry(a.grants, from, to)
    ensures NoExpiry(BillUsage(prices, a, i, now).grants, from, to)
  {
    if BillingOutcome(prices, a, i, now).Settled? {
      var amount := Price(prices[a.usage[i].price.value], a.usage[i].quantity);
      var order := CreditQuery(a.grants, now);
      var used := Lesser(amount, Available(a.grants, order));
      SpendKeepsOthers(Spending(a.grants, a.consumptions), order, used, |a.charges|);
    }
  }

  /** With no new usage, top-up or grant, and no expiry between the clock readings, billing stops within
      waiting*(waiting+1)+untried committed steps. */
  lemma {:induction false} BillingStops(prices: Prices, a: Account, passes: seq<Pass>, from: int, to: int)
    requires EachCommits(prices, a, passes) && NoExpiry(a.grants, from, to)
    requires forall k :: 0 <= k < |passes| ==> from <= passes[k].now <= to
    ensures |passes| <= Bound(WaitingOf(a), UntriedOf(a, from))
    decreases |passes|
  {
    if passes != [] {
      var row, now := passes[0].row, passes[0].now;
      TimeAloneChangesNothing(prices, a, row, from, now);
      var r := BillUsage(prices, a, row, from);
      BillingStepDecreases(prices, a, row, from);
      UntriedAtMostWaiting(r.usage, r.attempts, r.wallet.balance, CreditOf(r, from));
      BoundFalls(WaitingOf(a), UntriedOf(a, from), WaitingOf(r), UntriedOf(r, from));
      BillingKeepsExpiries(prices, a, row, from, from, to);
      BillingStops(prices, r, passes[1..], from, to);
    }
  }
}
