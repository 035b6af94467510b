/** What users are charged, what their credit is worth, and what repeating a request does. */
module AccountsOutcomes {
  import opened Domain
  import opened Calendar
  import opened Ledger
  import opened Credits
  import opened Accounts
  import opened AccountsInvariant
  import opened AccountsTheorems
  import Subscription
  import SubscriptionTheorems

  // ---------------------------------------------------------------- the price of usage

  /** What a price version says about an amount: nothing up to the free quantity, the rest at the unit price,
      and the minimum in any case. */
  predicate FairAmount(p: Pricing, quantity: nat, cents: nat) {
    && (quantity <= p.free && p.minimum <= 0 ==> cents == 0)
    && (quantity >= p.free && quantity - p.free >= p.minimum ==>
          RoundsTo(p.rounding, (quantity - p.free) * p.unitMicros, cents))
    && (p.minimum >= 0 && p.minimum >= quantity - p.free ==> RoundsTo(p.rounding, p.minimum * p.unitMicros, cents))
  }

  lemma RoundingIsOne(mode: Rounding, exact: nat, x: nat, y: nat)
    requires RoundsTo(mode, exact, x) && RoundsTo(mode, exact, y)
    ensures x == y
  {
  }

  lemma FairAmountIsOne(p: Pricing, quantity: nat, x: nat, y: nat)
    requires FairAmount(p, quantity, x) && FairAmount(p, quantity, y)
    ensures x == y
  {
    if quantity >= p.free && quantity - p.free >= p.minimum {
      RoundingIsOne(p.rounding, (quantity - p.free) * p.unitMicros, x, y);
    } else if p.minimum >= 0 {
      RoundingIsOne(p.rounding, p.minimum * p.unitMicros, x, y);
    }
  }

  lemma PriceIsFair(p: Pricing, quantity: nat)
    ensures FairAmount(p, quantity, Price(p, quantity))
  {
  }

  /** There is one fair amount for a price version and a quantity, and it is the price. */
  lemma FairAmountIsPrice(p: Pricing, quantity: nat, cents: nat)
    ensures FairAmount(p, quantity, cents) <==> cents == Price(p, quantity)
  {
    PriceIsFair(p, quantity);
    if FairAmount(p, quantity, cents) { FairAmountIsOne(p, quantity, cents, Price(p, quantity)); }
  }

  /** In every run every charge is the fair amount for the quantity of its row. */
  lemma EveryChargeIsFair(prices: Prices, initial: int, events: seq<Event>, j: nat)
    requires j < |Run(prices, Opened(initial), events).charges|
    ensures var c := Run(prices, Opened(initial), events).charges[j];
      c.price in prices && FairAmount(prices[c.price], c.quantity, c.amount)
  {
    RunKeeps(prices, initial, events);
    var c := Run(prices, Opened(initial), events).charges[j];
    FairAmountIsPrice(prices[c.price], c.quantity, c.amount);
  }

  lemma ProductGrows(x: nat, y: nat, z: nat)
    requires x <= y
    ensures x * z <= y * z
  {
  }

  lemma RoundingGrows(mode: Rounding, x: nat, y: nat)
    requires x <= y
    ensures Rounded(mode, x) <= Rounded(mode, y)
  {
  }

  /** More usage never costs less. */
  lemma PriceGrows(p: Pricing, less: nat, more: nat)
    requires less <= more
    ensures Price(p, less) <= Price(p, more)
  {
    ProductGrows(Billable(p, less), Billable(p, more), p.unitMicros);
    RoundingGrows(p.rounding, Billable(p, less) * p.unitMicros, Billable(p, more) * p.unitMicros);
  }

  // ---------------------------------------------------------------- plan fees

  function FeeTotal(entries: seq<Entry>): int {
    if entries == [] then 0 else
      var e := entries[|entries| - 1];
      FeeTotal(entries[..|entries| - 1]) - if e.kind == Kind.Fee then e.amount else 0
  }

  /** The amounts of the succeeded purchases, and their prices. */
  function AmountsOf(purchases: seq<Subscription.Purchase>): int {
    if purchases == [] then 0
    else AmountsOf(purchases[..|purchases| - 1]) + AccountsInvariant.Fee(purchases[|purchases| - 1])
  }

  function PricesOf(purchases: seq<Subscription.Purchase>): int {
    if purchases == [] then 0 else
      var p := purchases[|purchases| - 1];
      PricesOf(purchases[..|purchases| - 1]) + if p.succeeded then p.price else 0
  }

  lemma FeeAppended(entries: seq<Entry>, e: Entry)
    ensures FeeTotal(entries + [e]) == FeeTotal(entries) - if e.kind == Kind.Fee then e.amount else 0
  {
    assert (entries + [e])[..|entries|] == entries;
  }

  lemma PurchaseAppended(purchases: seq<Subscription.Purchase>, p: Subscription.Purchase)
    ensures AmountsOf(purchases + [p]) == AmountsOf(purchases) + AccountsInvariant.Fee(p)
    ensures PricesOf(purchases + [p]) == PricesOf(purchases) + if p.succeeded then p.price else 0
  {
    assert (purchases + [p])[..|purchases|] == purchases;
  }

  /** The step moves the fees in the ledger by as much as the amounts of the purchases. */
  predicate PostsAmounts(a: Account, r: Account) {
    FeeTotal(r.wallet.entries) - FeeTotal(a.wallet.entries)
    == AmountsOf(r.standing.purchases) - AmountsOf(a.standing.purchases)
  }

  predicate AtFullPrice(a: Account, r: Account) {
    AmountsOf(r.standing.purchases) - AmountsOf(a.standing.purchases)
    == PricesOf(r.standing.purchases) - PricesOf(a.standing.purchases)
  }

  lemma DebitPosts(w: Wallet, ref: Ref, amount: int)
    ensures FeeTotal(Debit(w, Kind.Fee, ref, amount).entries) == FeeTotal(w.entries) + amount
  {
    if amount != 0 { FeeAppended(w.entries, Entry(Kind.Fee, ref, -amount, Wrap(w.balance - amount))); }
  }

  /** What an accepted purchase leaves: its row, and a debit of its amount. */
  lemma BoughtIs(prices: Prices, a: Account, now: int, target: Subscription.Target)
    requires AccountInv(prices, a) && PurchaseVerdict(a, now, target).Bought?
    ensures var r := PurchasePlan(a, now, target); var p := Row(a, now, target);
      && p.succeeded && r.standing.purchases == a.standing.purchases + [p]
      && r.wallet == Debit(a.wallet, Kind.Fee, PurchaseRef(|a.standing.purchases|), p.amount)
  {
    if Row(a, now, target).amount > 0 { PurchaseNeverClashes(prices, a, Row(a, now, target).amount); }
  }

  lemma RowAtFullPrice(a: Account, now: int, target: Subscription.Target)
    requires !a.standing.Running(now)
    ensures Row(a, now, target).amount == Row(a, now, target).price
  {
    SubscriptionTheorems.FullPriceOutsidePeriod(a.standing, now, target);
  }

  lemma BoughtPosts(prices: Prices, a: Account, now: int, target: Subscription.Target)
    requires AccountInv(prices, a) && PurchaseVerdict(a, now, target).Bought?
    ensures PostsAmounts(a, PurchasePlan(a, now, target))
    ensures !a.standing.Running(now) ==> AtFullPrice(a, PurchasePlan(a, now, target))
  {
    var p := Row(a, now, target);
    BoughtIs(prices, a, now, target);
    PurchaseAppended(a.standing.purchases, p);
    DebitPosts(a.wallet, PurchaseRef(|a.standing.purchases|), p.amount);
    if !a.standing.Running(now) { RowAtFullPrice(a, now, target); }
  }

  lemma RefusedPosts(a: Account, now: int, target: Subscription.Target)
    requires !PurchaseVerdict(a, now, target).Bought?
    ensures PostsAmounts(a, PurchasePlan(a, now, target)) && AtFullPrice(a, PurchasePlan(a, now, target))
  {
    PurchaseAppended(a.standing.purchases, Row(a, now, target));
  }

  /** A purchase posts its amount and appends its row, or a failed row and nothing, or changes nothing. */
  lemma PurchasePosts(prices: Prices, a: Account, now: int, target: Subscription.Target)
    requires AccountInv(prices, a)
    ensures PostsAmounts(a, PurchasePlan(a, now, target))
    ensures !a.standing.Running(now) ==> AtFullPrice(a, PurchasePlan(a, now, target))
  {
    if PurchaseVerdict(a, now, target).Bought? { BoughtPosts(prices, a, now, target); }
    else { RefusedPosts(a, now, target); }
  }

  /** No other step posts a fee or touches a purchase. */
  lemma OthersPostNoFee(prices: Prices, a: Account, e: Event)
    requires !e.PlanPurchased?
    ensures Apply(prices, a, e).standing == a.standing
    ensures FeeTotal(Apply(prices, a, e).wallet.entries) == FeeTotal(a.wallet.entries)
  {
    OthersPostElsewhere(prices, a, e);
    var r := Apply(prices, a, e).wallet.entries;
    if r != a.wallet.entries {
      assert r == a.wallet.entries + [r[|a.wallet.entries|]];
      FeeAppended(a.wallet.entries, r[|a.wallet.entries|]);
    }
  }

  lemma OthersPostElsewhere(prices: Prices, a: Account, e: Event)
    requires !e.PlanPurchased?
    ensures Apply(prices, a, e).standing == a.standing
    ensures var r := Apply(prices, a, e).wallet.entries; var n := |a.wallet.entries|;
      r == a.wallet.entries || (|r| == n + 1 && r[..n] == a.wallet.entries && r[n].kind != Kind.Fee)
  {
  }

  /** In every run the fees in the ledger add up to the amounts of the purchases that succeeded. */
  lemma {:induction false} FeesAreTheAmounts(prices: Prices, initial: int, events: seq<Event>)
    ensures var r := Run(prices, Opened(initial), events);
      FeeTotal(r.wallet.entries) == AmountsOf(r.standing.purchases)
  {
    if events == [] {
      OpenedWithoutFee(initial);
    } else {
      var before, e := Run(prices, Opened(initial), events[..|events| - 1]), events[|events| - 1];
      FeesAreTheAmounts(prices, initial, events[..|events| - 1]);
      if e.PlanPurchased? {
        RunKeeps(prices, initial, events[..|events| - 1]);
        PurchasePosts(prices, before, e.now, e.target);
      } else {
        OthersPostNoFee(prices, before, e);
      }
    }
  }

  lemma OpenedWithoutFee(initial: int)
    ensures FeeTotal(Opened(initial).wallet.entries) == 0 && Opened(initial).standing.purchases == []
  {
    if Opened(initial).wallet.entries != [] { FeeAppended([], Opened(initial).wallet.entries[0]); }
  }

  /** Every purchase of the run falls outside a running period. */
  ghost predicate BuysOutside(prices: Prices, a: Account, events: seq<Event>) {
    events != [] ==>
      && BuysOutside(prices, a, events[..|events| - 1])
      && var e := events[|events| - 1];
         e.PlanPurchased? ==> !Run(prices, a, events[..|events| - 1]).standing.Running(e.now)
  }

  lemma {:induction false} AmountsAreThePrices(prices: Prices, initial: int, events: seq<Event>)
    requires BuysOutside(prices, Opened(initial), events)
    ensures var r := Run(prices, Opened(initial), events);
      AmountsOf(r.standing.purchases) == PricesOf(r.standing.purchases)
  {
    if events != [] {
      var before, e := Run(prices, Opened(initial), events[..|events| - 1]), events[|events| - 1];
      AmountsAreThePrices(prices, initial, events[..|events| - 1]);
      if e.PlanPurchased? {
        RunKeeps(prices, initial, events[..|events| - 1]);
        PurchasePosts(prices, before, e.now, e.target);
      } else {
        OthersPostNoFee(prices, before, e);
      }
    }
  }

  /** An account that never buys within a running period pays in all the prices of what it bought. */
  lemma FeesAreThePrices(prices: Prices, initial: int, events: seq<Event>)
    requires BuysOutside(prices, Opened(initial), events)
    ensures var r := Run(prices, Opened(initial), events);
      FeeTotal(r.wallet.entries) == PricesOf(r.standing.purchases)
  {
    FeesAreTheAmounts(prices, initial, events);
    AmountsAreThePrices(prices, initial, events);
  }

  /** A purchase outside a running period takes exactly the price from the wallet, or is refused for want of it. */
  lemma BuyingTakesThePrice(prices: Prices, a: Account, now: int, target: Subscription.Target)
    requires AccountInv(prices, a) && Sound(a.wallet) && !a.standing.Running(now)
    ensures var r := PurchasePlan(a, now, target);
      && (PurchaseVerdict(a, now, target).Bought? ==>
            r.wallet.balance == a.wallet.balance - target.price && r.wallet.balance >= 0)
      && (!PurchaseVerdict(a, now, target).Bought? ==> r.wallet == a.wallet)
      && (PurchaseVerdict(a, now, target).Insufficient? ==> a.wallet.balance < target.price)
  {
    SubscriptionTheorems.FullPriceOutsidePeriod(a.standing, now, target);
    SubscriptionTheorems.BoughtIff(a.standing, now, target, a.wallet.balance);
    if target.price > 0 { PurchaseNeverClashes(prices, a, target.price); }
  }

  /** An accepted purchase is on the bill of the month it is made in, at its amount. */
  lemma PurchaseOnItsMonth(prices: Prices, a: Account, now: int, target: Subscription.Target)
    requires AccountInv(prices, a) && PurchaseVerdict(a, now, target).Bought?
    ensures PurchasePlan(a, now, target).items
         == a.items + [Item(MonthOf(now), FromPurchase(|a.standing.purchases|), Row(a, now, target).amount)]
  {
    if Row(a, now, target).amount > 0 { PurchaseNeverClashes(prices, a, Row(a, now, target).amount); }
  }

  /** A new account holds the initial grant, if there is one, as its first entry, and nothing else. */
  lemma OpenedHolds(initial: int)
    requires 0 <= initial <= MAX_INT64
    ensures Opened(initial).wallet.balance == initial
    ensures Opened(initial).wallet.entries == if initial == 0 then [] else [Entry(Bonus, InitialRef, initial, initial)]
    ensures Opened(initial) == Opened(0).(wallet := Opened(initial).wallet)
  {
  }

  // ---------------------------------------------------------------- the month of a charge

  /** Each charge is on the bill of the month its window starts in. */
  ghost predicate OnTheirMonths(items: seq<Item>, charges: seq<Charge>) {
    forall k :: 0 <= k < |items| && items[k].source.FromCharge? ==>
      items[k].source.charge < |charges| && items[k].month == MonthOf(charges[items[k].source.charge].slot.start)
  }

  lemma BilledOnItsMonth(prices: Prices, a: Account, i: nat, now: int)
    requires OnTheirMonths(a.items, a.charges)
    ensures OnTheirMonths(BillUsage(prices, a, i, now).items, BillUsage(prices, a, i, now).charges)
  {
  }

  lemma StepKeepsMonths(prices: Prices, a: Account, e: Event)
    requires OnTheirMonths(a.items, a.charges)
    ensures OnTheirMonths(Apply(prices, a, e).items, Apply(prices, a, e).charges)
  {
    if e.UsageBilled? { BilledOnItsMonth(prices, a, e.row, e.now); }
  }

  /** In every run, whenever the charge was made. */
  lemma {:induction false} ChargesOnTheirMonths(prices: Prices, initial: int, events: seq<Event>)
    ensures var r := Run(prices, Opened(initial), events); OnTheirMonths(r.items, r.charges)
  {
    if events != [] {
      ChargesOnTheirMonths(prices, initial, events[..|events| - 1]);
      StepKeepsMonths(prices, Run(prices, Opened(initial), events[..|events| - 1]), events[|events| - 1]);
    }
  }

  // ---------------------------------------------------------------- what a grant is worth

  predicate CountsAt(expires: Option<int>, t: int) {
    expires.None? || t < expires.value
  }

  /** A new grant raises the credit by its amount at every time before the expiry asked for, and by nothing
      from then on. */
  lemma GrantCountsUntilExpiry(a: Account, now: int, ref: string, amount: int, expires: Option<int>, id: nat,
                               note: string, t: int)
    requires GrantVerdict(a, now, ref, amount, expires, note).Done?
    ensures CreditOf(GrantCredit(a, now, ref, amount, expires, id, note), t)
         == CreditOf(a, t) + if CountsAt(expires, t) then amount else 0
    ensures CountsAt(expires, now)
  {
    var grants := GrantCredit(a, now, ref, amount, expires, id, note).grants;
    AvailableIsLiveSum(a.grants, t);
    AvailableIsLiveSum(grants, t);
    assert grants[..|a.grants|] == a.grants;
  }

  /** Credit is granted exactly for a well-formed request whose reference is new, and the grant holds what was
      asked for, all of it still to be spent. */
  lemma GrantedIff(a: Account, now: int, ref: string, amount: int, expires: Option<int>, id: nat, note: string)
    ensures GrantVerdict(a, now, ref, amount, expires, note).Done? <==>
      WellFormedGrant(now, ref, amount, expires, note) && forall i :: 0 <= i < |a.grants| ==> a.grants[i].ref != ref
    ensures GrantCredit(a, now, ref, amount, expires, id, note) ==
      if GrantVerdict(a, now, ref, amount, expires, note).Done?
      then a.(grants := a.grants + [Grant(ref, amount, amount, expires, now, id, note)]) else a
  {
  }

  /** Same reference, amount, expiry and note. */
  predicate SameGrant(g: Grant, ref: string, amount: int, expires: Option<int>, note: string) {
    g.ref == ref && g.amount == amount && g.expires == expires && g.note == note
  }

  /** Grants stay where they are, each with its terms. */
  predicate TermsStay(a: Account, b: Account) {
    && |a.grants| <= |b.grants|
    && forall i :: 0 <= i < |a.grants| ==>
         SameGrant(b.grants[i], a.grants[i].ref, a.grants[i].amount, a.grants[i].expires, a.grants[i].note)
  }

  predicate RefsDiffer(grants: seq<Grant>) {
    forall i, j :: 0 <= i < j < |grants| ==> grants[i].ref != grants[j].ref
  }

  lemma BillingKeepsTerms(prices: Prices, a: Account, i: nat, now: int)
    ensures TermsStay(a, BillUsage(prices, a, i, now)) && |BillUsage(prices, a, i, now).grants| == |a.grants|
  {
    if BillingOutcome(prices, a, i, now).Settled? {
      var amount := Price(prices[a.usage[i].price.value], a.usage[i].quantity);
      var order := CreditQuery(a.grants, now);
      var used := Lesser(amount, Available(a.grants, order));
      SpendKeepsOthers(Spending(a.grants, a.consumptions), order, used, |a.charges|);
    }
  }

  lemma StepKeepsTerms(prices: Prices, a: Account, e: Event)
    requires RefsDiffer(a.grants)
    ensures TermsStay(a, Apply(prices, a, e)) && RefsDiffer(Apply(prices, a, e).grants)
  {
    if e.UsageBilled? { BillingKeepsTerms(prices, a, e.row, e.now); }
  }

  lemma {:induction false} RunKeepsTerms(prices: Prices, a: Account, events: seq<Event>)
    requires RefsDiffer(a.grants)
    ensures TermsStay(a, Run(prices, a, events)) && RefsDiffer(Run(prices, a, events).grants)
  {
    if events != [] {
      RunKeepsTerms(prices, a, events[..|events| - 1]);
      StepKeepsTerms(prices, Run(prices, a, events[..|events| - 1]), events[|events| - 1]);
    }
  }

  predicate WellFormedGrant(now: int, ref: string, amount: int, expires: Option<int>, note: string) {
    && 0 < amount <= 1_000_000_000_000 && ref != "" && |ref| <= 128 && !("subscription-credit/" <= ref) && |note| <= 500
    && CountsAt(expires, now)
  }

  lemma VerdictOnKnown(a: Account, i: nat, now: int, amount: int, expires: Option<int>, note: string)
    requires RefsDiffer(a.grants) && i < |a.grants| && WellFormedGrant(now, a.grants[i].ref, amount, expires, note)
    ensures GrantVerdict(a, now, a.grants[i].ref, amount, expires, note)
         == if SameGrant(a.grants[i], a.grants[i].ref, amount, expires, note) then Replayed else Conflict
  {
  }

  /** A grant in an account answers every later request for its reference: the same terms are a replay and
      others a conflict, whatever was spent or granted in between, and neither changes anything. */
  lemma GrantReplays(prices: Prices, initial: int, before: seq<Event>, after: seq<Event>, i: nat,
                     now: int, amount: int, expires: Option<int>, id: nat, note: string)
    requires i < |Run(prices, Opened(initial), before).grants|
    requires var g := Run(prices, Opened(initial), before).grants[i]; WellFormedGrant(now, g.ref, amount, expires, note)
    ensures var g := Run(prices, Opened(initial), before).grants[i];
      var b := Run(prices, Run(prices, Opened(initial), before), after);
      && GrantVerdict(b, now, g.ref, amount, expires, note)
         == (if SameGrant(g, g.ref, amount, expires, note) then Replayed else Conflict)
      && GrantCredit(b, now, g.ref, amount, expires, id, note) == b
  {
    RunKeepsTerms(prices, Opened(initial), before);
    var a := Run(prices, Opened(initial), before);
    RunKeepsTerms(prices, a, after);
    VerdictOnKnown(Run(prices, a, after), i, now, amount, expires, note);
  }

  // ---------------------------------------------------------------- repeating an adjustment

  lemma {:induction false} RecordedOnce(entries: seq<Entry>, i: nat)
    requires Chained(entries) && i < |entries|
    ensures Used(entries, entries[i].kind, entries[i].ref)
    ensures Recorded(entries, entries[i].kind, entries[i].ref) == entries[i].amount
  {
    var front, e := entries[..|entries| - 1], entries[|entries| - 1];
    if i < |front| {
      RecordedOnce(front, i);
      RefsUnique(entries, i, |front|);
    } else {
      UnusedIsEmpty(front, e.kind, e.ref);
    }
  }

  /** A recorded adjustment asked for again changes nothing. It is answered as a replay exactly when the
      balance would bear the amount a second time, because that is looked at first. */
  lemma AdjustmentReplays(prices: Prices, a: Account, i: nat, text: string)
    requires AccountInv(prices, a) && Sound(a.wallet) && i < |a.wallet.entries|
    requires a.wallet.entries[i].kind == Adjustment && a.wallet.entries[i].ref == TextRef(text)
    requires InInt64(a.wallet.entries[i].amount) && text != "" && |text| <= 128
    ensures var amount := a.wallet.entries[i].amount;
      && Adjust(a, amount, text) == a
      && (AdjustVerdict(a.wallet, amount, text).Replayed? <==> 0 <= a.wallet.balance + amount <= MAX_INT64)
      && (!AdjustVerdict(a.wallet, amount, text).Replayed? ==>
            AdjustVerdict(a.wallet, amount, text).InsufficientBalance?)
  {
    RecordedOnce(a.wallet.entries, i);
    NonZero(a.wallet.entries, i);
  }

  lemma {:induction false} NonZero(entries: seq<Entry>, i: nat)
    requires Chained(entries) && i < |entries|
    ensures entries[i].amount != 0
  {
    if i < |entries| - 1 { NonZero(entries[..|entries| - 1], i); }
  }

  // ---------------------------------------------------------------- when a request goes through

  /** A claimed row whose price fits is charged exactly when balance and credit together cover the price, and
      noted as refused otherwise. */
  lemma SettledIff(prices: Prices, a: Account, i: nat, now: int)
    requires AccountInv(prices, a) && Claimable(a, i, now) && a.usage[i].price.value in prices
    requires Price(prices[a.usage[i].price.value], a.usage[i].quantity) <= MAX_INT64 && a.wallet.balance >= 0
    ensures var amount := Price(prices[a.usage[i].price.value], a.usage[i].quantity);
      && (BillingOutcome(prices, a, i, now).Settled? <==> a.wallet.balance + CreditOf(a, now) >= amount)
      && (BillingOutcome(prices, a, i, now).OutOfFunds? <==> a.wallet.balance + CreditOf(a, now) < amount)
  {
    ClaimIsNew(a, i, now);
  }

  /** A refusal only leaves its note: the funds it was refused at. */
  lemma RefusalIsNoted(prices: Prices, a: Account, i: nat, now: int)
    requires BillingOutcome(prices, a, i, now).OutOfFunds?
    ensures var u := a.usage[i];
      BillUsage(prices, a, i, now) == a.(attempts := a.attempts
        + {Attempt(u.slot, u.price.value, false, a.wallet.balance, CreditOf(a, now))})
  {
  }

  /** A row is up for billing exactly while it waits, no charge of its slot is in the way, and it was not
      refused at the present balance and credit. */
  lemma ClaimableIff(a: Account, i: nat, now: int)
    ensures Claimable(a, i, now) <==>
      && i < |a.usage| && a.usage[i].disposition == Unbilled && a.usage[i].price.Some?
      && (forall j :: 0 <= j < |a.charges| && a.charges[j].slot == a.usage[i].slot ==>
            a.usage[i].slot.app.Some? && a.charges[j].price != a.usage[i].price.value)
      && (forall t | t in a.attempts && t.slot == a.usage[i].slot && !t.paid ::
            t.balance != a.wallet.balance || t.credit != CreditOf(a, now))
  {
  }

  /** An adjustment goes through exactly when it is well formed, its reference is new, and the balance stays
      between zero and the largest int64. */
  lemma AdjustedIff(a: Account, amount: int, text: string)
    requires Sound(a.wallet)
    ensures AdjustVerdict(a.wallet, amount, text).Done? <==>
      && InInt64(amount) && amount != 0 && 1 <= |text| <= 128
      && !Used(a.wallet.entries, Adjustment, TextRef(text)) && 0 <= a.wallet.balance + amount <= MAX_INT64
    ensures AdjustVerdict(a.wallet, amount, text).Done? ==>
      Adjust(a, amount, text) == a.(wallet := Wallet(a.wallet.balance + amount,
        a.wallet.entries + [Entry(Adjustment, TextRef(text), amount, a.wallet.balance + amount)]))
  {
  }

  /** A check-in pays its reward exactly when check-ins are on, it is the first of the day, and the reward is
      within the bounds of the settings. */
  lemma CheckedInIff(prices: Prices, a: Account, settings: CheckinSettings, day: int, reward: int)
    requires AccountInv(prices, a) && settings.Valid()
    ensures CheckinVerdict(a, settings, day, reward).Done? <==>
      settings.enabled && day !in a.checkins && settings.minimum <= reward <= settings.maximum
    ensures CheckinVerdict(a, settings, day, reward).Done? ==>
      day in CheckIn(a, settings, day, reward).checkins && CheckIn(a, settings, day, reward).checkins[day] == reward
    ensures !CheckinVerdict(a, settings, day, reward).Done? ==> CheckIn(a, settings, day, reward) == a
  {
    if day !in a.checkins && Used(a.wallet.entries, CheckinReward, DayRef(day)) {
      assert false;
    }
  }

  /** The quantity that waits or was billed under a slot and price. */
  function QuantityOf(usage: seq<Usage>, slot: Slot, price: Option<PriceId>): nat {
    if usage == [] then 0 else
      var u := usage[|usage| - 1];
      QuantityOf(usage[..|usage| - 1], slot, price) + if u.slot == slot && u.price == price then u.quantity else 0
  }

  predicate WaitsUnder(usage: seq<Usage>, slot: Slot, price: Option<PriceId>) {
    exists i :: 0 <= i < |usage| && usage[i].slot == slot && usage[i].price == price && usage[i].disposition == Unbilled
  }

  lemma {:induction false} NoQuantity(usage: seq<Usage>, slot: Slot, price: Option<PriceId>)
    requires forall i :: 0 <= i < |usage| ==> usage[i].slot != slot || usage[i].price != price
    ensures QuantityOf(usage, slot, price) == 0
  {
    if usage != [] { NoQuantity(usage[..|usage| - 1], slot, price); }
  }

  lemma {:induction false} QuantityAt(usage: seq<Usage>, i: nat)
    requires UsageDistinct(usage) && i < |usage|
    ensures QuantityOf(usage, usage[i].slot, usage[i].price) == usage[i].quantity
  {
    var front := usage[..|usage| - 1];
    if i < |front| {
      QuantityAt(front, i);
    } else {
      NoQuantity(front, usage[i].slot, usage[i].price);
    }
  }

  /** A group adds its quantity under its slot and price, on the row that waits there or on a new one, and
      nothing when the row there is settled. */
  lemma AggregateAdds(a: Account, slot: Slot, price: Option<PriceId>, quantity: nat)
    requires UsageDistinct(a.usage)
    ensures var usage := Aggregate(a, slot, price, quantity).usage;
      QuantityOf(usage, slot, price) == QuantityOf(a.usage, slot, price)
        + if WaitsUnder(a.usage, slot, price) || !HasUsage(a.usage, slot, price) then quantity else 0
  {
    var b := Aggregate(a, slot, price, quantity);
    AggregateKeepsDistinct(a, slot, price, quantity);
    if HasUsage(a.usage, slot, price) {
      var i :| 0 <= i < |a.usage| && a.usage[i].slot == slot && a.usage[i].price == price;
      QuantityAt(a.usage, i);
      QuantityAt(b.usage, i);
    } else {
      NoQuantity(a.usage, slot, price);
      QuantityAt(b.usage, |a.usage|);
    }
  }
}
