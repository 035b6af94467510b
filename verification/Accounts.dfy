/** The money side of one account: the rows its wallet writers touch, one transaction at a time. */
module Accounts {
  import opened Domain
  import opened Calendar
  import opened Ledger
  import opened Credits
  import Subscription

  type PriceId = nat
  type Month = (int, int)

  // ---------------------------------------------------------------- prices

  datatype Rounding = Up | Down | HalfUp

  /** Quantities are in units of 10^-12, prices in millionths of a cent per unit. */
  datatype Pricing = Pricing(unitMicros: nat, rounding: Rounding, minimum: int, free: int)

  const SCALE: int := 1_000_000_000_000_000_000

  function Billable(p: Pricing, quantity: nat): nat {
    var over := if quantity - p.free > 0 then quantity - p.free else 0;
    if p.minimum > over then p.minimum else over
  }

  /** `cents` is the whole number the mode takes for an exact charge of `exact` / SCALE cents. */
  predicate RoundsTo(mode: Rounding, exact: nat, cents: nat) {
    match mode
    case Up => exact <= cents * SCALE < exact + SCALE
    case Down => exact - SCALE < cents * SCALE <= exact
    case HalfUp => exact - SCALE / 2 < cents * SCALE <= exact + SCALE / 2
  }

  function Rounded(mode: Rounding, exact: nat): (cents: nat)
    ensures RoundsTo(mode, exact, cents)
    ensures exact == 0 ==> cents == 0
  {
    match mode
    case Up => (exact + SCALE - 1) / SCALE
    case Down => exact / SCALE
    case HalfUp => (exact + SCALE / 2) / SCALE
  }

  /** The charge in cents: nothing up to the free quantity, then what is beyond it, and in any case the
      minimum, rounded the way the price version says. */
  function Price(p: Pricing, quantity: nat): (cents: nat)
    ensures quantity <= p.free && p.minimum <= 0 ==> cents == 0
    ensures quantity >= p.free && quantity - p.free >= p.minimum ==>
      RoundsTo(p.rounding, (quantity - p.free) * p.unitMicros, cents)
    ensures p.minimum >= 0 && p.minimum >= quantity - p.free ==>
      RoundsTo(p.rounding, p.minimum * p.unitMicros, cents)
  {
    Rounded(p.rounding, Billable(p, quantity) * p.unitMicros)
  }

  // ---------------------------------------------------------------- rows

  datatype Slot = Slot(code: nat, app: Option<nat>, start: int, end: int)

  datatype Disposition = Unbilled | Charged | Unpriced

  datatype Usage = Usage(slot: Slot, price: Option<PriceId>, quantity: nat, disposition: Disposition)

  datatype Attempt = Attempt(slot: Slot, price: PriceId, paid: bool, balance: int, credit: nat)

  datatype Charge = Charge(slot: Slot, price: PriceId, quantity: nat, amount: nat)

  datatype Source = FromCharge(charge: nat) | FromPurchase(purchase: nat)

  datatype Item = Item(month: Month, source: Source, amount: int)

  datatype Account = Account(
    wallet: Wallet,
    grants: seq<Grant>, consumptions: seq<Consumption>,
    usage: seq<Usage>, attempts: set<Attempt>, charges: seq<Charge>,
    bills: map<Month, int>, items: seq<Item>,
    standing: Subscription.Standing,
    checkins: map<int, int>)

  type Prices = map<PriceId, Pricing>

  function Key(slot: Slot, price: PriceId): Ref {
    UsageRef(slot.code, slot.app, price, slot.start, slot.end)
  }

  function ChargeRef(c: Charge): Ref {
    Key(c.slot, c.price)
  }

  function BillTotal(bills: map<Month, int>, month: Month): int {
    if month in bills then bills[month] else 0
  }

  /** The bill of the month, created when missing, grows by the item. */
  function AddItem(a: Account, month: Month, source: Source, amount: int): Account {
    a.(bills := a.bills[month := BillTotal(a.bills, month) + amount], items := a.items + [Item(month, source, amount)])
  }

  // ---------------------------------------------------------------- usage

  predicate HasUsage(usage: seq<Usage>, slot: Slot, price: Option<PriceId>) {
    exists i :: 0 <= i < |usage| && usage[i].slot == slot && usage[i].price == price
  }

  /** A group written by aggregateUsage; a row that is no longer pending does not grow. */
  function Aggregate(a: Account, slot: Slot, price: Option<PriceId>, quantity: nat): Account {
    if HasUsage(a.usage, slot, price) then
      a.(usage := seq(|a.usage|, i requires 0 <= i < |a.usage| =>
          if a.usage[i].slot == slot && a.usage[i].price == price && a.usage[i].disposition == Unbilled
          then a.usage[i].(quantity := a.usage[i].quantity + quantity) else a.usage[i]))
    else
      a.(usage := a.usage + [Usage(slot, price, quantity, if price.None? then Unpriced else Unbilled)])
  }

  predicate ChargeBlocks(c: Charge, u: Usage) {
    c.slot == u.slot && (u.slot.app.None? || Some(c.price) == u.price)
  }

  predicate Refused(attempts: set<Attempt>, slot: Slot, balance: int, credit: nat) {
    exists t :: t in attempts && t.slot == slot && !t.paid && t.balance == balance && t.credit == credit
  }

  function CreditOf(a: Account, now: int): nat {
    Available(a.grants, CreditQuery(a.grants, now))
  }

  /** The rows billUsage can claim. */
  predicate Claimable(a: Account, i: nat, now: int) {
    && i < |a.usage| && a.usage[i].disposition == Unbilled && a.usage[i].price.Some?
    && (forall j :: 0 <= j < |a.charges| ==> !ChargeBlocks(a.charges[j], a.usage[i]))
    && !Refused(a.attempts, a.usage[i].slot, a.wallet.balance, CreditOf(a, now))
  }

  datatype Billing = Idle | Rejected | OutOfFunds | Settled

  /** What one call of billUsage does with row `i`. */
  function BillingOutcome(prices: Prices, a: Account, i: nat, now: int): Billing {
    if !Claimable(a, i, now) then Idle
    else if a.usage[i].price.value !in prices then Idle
    else
      var u := a.usage[i];
      var amount := Price(prices[u.price.value], u.quantity);
      var walletCharge := amount - Lesser(amount, CreditOf(a, now));
      if amount > MAX_INT64 then Rejected
      else if a.wallet.balance < walletCharge then OutOfFunds
      else if walletCharge > 0 && !Insertable(a.wallet, UsageFee, Key(u.slot, u.price.value), -walletCharge)
      then Rejected
      else Settled
  }

  function Debit(w: Wallet, kind: Kind, ref: Ref, amount: int): Wallet {
    if amount == 0 then w else Store(w, kind, ref, -amount)
  }

  /** The wallet, charge and credit rows of a paid usage. */
  function Settle(a: Account, i: nat, amount: nat, now: int): Account
    requires i < |a.usage| && a.usage[i].price.Some?
  {
    var u := a.usage[i];
    var order := CreditQuery(a.grants, now);
    var creditUsed := Lesser(amount, Available(a.grants, order));
    var spent := SpendCredit(Spending(a.grants, a.consumptions), order, creditUsed, |a.charges|);
    var wallet := Debit(a.wallet, UsageFee, Key(u.slot, u.price.value), amount - creditUsed);
    a.(wallet := wallet,
       charges := a.charges + [Charge(u.slot, u.price.value, u.quantity, amount)],
       grants := spent.grants, consumptions := spent.consumptions,
       usage := a.usage[i := u.(disposition := Charged)],
       attempts := a.attempts + {Attempt(u.slot, u.price.value, true, wallet.balance, CreditOf(a, now) - creditUsed)})
  }

  ghost function BillUsage(prices: Prices, a: Account, i: nat, now: int): Account {
    match BillingOutcome(prices, a, i, now)
    case OutOfFunds =>
      var u := a.usage[i];
      a.(attempts := a.attempts + {Attempt(u.slot, u.price.value, false, a.wallet.balance, CreditOf(a, now))})
    case Settled =>
      var u := a.usage[i];
      var amount := Price(prices[u.price.value], u.quantity);
      AddItem(Settle(a, i, amount, now), MonthOf(u.slot.start), FromCharge(|a.charges|), amount)
    case _ => a
  }

  // ---------------------------------------------------------------- the other writers

  datatype Verdict = Done | Replayed | Conflict | Invalid | InsufficientBalance | Disabled | Refusal | DatabaseError

  predicate InInt64(x: int) {
    -MAX_INT64 - 1 <= x <= MAX_INT64
  }

  function AdjustVerdict(w: Wallet, amount: int, text: string): Verdict {
    if !InInt64(amount) || amount == 0 || text == "" || |text| > 128 then Invalid
    else if Wrap(w.balance + amount) < 0 then InsufficientBalance
    else if Used(w.entries, Adjustment, TextRef(text)) then
      if Recorded(w.entries, Adjustment, TextRef(text)) != amount then Conflict else Replayed
    else Done
  }

  function Adjust(a: Account, amount: int, text: string): Account {
    if AdjustVerdict(a.wallet, amount, text).Done?
    then a.(wallet := Store(a.wallet, Adjustment, TextRef(text), amount)) else a
  }

  /** The switch and the reward drawn between the configured bounds. */
  datatype CheckinSettings = CheckinSettings(enabled: bool, minimum: int, maximum: int)
  {
    predicate Valid() {
      1 <= minimum <= maximum <= 10_000
    }
  }

  function CheckinVerdict(a: Account, settings: CheckinSettings, day: int, reward: int): Verdict {
    if !settings.enabled then Disabled
    else if day in a.checkins then Replayed
    else if !settings.Valid() || !(settings.minimum <= reward <= settings.maximum) then Invalid
    else if !Insertable(a.wallet, CheckinReward, DayRef(day), reward) then DatabaseError
    else Done
  }

  /** performCheckin stores the balance Go computed, wrapped or not. */
  function CheckIn(a: Account, settings: CheckinSettings, day: int, reward: int): Account {
    if CheckinVerdict(a, settings, day, reward).Done? then
      a.(wallet := Store(a.wallet, CheckinReward, DayRef(day), reward), checkins := a.checkins[day := reward])
    else a
  }

  function GrantVerdict(a: Account, now: int, ref: string, amount: int, expires: Option<int>, note: string): Verdict {
    if amount <= 0 || amount > 1_000_000_000_000 || ref == "" || |ref| > 128 || "subscription-credit/" <= ref
       || |note| > 500 then Invalid
    else if expires.Some? && expires.value <= now then Invalid
    else if exists i :: 0 <= i < |a.grants| && a.grants[i].ref == ref then
      if exists i :: 0 <= i < |a.grants| && a.grants[i].ref == ref
                     && (a.grants[i].amount != amount || a.grants[i].note != note || a.grants[i].expires != expires)
      then Conflict else Replayed
    else Done
  }

  function GrantCredit(a: Account, now: int, ref: string, amount: int, expires: Option<int>, id: nat,
                       note: string): Account {
    if GrantVerdict(a, now, ref, amount, expires, note).Done?
    then a.(grants := a.grants + [Grant(ref, amount, amount, expires, now, id, note)]) else a
  }

  ghost function PurchaseVerdict(a: Account, now: int, target: Subscription.Target): Subscription.Verdict {
    Subscription.Decide(a.standing, now, target, a.wallet.balance)
  }

  ghost function PurchasePlan(a: Account, now: int, target: Subscription.Target): Account {
    var verdict := PurchaseVerdict(a, now, target);
    var amount := Subscription.Charge(a.standing, now, target);
    var k := |a.standing.purchases|;
    var after := a.(standing := Subscription.After(a.standing, now, target, verdict));
    if !verdict.Bought? then after
    else if amount > 0 && !Insertable(a.wallet, Fee, PurchaseRef(k), -amount) then a
    else AddItem(after.(wallet := Debit(a.wallet, Fee, PurchaseRef(k), amount)), MonthOf(now), FromPurchase(k), amount)
  }

  function CreditWallet(a: Account, kind: Kind, ref: Ref, amount: int): Account {
    var w := Add(a.wallet, kind, ref, amount);
    if w.Some? then a.(wallet := w.value) else a
  }

  predicate Refundable(a: Account, order: OrderId, amount: int) {
    amount > 0 && a.wallet.balance >= amount && Insertable(a.wallet, Refund, OrderRef(order), -amount)
  }

  function DebitRefund(a: Account, order: OrderId, amount: int): Account {
    if Refundable(a, order, amount) then a.(wallet := Store(a.wallet, Refund, OrderRef(order), -amount)) else a
  }

  // ---------------------------------------------------------------- runs

  datatype Event =
    | UsageAggregated(slot: Slot, price: Option<PriceId>, quantity: nat)
    | UsageBilled(row: nat, now: int)
    | WalletAdjusted(amount: int, text: string)
    | CheckedIn(settings: CheckinSettings, day: int, reward: int)
    | CreditGranted(now: int, ref: string, amount: int, expires: Option<int>, id: nat, note: string)
    | PlanPurchased(now: int, target: Subscription.Target)
    | OrderPaid(order: OrderId, amount: int)
    | OrderRefunded(order: OrderId, amount: int)
    | InviteRewarded(invite: InviteId, amount: int)

  ghost function Apply(prices: Prices, a: Account, e: Event): Account {
    match e
    case UsageAggregated(slot, price, quantity) => Aggregate(a, slot, price, quantity)
    case UsageBilled(row, now) => BillUsage(prices, a, row, now)
    case WalletAdjusted(amount, text) => Adjust(a, amount, text)
    case CheckedIn(settings, day, reward) => CheckIn(a, settings, day, reward)
    case CreditGranted(now, ref, amount, expires, id, note) => GrantCredit(a, now, ref, amount, expires, id, note)
    case PlanPurchased(now, target) => PurchasePlan(a, now, target)
    case OrderPaid(order, amount) => CreditWallet(a, Topup, OrderRef(order), amount)
    case OrderRefunded(order, amount) => DebitRefund(a, order, amount)
    case InviteRewarded(invite, amount) => CreditWallet(a, Bonus, InviteRef(invite), amount)
  }

  ghost function Run(prices: Prices, a: Account, events: seq<Event>): Account {
    if events == [] then a
    else Apply(prices, Run(prices, a, events[..|events| - 1]), events[|events| - 1])
  }

  /** A new account, with the initial wallet grant when one is configured. */
  function Opened(initial: int): Account {
    var empty := Wallet(0, []);
    Account(if 0 < initial <= MAX_INT64 then Store(empty, Bonus, InitialRef, initial) else empty,
            [], [], [], {}, [], map[], [], Subscription.Standing(None, []), map[])
  }
}
