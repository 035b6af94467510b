/** What every run of the wallet writers keeps. */
module AccountsInvariant {
  import opened Domain
  import opened Calendar
  import opened Ledger
  import opened Credits
  import opened Accounts
  import Subscription

  // ---------------------------------------------------------------- the parts

  predicate CreditInv(grants: seq<Grant>, consumptions: seq<Consumption>, charges: nat) {
    && GrantsBalance(Spending(grants, consumptions))
    && forall k :: 0 <= k < |consumptions| ==> consumptions[k].charge < charges
  }

  predicate Charges(charges: seq<Charge>, ref: Ref) {
    exists j :: 0 <= j < |charges| && ChargeRef(charges[j]) == ref
  }

  /** Each charge is its wallet debit plus its credit consumptions, and no other usage debit exists. */
  predicate ChargesPaid(entries: seq<Entry>, consumptions: seq<Consumption>, charges: seq<Charge>) {
    && (forall j :: 0 <= j < |charges| ==>
          charges[j].amount == ConsumedBy(consumptions, j) - Recorded(entries, UsageFee, ChargeRef(charges[j])))
    && (forall i :: 0 <= i < |entries| && entries[i].kind == UsageFee ==> Charges(charges, entries[i].ref))
  }

  predicate ChargesDistinct(charges: seq<Charge>) {
    forall j, k :: 0 <= j < k < |charges| ==> ChargeRef(charges[j]) != ChargeRef(charges[k])
  }

  predicate ChargesPriced(prices: Prices, charges: seq<Charge>) {
    forall j :: 0 <= j < |charges| ==>
      charges[j].price in prices && charges[j].amount == Price(prices[charges[j].price], charges[j].quantity)
  }

  predicate UsageDistinct(usage: seq<Usage>) {
    && (forall i, j :: 0 <= i < j < |usage| ==> usage[i].slot != usage[j].slot || usage[i].price != usage[j].price)
    && (forall i :: 0 <= i < |usage| ==> (usage[i].price.None? <==> usage[i].disposition == Unpriced))
  }

  predicate ChargedAs(u: Usage, c: Charge) {
    u.slot == c.slot && u.price == Some(c.price) && u.quantity == c.quantity && u.disposition == Charged
  }

  /** A row is charged exactly when there is a charge for it, at its final quantity. */
  predicate UsageCharged(usage: seq<Usage>, charges: seq<Charge>) {
    && (forall j :: 0 <= j < |charges| ==> HasRow(usage, charges[j]))
    && (forall i :: 0 <= i < |usage| && usage[i].disposition == Charged ==> HasCharge(usage[i], charges))
  }

  predicate HasRow(usage: seq<Usage>, c: Charge) {
    exists i :: 0 <= i < |usage| && ChargedAs(usage[i], c)
  }

  predicate HasCharge(u: Usage, charges: seq<Charge>) {
    exists j :: 0 <= j < |charges| && ChargedAs(u, charges[j])
  }

  function ItemsTotal(items: seq<Item>, month: Month): int {
    if items == [] then 0 else
      var t := items[|items| - 1];
      ItemsTotal(items[..|items| - 1], month) + if t.month == month then t.amount else 0
  }

  function Itemised(items: seq<Item>, source: Source): int {
    if items == [] then 0 else
      var t := items[|items| - 1];
      Itemised(items[..|items| - 1], source) + if t.source == source then t.amount else 0
  }

  function ItemCount(items: seq<Item>, source: Source): nat {
    if items == [] then 0 else
      var t := items[|items| - 1];
      ItemCount(items[..|items| - 1], source) + if t.source == source then 1 else 0
  }

  ghost predicate BillsMatch(bills: map<Month, int>, items: seq<Item>) {
    forall month: Month :: BillTotal(bills, month) == ItemsTotal(items, month)
  }

  /** Every charge is on exactly one bill, at its amount. */
  predicate ChargesItemised(items: seq<Item>, charges: seq<Charge>) {
    && (forall j: nat :: j < |charges| ==>
          ItemCount(items, FromCharge(j)) == 1 && Itemised(items, FromCharge(j)) == charges[j].amount)
    && (forall k :: 0 <= k < |items| && items[k].source.FromCharge? ==> items[k].source.charge < |charges|)
  }

  function Fee(p: Subscription.Purchase): int {
    if p.succeeded then p.amount else 0
  }

  /** Every succeeded purchase is on exactly one bill, at its amount. */
  predicate PurchasesItemised(items: seq<Item>, purchases: seq<Subscription.Purchase>) {
    && (forall k: nat :: k < |purchases| ==>
          && ItemCount(items, FromPurchase(k)) == (if purchases[k].succeeded then 1 else 0)
          && Itemised(items, FromPurchase(k)) == Fee(purchases[k]))
    && (forall k :: 0 <= k < |items| && items[k].source.FromPurchase? ==> items[k].source.purchase < |purchases|)
  }

  predicate FeesPaid(entries: seq<Entry>, purchases: seq<Subscription.Purchase>) {
    && (forall k: nat :: k < |purchases| ==> Recorded(entries, Kind.Fee, PurchaseRef(k)) == -Fee(purchases[k]))
    && (forall i :: 0 <= i < |entries| && entries[i].kind == Kind.Fee ==>
          entries[i].ref.PurchaseRef? && entries[i].ref.purchase < |purchases|)
  }

  predicate CheckinsPaid(entries: seq<Entry>, checkins: map<int, int>) {
    && (forall day :: day in checkins ==> Recorded(entries, CheckinReward, DayRef(day)) == checkins[day])
    && (forall i :: 0 <= i < |entries| && entries[i].kind == CheckinReward ==>
          entries[i].ref.DayRef? && entries[i].ref.day in checkins)
  }

  ghost predicate AccountInv(prices: Prices, a: Account) {
    && WalletInv(a.wallet)
    && CreditInv(a.grants, a.consumptions, |a.charges|)
    && ChargesPaid(a.wallet.entries, a.consumptions, a.charges)
    && ChargesDistinct(a.charges)
    && ChargesPriced(prices, a.charges)
    && UsageDistinct(a.usage)
    && UsageCharged(a.usage, a.charges)
    && BillsMatch(a.bills, a.items)
    && ChargesItemised(a.items, a.charges)
    && PurchasesItemised(a.items, a.standing.purchases)
    && FeesPaid(a.wallet.entries, a.standing.purchases)
    && CheckinsPaid(a.wallet.entries, a.checkins)
  }

  // ---------------------------------------------------------------- postings

  lemma PostingElsewhere(a: Account, e: Entry)
    ensures var entries := a.wallet.entries + [e];
      && (e.kind != UsageFee && ChargesPaid(a.wallet.entries, a.consumptions, a.charges) ==>
            ChargesPaid(entries, a.consumptions, a.charges))
      && (e.kind != Kind.Fee && FeesPaid(a.wallet.entries, a.standing.purchases) ==>
            FeesPaid(entries, a.standing.purchases))
      && (e.kind != CheckinReward && CheckinsPaid(a.wallet.entries, a.checkins) ==> CheckinsPaid(entries, a.checkins))
  {
    forall kind, ref | kind != e.kind
      ensures Recorded(a.wallet.entries + [e], kind, ref) == Recorded(a.wallet.entries, kind, ref)
    {
      Appended(a.wallet.entries, e, kind, ref);
    }
  }

  /** Only the wallet, the check-ins, the purchases and the bills differ. */
  lemma RowsReplaced(prices: Prices, a: Account, r: Account)
    requires AccountInv(prices, a)
    requires r == a.(wallet := r.wallet, checkins := r.checkins, standing := r.standing,
                     bills := r.bills, items := r.items)
    requires WalletInv(r.wallet) && ChargesPaid(r.wallet.entries, a.consumptions, a.charges)
    requires FeesPaid(r.wallet.entries, r.standing.purchases) && CheckinsPaid(r.wallet.entries, r.checkins)
    requires BillsMatch(r.bills, r.items) && ChargesItemised(r.items, a.charges)
    requires PurchasesItemised(r.items, r.standing.purchases)
    ensures AccountInv(prices, r)
  {
  }

  lemma PostingKeeps(prices: Prices, a: Account, kind: Kind, ref: Ref, amount: int)
    requires AccountInv(prices, a) && Insertable(a.wallet, kind, ref, amount)
    requires kind != UsageFee && kind != Kind.Fee && kind != CheckinReward
    ensures AccountInv(prices, a.(wallet := Store(a.wallet, kind, ref, amount)))
  {
    StoreKeeps(a.wallet, kind, ref, amount);
    PostingElsewhere(a, Entry(kind, ref, amount, Wrap(a.wallet.balance + amount)));
    RowsReplaced(prices, a, a.(wallet := Store(a.wallet, kind, ref, amount)));
  }

  lemma CreditedKeeps(prices: Prices, a: Account, kind: Kind, ref: Ref, amount: int)
    requires AccountInv(prices, a) && kind != UsageFee && kind != Kind.Fee && kind != CheckinReward
    ensures AccountInv(prices, CreditWallet(a, kind, ref, amount))
  {
    if Add(a.wallet, kind, ref, amount).Some? {
      AddIsStore(a.wallet, kind, ref, amount);
      PostingKeeps(prices, a, kind, ref, amount);
    }
  }

  lemma RefundedKeeps(prices: Prices, a: Account, order: OrderId, amount: int)
    requires AccountInv(prices, a)
    ensures AccountInv(prices, DebitRefund(a, order, amount))
  {
    if Refundable(a, order, amount) { PostingKeeps(prices, a, Refund, OrderRef(order), -amount); }
  }

  lemma AdjustKeeps(prices: Prices, a: Account, amount: int, text: string)
    requires AccountInv(prices, a)
    ensures AccountInv(prices, Adjust(a, amount, text))
  {
    if AdjustVerdict(a.wallet, amount, text).Done? { PostingKeeps(prices, a, Adjustment, TextRef(text), amount); }
  }

  lemma RewardPosted(entries: seq<Entry>, checkins: map<int, int>, day: int, e: Entry)
    requires CheckinsPaid(entries, checkins) && day !in checkins
    requires e.kind == CheckinReward && e.ref == DayRef(day) && !Used(entries, CheckinReward, DayRef(day))
    ensures CheckinsPaid(entries + [e], checkins[day := e.amount])
  {
    UnusedIsEmpty(entries, CheckinReward, DayRef(day));
    forall d | d in checkins[day := e.amount]
      ensures Recorded(entries + [e], CheckinReward, DayRef(d)) == checkins[day := e.amount][d]
    {
      Appended(entries, e, CheckinReward, DayRef(d));
    }
  }

  lemma CheckInKeeps(prices: Prices, a: Account, settings: CheckinSettings, day: int, reward: int)
    requires AccountInv(prices, a)
    ensures AccountInv(prices, CheckIn(a, settings, day, reward))
  {
    if CheckinVerdict(a, settings, day, reward).Done? {
      var e := Entry(CheckinReward, DayRef(day), reward, Wrap(a.wallet.balance + reward));
      StoreKeeps(a.wallet, CheckinReward, DayRef(day), reward);
      PostingElsewhere(a, e);
      RewardPosted(a.wallet.entries, a.checkins, day, e);
      RowsReplaced(prices, a, CheckIn(a, settings, day, reward));
    }
  }

  lemma GrantKeeps(prices: Prices, a: Account, now: int, ref: string, amount: int, expires: Option<int>, id: nat,
                   note: string)
    requires AccountInv(prices, a)
    ensures AccountInv(prices, GrantCredit(a, now, ref, amount, expires, id, note))
  {
    NothingConsumed(a.consumptions, |a.grants|);
  }

  lemma {:induction false} NothingConsumed(consumptions: seq<Consumption>, grant: nat)
    requires forall k :: 0 <= k < |consumptions| ==> consumptions[k].grant < grant
    ensures ConsumedFrom(consumptions, grant) == 0
  {
    if consumptions != [] { NothingConsumed(consumptions[..|consumptions| - 1], grant); }
  }

  // ---------------------------------------------------------------- bills

  lemma ItemAppended(items: seq<Item>, t: Item)
    ensures forall month ::
      ItemsTotal(items + [t], month) == ItemsTotal(items, month) + if t.month == month then t.amount else 0
    ensures forall source ::
      Itemised(items + [t], source) == Itemised(items, source) + if t.source == source then t.amount else 0
    ensures forall source ::
      ItemCount(items + [t], source) == ItemCount(items, source) + if t.source == source then 1 else 0
  {
    assert (items + [t])[..|items|] == items;
  }

  lemma {:induction false} NotItemised(items: seq<Item>, source: Source)
    requires forall k :: 0 <= k < |items| ==> items[k].source != source
    ensures Itemised(items, source) == 0 && ItemCount(items, source) == 0
  {
    if items != [] { NotItemised(items[..|items| - 1], source); }
  }

  lemma BillKeeps(a: Account, month: Month, source: Source, amount: int)
    requires BillsMatch(a.bills, a.items)
    ensures BillsMatch(AddItem(a, month, source, amount).bills, AddItem(a, month, source, amount).items)
  {
    ItemAppended(a.items, Item(month, source, amount));
  }

  /** The item of a new charge. */
  lemma ChargeItemKeeps(items: seq<Item>, charges: seq<Charge>, purchases: seq<Subscription.Purchase>, c: Charge,
                        month: Month)
    requires ChargesItemised(items, charges) && PurchasesItemised(items, purchases)
    ensures ChargesItemised(items + [Item(month, FromCharge(|charges|), c.amount)], charges + [c])
    ensures PurchasesItemised(items + [Item(month, FromCharge(|charges|), c.amount)], purchases)
  {
    ItemAppended(items, Item(month, FromCharge(|charges|), c.amount));
    NotItemised(items, FromCharge(|charges|));
  }

  lemma PurchaseItemKeeps(items: seq<Item>, charges: seq<Charge>, purchases: seq<Subscription.Purchase>,
                          p: Subscription.Purchase, month: Month)
    requires ChargesItemised(items, charges) && PurchasesItemised(items, purchases) && p.succeeded
    ensures ChargesItemised(items + [Item(month, FromPurchase(|purchases|), p.amount)], charges)
    ensures PurchasesItemised(items + [Item(month, FromPurchase(|purchases|), p.amount)], purchases + [p])
  {
    ItemAppended(items, Item(month, FromPurchase(|purchases|), p.amount));
    NotItemised(items, FromPurchase(|purchases|));
  }

  // ---------------------------------------------------------------- plans

  lemma FeePosted(entries: seq<Entry>, purchases: seq<Subscription.Purchase>, p: Subscription.Purchase, e: Entry)
    requires FeesPaid(entries, purchases)
    requires e.kind == Kind.Fee && e.ref == PurchaseRef(|purchases|) && e.amount == -Fee(p)
    ensures FeesPaid(entries + [e], purchases + [p])
  {
    var posted, more := entries + [e], purchases + [p];
    UnusedIsEmpty(entries, Kind.Fee, PurchaseRef(|purchases|));
    forall k: nat | k < |more| ensures Recorded(posted, Kind.Fee, PurchaseRef(k)) == -Fee(more[k]) {
      Appended(entries, e, Kind.Fee, PurchaseRef(k));
    }
    forall i | 0 <= i < |posted| && posted[i].kind == Kind.Fee
      ensures posted[i].ref.PurchaseRef? && posted[i].ref.purchase < |more|
    {
      if i < |entries| { assert posted[i] == entries[i]; }
    }
  }

  lemma FreePurchase(entries: seq<Entry>, purchases: seq<Subscription.Purchase>, p: Subscription.Purchase)
    requires FeesPaid(entries, purchases) && Fee(p) == 0
    ensures FeesPaid(entries, purchases + [p])
  {
    UnusedIsEmpty(entries, Kind.Fee, PurchaseRef(|purchases|));
  }

  lemma FailedPurchaseNotItemised(items: seq<Item>, purchases: seq<Subscription.Purchase>, p: Subscription.Purchase)
    requires PurchasesItemised(items, purchases) && !p.succeeded
    ensures PurchasesItemised(items, purchases + [p])
  {
    NotItemised(items, FromPurchase(|purchases|));
  }

  ghost function Row(a: Account, now: int, target: Subscription.Target): Subscription.Purchase {
    var q := Subscription.Quoted(a.standing, now, target);
    var bought := PurchaseVerdict(a, now, target).Bought?;
    Subscription.Purchase(target.version, target.price, q.amount, bought, q.start, q.end)
  }

  lemma FeeEntryKeeps(a: Account, p: Subscription.Purchase, e: Entry)
    requires ChargesPaid(a.wallet.entries, a.consumptions, a.charges)
    requires FeesPaid(a.wallet.entries, a.standing.purchases) && CheckinsPaid(a.wallet.entries, a.checkins)
    requires p.succeeded && e.kind == Kind.Fee && e.ref == PurchaseRef(|a.standing.purchases|) && e.amount == -p.amount
    ensures var entries := a.wallet.entries + [e];
      && ChargesPaid(entries, a.consumptions, a.charges)
      && FeesPaid(entries, a.standing.purchases + [p]) && CheckinsPaid(entries, a.checkins)
  {
    PostingElsewhere(a, e);
    FeePosted(a.wallet.entries, a.standing.purchases, p, e);
  }

  /** The wallet side of a purchase. */
  lemma FeeKeeps(a: Account, p: Subscription.Purchase)
    requires WalletInv(a.wallet) && ChargesPaid(a.wallet.entries, a.consumptions, a.charges)
    requires FeesPaid(a.wallet.entries, a.standing.purchases) && CheckinsPaid(a.wallet.entries, a.checkins)
    requires p.succeeded
    requires p.amount == 0 || Insertable(a.wallet, Kind.Fee, PurchaseRef(|a.standing.purchases|), -p.amount)
    ensures var w := Debit(a.wallet, Kind.Fee, PurchaseRef(|a.standing.purchases|), p.amount);
      && WalletInv(w) && ChargesPaid(w.entries, a.consumptions, a.charges)
      && FeesPaid(w.entries, a.standing.purchases + [p]) && CheckinsPaid(w.entries, a.checkins)
  {
    var k := |a.standing.purchases|;
    if p.amount == 0 {
      FreePurchase(a.wallet.entries, a.standing.purchases, p);
    } else {
      StoreKeeps(a.wallet, Kind.Fee, PurchaseRef(k), -p.amount);
      FeeEntryKeeps(a, p, Entry(Kind.Fee, PurchaseRef(k), -p.amount, Wrap(a.wallet.balance - p.amount)));
    }
  }

  /** The reference of the next purchase is free, so the ledger never refuses the fee. */
  lemma PurchaseNeverClashes(prices: Prices, a: Account, amount: int)
    requires AccountInv(prices, a) && amount > 0
    ensures Insertable(a.wallet, Kind.Fee, PurchaseRef(|a.standing.purchases|), -amount)
  {
  }

  lemma BoughtKeeps(prices: Prices, a: Account, p: Subscription.Purchase, after: Subscription.Standing, month: Month)
    requires AccountInv(prices, a) && p.succeeded && after.purchases == a.standing.purchases + [p]
    requires p.amount == 0 || Insertable(a.wallet, Kind.Fee, PurchaseRef(|a.standing.purchases|), -p.amount)
    ensures var k := |a.standing.purchases|;
      AccountInv(prices, AddItem(a.(standing := after, wallet := Debit(a.wallet, Kind.Fee, PurchaseRef(k), p.amount)),
                                 month, FromPurchase(k), p.amount))
  {
    FeeKeeps(a, p);
    PurchaseItemKeeps(a.items, a.charges, a.standing.purchases, p, month);
    var k := |a.standing.purchases|;
    var paid := a.(standing := after, wallet := Debit(a.wallet, Kind.Fee, PurchaseRef(k), p.amount));
    BillKeeps(paid, month, FromPurchase(k), p.amount);
    RowsReplaced(prices, a, AddItem(paid, month, FromPurchase(k), p.amount));
  }

  lemma FailedPurchaseKeeps(prices: Prices, a: Account, p: Subscription.Purchase, after: Subscription.Standing)
    requires AccountInv(prices, a) && !p.succeeded && after.purchases == a.standing.purchases + [p]
    ensures AccountInv(prices, a.(standing := after))
  {
    FreePurchase(a.wallet.entries, a.standing.purchases, p);
    FailedPurchaseNotItemised(a.items, a.standing.purchases, p);
  }

  lemma PurchaseKeeps(prices: Prices, a: Account, now: int, target: Subscription.Target)
    requires AccountInv(prices, a)
    ensures AccountInv(prices, PurchasePlan(a, now, target))
  {
    var verdict := PurchaseVerdict(a, now, target);
    var p := Row(a, now, target);
    var after := Subscription.After(a.standing, now, target, verdict);
    if verdict.Insufficient? {
      FailedPurchaseKeeps(prices, a, p, after);
    } else if verdict.Bought? {
      if p.amount > 0 { PurchaseNeverClashes(prices, a, p.amount); }
      BoughtKeeps(prices, a, p, after, MonthOf(now));
    }
  }

  // ---------------------------------------------------------------- usage

  /** Rows that are not charged may change quantity, and a new key may appear. */
  lemma UsageGrows(usage: seq<Usage>, grown: seq<Usage>, charges: seq<Charge>)
    requires UsageCharged(usage, charges)
    requires |usage| <= |grown| && forall i :: 0 <= i < |usage| && usage[i].disposition == Charged ==>
      grown[i] == usage[i]
    requires forall i :: 0 <= i < |grown| && grown[i].disposition == Charged ==>
      i < |usage| && usage[i].disposition == Charged
    ensures UsageCharged(grown, charges)
  {
    forall j | 0 <= j < |charges| ensures HasRow(grown, charges[j]) {
      var i :| 0 <= i < |usage| && ChargedAs(usage[i], charges[j]);
      assert ChargedAs(grown[i], charges[j]);
    }
  }

  lemma AggregateKeepsDistinct(a: Account, slot: Slot, price: Option<PriceId>, quantity: nat)
    requires UsageDistinct(a.usage)
    ensures UsageDistinct(Aggregate(a, slot, price, quantity).usage)
  {
  }

  lemma AggregateKeeps(prices: Prices, a: Account, slot: Slot, price: Option<PriceId>, quantity: nat)
    requires AccountInv(prices, a)
    ensures AccountInv(prices, Aggregate(a, slot, price, quantity))
  {
    AggregateKeepsDistinct(a, slot, price, quantity);
    UsageGrows(a.usage, Aggregate(a, slot, price, quantity).usage, a.charges);
  }

  // ---------------------------------------------------------------- billing

  lemma ClaimIsNew(a: Account, i: nat, now: int)
    requires Claimable(a, i, now)
    ensures !Charges(a.charges, Key(a.usage[i].slot, a.usage[i].price.value))
  {
    forall j | 0 <= j < |a.charges| ensures ChargeRef(a.charges[j]) != Key(a.usage[i].slot, a.usage[i].price.value) {
      assert !ChargeBlocks(a.charges[j], a.usage[i]);
    }
  }

  /** The wallet debit and the credit drawn make up a new charge. */
  lemma ChargePosted(entries: seq<Entry>, debited: seq<Entry>, before: seq<Consumption>, after: seq<Consumption>,
                     charges: seq<Charge>, c: Charge)
    requires ChargesPaid(entries, before, charges) && !Charges(charges, ChargeRef(c))
    requires debited == entries || (|debited| == |entries| + 1 && debited[..|entries|] == entries
                                    && debited[|entries|].kind == UsageFee && debited[|entries|].ref == ChargeRef(c))
    requires forall j: nat :: j < |charges| ==> ConsumedBy(after, j) == ConsumedBy(before, j)
    requires c.amount == ConsumedBy(after, |charges|) - (if debited == entries then 0 else debited[|entries|].amount)
    ensures ChargesPaid(debited, after, charges + [c])
  {
    var more := charges + [c];
    assert more[|charges|] == c;
    UnusedIsEmpty(entries, UsageFee, ChargeRef(c));
    forall j | 0 <= j < |more|
      ensures more[j].amount == ConsumedBy(after, j) - Recorded(debited, UsageFee, ChargeRef(more[j]))
    {
      if debited != entries {
        assert debited == entries + [debited[|entries|]];
        Appended(entries, debited[|entries|], UsageFee, ChargeRef(more[j]));
      }
      if j < |charges| { assert ChargeRef(charges[j]) != ChargeRef(c); }
    }
    forall i | 0 <= i < |debited| && debited[i].kind == UsageFee ensures Charges(more, debited[i].ref) {
      if i < |entries| {
        assert debited[i] == entries[i];
        var j :| 0 <= j < |charges| && ChargeRef(charges[j]) == entries[i].ref;
        assert ChargeRef(more[j]) == entries[i].ref;
      }
    }
  }

  lemma SpendForCharge(a: Account, amount: nat, now: int)
    requires CreditInv(a.grants, a.consumptions, |a.charges|)
    ensures var order := CreditQuery(a.grants, now);
      var used := Lesser(amount, Available(a.grants, order));
      var r := SpendCredit(Spending(a.grants, a.consumptions), order, used, |a.charges|);
      && CreditInv(r.grants, r.consumptions, |a.charges| + 1)
      && ConsumedBy(r.consumptions, |a.charges|) == used
      && forall j: nat :: j < |a.charges| ==> ConsumedBy(r.consumptions, j) == ConsumedBy(a.consumptions, j)
  {
    var order := CreditQuery(a.grants, now);
    var used := Lesser(amount, Available(a.grants, order));
    NothingConsumedBy(a.consumptions, |a.charges|);
    SpendCreditBalances(Spending(a.grants, a.consumptions), order, used, |a.charges|);
    SpendCharges(Spending(a.grants, a.consumptions), order, used, |a.charges|);
  }

  predicate UpToCharge(consumptions: seq<Consumption>, charge: nat) {
    forall k :: 0 <= k < |consumptions| ==> consumptions[k].charge <= charge
  }

  lemma {:induction false} SpendCharges(s: Spending, order: seq<nat>, need: nat, charge: nat)
    requires InRange(s.grants, order) && UpToCharge(s.consumptions, charge)
    ensures UpToCharge(SpendCredit(s, order, need, charge).consumptions, charge)
    decreases |order|
  {
    if order != [] && need > 0 {
      var used := Lesser(s.grants[order[0]].remaining, need);
      var next := Draw(s, order[0], used, charge);
      assert UpToCharge(next.consumptions, charge);
      SpendCharges(next, order[1..], need - used, charge);
    }
  }

  lemma {:induction false} NothingConsumedBy(consumptions: seq<Consumption>, charge: nat)
    requires forall k :: 0 <= k < |consumptions| ==> consumptions[k].charge < charge
    ensures UpToCharge(consumptions, charge) && ConsumedBy(consumptions, charge) == 0
  {
    if consumptions != [] { NothingConsumedBy(consumptions[..|consumptions| - 1], charge); }
  }

  lemma DebitKeeps(a: Account, ref: Ref, amount: int)
    requires amount >= 0 && WalletInv(a.wallet) && (amount > 0 ==> Insertable(a.wallet, UsageFee, ref, -amount))
    requires FeesPaid(a.wallet.entries, a.standing.purchases) && CheckinsPaid(a.wallet.entries, a.checkins)
    ensures var w := Debit(a.wallet, UsageFee, ref, amount);
      && WalletInv(w) && FeesPaid(w.entries, a.standing.purchases) && CheckinsPaid(w.entries, a.checkins)
  {
    if amount > 0 {
      StoreKeeps(a.wallet, UsageFee, ref, -amount);
      PostingElsewhere(a, Entry(UsageFee, ref, -amount, Wrap(a.wallet.balance - amount)));
    }
  }

  /** Charging row `i` marks it charged at the quantity the charge records. */
  lemma RowCharged(usage: seq<Usage>, charges: seq<Charge>, i: nat, c: Charge)
    requires UsageDistinct(usage) && UsageCharged(usage, charges)
    requires i < |usage| && usage[i].disposition == Unbilled && ChargedAs(usage[i].(disposition := Charged), c)
    ensures UsageDistinct(usage[i := usage[i].(disposition := Charged)])
    ensures UsageCharged(usage[i := usage[i].(disposition := Charged)], charges + [c])
  {
    var after := usage[i := usage[i].(disposition := Charged)];
    var more := charges + [c];
    assert ChargedAs(after[i], more[|charges|]);
    forall j | 0 <= j < |more| ensures HasRow(after, more[j]) {
      if j < |charges| {
        var k :| 0 <= k < |usage| && ChargedAs(usage[k], charges[j]);
        assert ChargedAs(after[k], more[j]);
      }
    }
    forall k | 0 <= k < |after| && after[k].disposition == Charged ensures HasCharge(after[k], more) {
      if k != i {
        var j :| 0 <= j < |charges| && ChargedAs(usage[k], charges[j]);
        assert ChargedAs(after[k], more[j]);
      }
    }
  }

  /** The charge, its wallet debit and its credit, before it is put on a bill. */
  lemma SettleKeepsPaid(a: Account, i: nat, amount: nat, now: int)
    requires CreditInv(a.grants, a.consumptions, |a.charges|)
    requires ChargesPaid(a.wallet.entries, a.consumptions, a.charges)
    requires i < |a.usage| && a.usage[i].price.Some?
    requires !Charges(a.charges, Key(a.usage[i].slot, a.usage[i].price.value))
    ensures var r := Settle(a, i, amount, now);
      && CreditInv(r.grants, r.consumptions, |r.charges|)
      && ChargesPaid(r.wallet.entries, r.consumptions, r.charges)
  {
    SpendForCharge(a, amount, now);
    var r := Settle(a, i, amount, now);
    ChargePosted(a.wallet.entries, r.wallet.entries, a.consumptions, r.consumptions, a.charges, r.charges[|a.charges|]);
  }

  lemma ChargeIsNew(prices: Prices, charges: seq<Charge>, c: Charge)
    requires ChargesDistinct(charges) && !Charges(charges, ChargeRef(c)) && ChargesPriced(prices, charges)
    requires c.price in prices && c.amount == Price(prices[c.price], c.quantity)
    ensures ChargesDistinct(charges + [c]) && ChargesPriced(prices, charges + [c])
  {
  }

  /** The wallet and credit rows of a paid usage. */
  predicate SettledMoney(a: Account, s: Account) {
    && WalletInv(s.wallet) && FeesPaid(s.wallet.entries, a.standing.purchases)
    && CheckinsPaid(s.wallet.entries, a.checkins)
    && CreditInv(s.grants, s.consumptions, |s.charges|) && ChargesPaid(s.wallet.entries, s.consumptions, s.charges)
  }

  /** Its charge and usage rows. */
  predicate SettledUsage(prices: Prices, a: Account, s: Account, c: Charge) {
    && s.charges == a.charges + [c] && ChargesDistinct(s.charges) && ChargesPriced(prices, s.charges)
    && UsageDistinct(s.usage) && UsageCharged(s.usage, s.charges)
  }

  /** A paid usage, with everything but the bill in place. */
  predicate SettledRows(prices: Prices, a: Account, s: Account, c: Charge) {
    && SettledMoney(a, s) && SettledUsage(prices, a, s, c)
    && s.bills == a.bills && s.items == a.items && s.standing == a.standing && s.checkins == a.checkins
  }

  predicate NewlyClaimed(a: Account, i: nat) {
    && i < |a.usage| && a.usage[i].price.Some? && a.usage[i].disposition == Unbilled
    && !Charges(a.charges, Key(a.usage[i].slot, a.usage[i].price.value))
  }

  lemma SettleGivesMoney(a: Account, i: nat, amount: nat, now: int)
    requires WalletInv(a.wallet) && CreditInv(a.grants, a.consumptions, |a.charges|)
    requires ChargesPaid(a.wallet.entries, a.consumptions, a.charges)
    requires FeesPaid(a.wallet.entries, a.standing.purchases) && CheckinsPaid(a.wallet.entries, a.checkins)
    requires NewlyClaimed(a, i)
    requires var debit := amount - Lesser(amount, CreditOf(a, now));
      debit > 0 ==> Insertable(a.wallet, UsageFee, Key(a.usage[i].slot, a.usage[i].price.value), -debit)
    ensures SettledMoney(a, Settle(a, i, amount, now))
  {
    DebitKeeps(a, Key(a.usage[i].slot, a.usage[i].price.value), amount - Lesser(amount, CreditOf(a, now)));
    SettleKeepsPaid(a, i, amount, now);
  }

  lemma SettleGivesUsage(prices: Prices, a: Account, i: nat, amount: nat, now: int)
    requires ChargesDistinct(a.charges) && ChargesPriced(prices, a.charges)
    requires UsageDistinct(a.usage) && UsageCharged(a.usage, a.charges) && NewlyClaimed(a, i)
    requires a.usage[i].price.value in prices && amount == Price(prices[a.usage[i].price.value], a.usage[i].quantity)
    ensures var u := a.usage[i];
      SettledUsage(prices, a, Settle(a, i, amount, now), Charge(u.slot, u.price.value, u.quantity, amount))
  {
    var u := a.usage[i];
    ChargeIsNew(prices, a.charges, Charge(u.slot, u.price.value, u.quantity, amount));
    RowCharged(a.usage, a.charges, i, Charge(u.slot, u.price.value, u.quantity, amount));
  }

  lemma SettleGives(prices: Prices, a: Account, i: nat, now: int)
    requires AccountInv(prices, a) && BillingOutcome(prices, a, i, now).Settled?
    ensures var u := a.usage[i]; var amount := Price(prices[u.price.value], u.quantity);
      SettledRows(prices, a, Settle(a, i, amount, now), Charge(u.slot, u.price.value, u.quantity, amount))
  {
    var amount := Price(prices[a.usage[i].price.value], a.usage[i].quantity);
    ClaimIsNew(a, i, now);
    SettleGivesMoney(a, i, amount, now);
    SettleGivesUsage(prices, a, i, amount, now);
  }

  lemma SettledKeeps(prices: Prices, a: Account, s: Account, c: Charge, month: Month)
    requires AccountInv(prices, a) && SettledRows(prices, a, s, c)
    ensures AccountInv(prices, AddItem(s, month, FromCharge(|a.charges|), c.amount))
  {
    ChargeItemKeeps(a.items, a.charges, a.standing.purchases, c, month);
    BillKeeps(s, month, FromCharge(|a.charges|), c.amount);
  }

  lemma BillUsageKeeps(prices: Prices, a: Account, i: nat, now: int)
    requires AccountInv(prices, a)
    ensures AccountInv(prices, BillUsage(prices, a, i, now))
  {
    if BillingOutcome(prices, a, i, now).Settled? {
      var u := a.usage[i];
      var amount := Price(prices[u.price.value], u.quantity);
      SettleGives(prices, a, i, now);
      SettledKeeps(prices, a, Settle(a, i, amount, now), Charge(u.slot, u.price.value, u.quantity, amount),
                   MonthOf(u.slot.start));
    }
  }

  // ---------------------------------------------------------------- runs

  predicate IsPosting(e: Event) {
    e.WalletAdjusted? || e.OrderPaid? || e.OrderRefunded? || e.InviteRewarded?
  }

  lemma PostingStepKeeps(prices: Prices, a: Account, e: Event)
    requires AccountInv(prices, a) && IsPosting(e)
    ensures AccountInv(prices, Apply(prices, a, e))
  {
    if e.WalletAdjusted? { AdjustKeeps(prices, a, e.amount, e.text); }
    else if e.OrderPaid? { CreditedKeeps(prices, a, Topup, OrderRef(e.order), e.amount); }
    else if e.OrderRefunded? { RefundedKeeps(prices, a, e.order, e.amount); }
    else { CreditedKeeps(prices, a, Bonus, InviteRef(e.invite), e.amount); }
  }

  lemma UsageStepKeeps(prices: Prices, a: Account, e: Event)
    requires AccountInv(prices, a) && (e.UsageAggregated? || e.UsageBilled?)
    ensures AccountInv(prices, Apply(prices, a, e))
  {
    if e.UsageAggregated? { AggregateKeeps(prices, a, e.slot, e.price, e.quantity); }
    else { BillUsageKeeps(prices, a, e.row, e.now); }
  }

  lemma StepKeeps(prices: Prices, a: Account, e: Event)
    requires AccountInv(prices, a)
    ensures AccountInv(prices, Apply(prices, a, e))
  {
    if IsPosting(e) {
      PostingStepKeeps(prices, a, e);
    } else {
      match e
      case CheckedIn(settings, day, reward) => CheckInKeeps(prices, a, settings, day, reward);
      case CreditGranted(now, ref, amount, expires, id, note) =>
        GrantKeeps(prices, a, now, ref, amount, expires, id, note);
      case PlanPurchased(now, target) => PurchaseKeeps(prices, a, now, target);
      case _ => UsageStepKeeps(prices, a, e);
    }
  }

  lemma EmptyAccountInv(prices: Prices)
    ensures AccountInv(prices, Opened(0)) && Sound(Opened(0).wallet)
  {
  }

  lemma OpenedInv(prices: Prices, initial: int)
    ensures AccountInv(prices, Opened(initial)) && Sound(Opened(initial).wallet)
  {
    EmptyAccountInv(prices);
    if 0 < initial <= MAX_INT64 {
      PostingKeeps(prices, Opened(0), Bonus, InitialRef, initial);
      SoundIffInRange(Opened(0).wallet, Bonus, InitialRef, initial);
    }
  }

  /** Money is conserved by every run of the eight wallet writers and the credit writer. */
  lemma {:induction false} RunKeeps(prices: Prices, initial: int, events: seq<Event>)
    ensures AccountInv(prices, Run(prices, Opened(initial), events))
  {
    OpenedInv(prices, initial);
    if events != [] {
      RunKeeps(prices, initial, events[..|events| - 1]);
      StepKeeps(prices, Run(prices, Opened(initial), events[..|events| - 1]), events[|events| - 1]);
    }
  }
}
