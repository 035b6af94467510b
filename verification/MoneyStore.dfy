/** The wallet, order and invite transactions as they update the tables, statement by statement. */
module MoneyStore {
  import opened Domain
  import opened Calendar
  import opened Ledger
  import opened Credits
  import opened Orders
  import Accounts
  import Subscription

  class MoneyTables {
    var accounts: map<UserId, Account>
    var orders: map<OrderId, Order>
    var invites: map<InviteId, Invite>
    const prices: Accounts.Prices

    ghost function State(): Bank
      reads this
    {
      Bank(accounts, orders, invites)
    }

    constructor (priceList: Accounts.Prices)
      ensures State() == Empty() && prices == priceList
    {
      accounts, orders, invites, prices := map[], map[], map[], priceList;
    }

    // -------------------------------------------------------------- orders

    method MarkPaymentPaid(id: OrderId) returns (answer: Answer)
      modifies this
      ensures answer == MarkPaidAnswer(old(State()), id)
      ensures State() == Apply(prices, old(State()), MarkedPaid(id))
      ensures !answer.Success? ==> State() == old(State())
    {
      if id !in orders { return NotFound; }
      var o := orders[id];
      if o.status == Paid { return Idempotent; }
      if o.status != Pending { return NotPending; }
      if o.user !in accounts { return InternalError; }
      var a := accounts[o.user];
      var entry := Entry(Topup, OrderRef(id), o.amount, Wrap(a.wallet.balance + o.amount));
      if !Insertable(a.wallet, Topup, OrderRef(id), o.amount) { return InternalError; }
      if !Accounts.InInt64(a.wallet.balance + o.amount) { return InternalError; }
      a := a.(wallet := Wallet(a.wallet.balance + o.amount, a.wallet.entries + [entry]));
      accounts := accounts[o.user := a];
      orders := orders[id := o.(status := Paid, events := o.events + [(Pending, Paid)])];
      return Success;
    }

    method EpayCallback(id: OrderId, tradeNo: string, amount: int) returns (answer: Answer)
      modifies this
      ensures answer == CallbackAnswer(old(State()), id, tradeNo, amount)
      ensures State() == Apply(prices, old(State()), CallbackReceived(id, tradeNo, amount))
      ensures !answer.Success? ==> State() == old(State())
    {
      if tradeNo == "" || amount <= 0 { return InvalidCallback; }
      if id !in orders || !orders[id].provider.Epay? { return NotFound; }
      var o := orders[id];
      if o.amount != amount { return AmountMismatch; }
      if exists other :: other in orders && other != id && orders[other].provider.Epay?
                         && orders[other].providerRef == Some(tradeNo) {
        return ReferenceReused;
      }
      if o.status == Paid { return Idempotent; }
      if o.status != Pending { return NotPending; }
      if o.user !in accounts { return InternalError; }
      var a := accounts[o.user];
      if !Insertable(a.wallet, Topup, OrderRef(id), amount) || !Accounts.InInt64(a.wallet.balance + amount) {
        return InternalError;
      }
      var entry := Entry(Topup, OrderRef(id), amount, Wrap(a.wallet.balance + amount));
      a := a.(wallet := Wallet(a.wallet.balance + amount, a.wallet.entries + [entry]));
      accounts := accounts[o.user := a];
      orders := orders[id := o.(status := Paid, providerRef := Some(tradeNo), events := o.events + [(Pending, Paid)])];
      return Success;
    }

    /** The ledger entry of a refund and the balance after it. */
    method DebitWallet(a: Account, id: OrderId, amount: int) returns (r: Account)
      requires Accounts.Refundable(a, id, amount)
      ensures r == Accounts.DebitRefund(a, id, amount)
    {
      var newBalance := Wrap(a.wallet.balance - amount);
      r := a.(wallet := Wallet(newBalance, a.wallet.entries + [Entry(Refund, OrderRef(id), -amount, newBalance)]));
    }

    method RefundPayment(id: OrderId) returns (answer: Answer)
      requires id in orders ==> orders[id].amount > 0
      modifies this
      ensures answer == RefundAnswer(old(State()), id)
      ensures State() == Apply(prices, old(State()), RefundRequested(id))
      ensures !answer.Success? ==> State() == old(State())
    {
      if id !in orders { return NotFound; }
      var o := orders[id];
      if o.status == OrderState.Refunded { return Idempotent; }
      if o.status == Refunding { return RefundInProgress; }
      if o.status != Paid { return NotRefundable; }
      if !SupportsImmediateRefund(o.provider) { return Unconfigured; }
      if o.user !in accounts { return InternalError; }
      var a := accounts[o.user];
      if a.wallet.balance < o.amount { return InsufficientFunds; }
      if o.refund != [] { return InternalError; }
      if !Insertable(a.wallet, Refund, OrderRef(id), -o.amount) { return InternalError; }
      o := o.(status := Refunding, events := o.events + [(Paid, Refunding)]);
      o := o.(refund := [(None, RefundProcessing)]);
      a := DebitWallet(a, id, o.amount);
      accounts := accounts[o.user := a];
      o := o.(refund := o.refund + [(Some(RefundProcessing), RefundSucceeded)]);
      o := o.(status := OrderState.Refunded, events := o.events + [(Refunding, OrderState.Refunded)]);
      assert o == RefundedRow(orders[id]);
      orders := orders[id := o];
      return Success;
    }

    /** The transaction of paymentOperation, after the provider closed an order it saw as `seen`. */
    method ClosePaymentOrder(id: OrderId, seen: OrderState)
      modifies this`orders
      ensures State() == Apply(prices, old(State()), CloseRequested(id, seen))
    {
      if id !in orders || !ClosePayment(orders[id].provider, seen) { return; }
      var o := orders[id];
      if o.status == Pending {
        orders := orders[id := o.(status := Closed, events := o.events + [(Pending, Closed)])];
      }
    }

    method RedeemInviteCode(id: InviteId, user: UserId) returns (answer: Answer)
      modifies this
      ensures answer == RedeemAnswer(old(State()), id, user)
      ensures State() == Apply(prices, old(State()), InviteRedeemed(id, user))
      ensures !answer.Success? ==> State() == old(State())
    {
      if id !in invites || invites[id].invited.Some? { return NotFound; }
      var v := invites[id];
      if v.inviter == user { return SelfInvite; }
      if exists other :: other in invites && invites[other].invited == Some(user) { return AlreadyRedeemed; }
      if v.inviter !in accounts { return InternalError; }
      var a := accounts[v.inviter];
      if v.reward > 0 {
        if !Insertable(a.wallet, Bonus, InviteRef(id), v.reward) || !Accounts.InInt64(a.wallet.balance + v.reward) {
          return InternalError;
        }
        var entry := Entry(Bonus, InviteRef(id), v.reward, Wrap(a.wallet.balance + v.reward));
        a := a.(wallet := Wallet(a.wallet.balance + v.reward, a.wallet.entries + [entry]));
      }
      accounts := accounts[v.inviter := a];
      invites := invites[id := v.(invited := Some(user))];
      return Success;
    }

    // -------------------------------------------------------------- one account

    method AdjustWallet(user: UserId, amount: int, text: string) returns (verdict: Accounts.Verdict)
      requires user in accounts
      modifies this`accounts
      ensures verdict == Accounts.AdjustVerdict(old(accounts)[user].wallet, amount, text)
      ensures State() == Apply(prices, old(State()), InAccount(user, Accounts.WalletAdjusted(amount, text)))
    {
      var a := accounts[user];
      if !Accounts.InInt64(amount) || amount == 0 || text == "" || |text| > 128 { return Accounts.Invalid; }
      var newBalance := Wrap(a.wallet.balance + amount);
      if newBalance < 0 { return Accounts.InsufficientBalance; }
      if exists i :: 0 <= i < |a.wallet.entries| && a.wallet.entries[i].kind == Adjustment
                     && a.wallet.entries[i].ref == TextRef(text) {
        if Recorded(a.wallet.entries, Adjustment, TextRef(text)) != amount { return Accounts.Conflict; }
        return Accounts.Replayed;
      }
      var entry := Entry(Adjustment, TextRef(text), amount, newBalance);
      a := a.(wallet := a.wallet.(entries := a.wallet.entries + [entry]));
      a := a.(wallet := a.wallet.(balance := newBalance));
      accounts := accounts[user := a];
      return Accounts.Done;
    }

    method PerformCheckin(user: UserId, settings: Accounts.CheckinSettings, day: int,
                          reward: int) returns (verdict: Accounts.Verdict)
      requires user in accounts && settings.Valid() && settings.minimum <= reward <= settings.maximum
      modifies this`accounts
      ensures verdict == Accounts.CheckinVerdict(old(accounts)[user], settings, day, reward)
      ensures State() == Apply(prices, old(State()), InAccount(user, Accounts.CheckedIn(settings, day, reward)))
    {
      var a := accounts[user];
      if !settings.enabled { return Accounts.Disabled; }
      if day in a.checkins { return Accounts.Replayed; }
      if !Insertable(a.wallet, CheckinReward, DayRef(day), reward) { return Accounts.DatabaseError; }
      var newBalance := Wrap(a.wallet.balance + reward);
      var entry := Entry(CheckinReward, DayRef(day), reward, newBalance);
      a := a.(wallet := a.wallet.(entries := a.wallet.entries + [entry]));
      a := a.(wallet := a.wallet.(balance := newBalance));
      a := a.(checkins := a.checkins[day := reward]);
      accounts := accounts[user := a];
      return Accounts.Done;
    }

    method GrantCredit(user: UserId, now: int, ref: string, amount: int, expires: Option<int>, id: nat, note: string)
      returns (verdict: Accounts.Verdict)
      requires user in accounts
      modifies this`accounts
      ensures verdict == Accounts.GrantVerdict(old(accounts)[user], now, ref, amount, expires, note)
      ensures State() == Apply(prices, old(State()),
                               InAccount(user, Accounts.CreditGranted(now, ref, amount, expires, id, note)))
    {
      if amount <= 0 || amount > 1_000_000_000_000 || ref == "" || "subscription-credit/" <= ref
         || |ref| > 128 || |note| > 500 {
        return Accounts.Invalid;
      }
      if expires.Some? && expires.value <= now { return Accounts.Invalid; }
      var a := accounts[user];
      if exists i :: 0 <= i < |a.grants| && a.grants[i].ref == ref {
        if exists i :: 0 <= i < |a.grants| && a.grants[i].ref == ref
                       && (a.grants[i].amount != amount || a.grants[i].note != note || a.grants[i].expires != expires) {
          return Accounts.Conflict;
        }
        return Accounts.Replayed;
      }
      a := a.(grants := a.grants + [Grant(ref, amount, amount, expires, now, id, note)]);
      accounts := accounts[user := a];
      return Accounts.Done;
    }

    /** INSERT INTO bills ... ON CONFLICT, the item, and the UPDATE of the total. */
    method PutOnBill(a: Account, at: int, source: Accounts.Source, amount: int) returns (r: Account)
      ensures r == Accounts.AddItem(a, MonthOf(at), source, amount)
    {
      var month := BillingMonth(at);
      r := a;
      if month !in r.bills { r := r.(bills := r.bills[month := 0]); }
      r := r.(items := r.items + [Accounts.Item(month, source, amount)]);
      r := r.(bills := r.bills[month := r.bills[month] + amount]);
    }

    /** The debit, the charge row and the credit drawn for it; `left` is the credit that remains. */
    method PayCharge(before: Account, i: nat, amount: nat, now: int) returns (a: Account, left: nat)
      requires i < |before.usage| && before.usage[i].price.Some?
      ensures var r := Accounts.Settle(before, i, amount, now);
        a == before.(wallet := r.wallet, charges := r.charges, grants := r.grants, consumptions := r.consumptions)
      ensures left == Accounts.CreditOf(before, now) - Lesser(amount, Accounts.CreditOf(before, now))
    {
      a := before;
      var u := a.usage[i];
      var grants := CreditQuery(a.grants, now);
      var creditBalance := Available(a.grants, grants);
      var creditUsed := amount;
      if creditUsed > creditBalance { creditUsed := creditBalance; }
      var walletCharge := amount - creditUsed;
      if walletCharge > 0 {
        a := a.(wallet := Store(a.wallet, UsageFee, Accounts.Key(u.slot, u.price.value), -walletCharge));
      }
      var charge := |a.charges|;
      a := a.(charges := a.charges + [Accounts.Charge(u.slot, u.price.value, u.quantity, amount)]);
      var spent := SpendCreditLoop(Spending(a.grants, a.consumptions), grants, creditUsed, charge);
      a := a.(grants := spent.grants, consumptions := spent.consumptions);
      left := creditBalance - creditUsed;
    }

    /** The charge branch of billUsage. */
    method ChargeRow(before: Account, i: nat, amount: nat, now: int) returns (a: Account)
      requires i < |before.usage| && before.usage[i].price.Some?
      ensures a == Accounts.AddItem(Accounts.Settle(before, i, amount, now), MonthOf(before.usage[i].slot.start),
                                    Accounts.FromCharge(|before.charges|), amount)
    {
      var u := before.usage[i];
      var left;
      a, left := PayCharge(before, i, amount, now);
      a := PutOnBill(a, u.slot.start, Accounts.FromCharge(|before.charges|), amount);
      a := a.(usage := a.usage[i := u.(disposition := Accounts.Charged)]);
      var paid := Accounts.Attempt(u.slot, u.price.value, true, a.wallet.balance, left);
      a := a.(attempts := a.attempts + {paid});
    }

    /** billUsage for the row its query claimed. */
    method BillUsage(user: UserId, i: nat, now: int) returns (outcome: Accounts.Billing)
      requires user in accounts
      modifies this`accounts
      ensures outcome == Accounts.BillingOutcome(prices, old(accounts)[user], i, now)
      ensures State() == Apply(prices, old(State()), InAccount(user, Accounts.UsageBilled(i, now)))
    {
      var a := accounts[user];
      if !Accounts.Claimable(a, i, now) || a.usage[i].price.value !in prices { return Accounts.Idle; }
      var u := a.usage[i];
      var amount := Accounts.Price(prices[u.price.value], u.quantity);
      if amount > MAX_INT64 { return Accounts.Rejected; }
      var creditBalance := Available(a.grants, CreditQuery(a.grants, now));
      var walletCharge := if amount > creditBalance then amount - creditBalance else 0;
      if a.wallet.balance < walletCharge {
        var refused := Accounts.Attempt(u.slot, u.price.value, false, a.wallet.balance, creditBalance);
        a := a.(attempts := a.attempts + {refused});
        accounts := accounts[user := a];
        return Accounts.OutOfFunds;
      }
      if walletCharge > 0 && !Insertable(a.wallet, UsageFee, Accounts.Key(u.slot, u.price.value), -walletCharge) {
        return Accounts.Rejected;
      }
      a := ChargeRow(a, i, amount, now);
      accounts := accounts[user := a];
      return Accounts.Settled;
    }

    method PurchaseSubscription(user: UserId, now: int,
                                target: Subscription.Target) returns (verdict: Subscription.Verdict)
      requires user in accounts
      requires !Used(accounts[user].wallet.entries, Fee, PurchaseRef(|accounts[user].standing.purchases|))
      modifies this`accounts
      ensures verdict == Accounts.PurchaseVerdict(old(accounts)[user], now, target)
      ensures State() == Apply(prices, old(State()), InAccount(user, Accounts.PlanPurchased(now, target)))
      ensures verdict !in {Subscription.Bought, Subscription.Insufficient} ==> State() == old(State())
    {
      var a := accounts[user];
      var k := |a.standing.purchases|;
      var amount, after;
      verdict, amount, after := Subscription.DecidePurchase(a.standing, now, target, a.wallet.balance);
      a := a.(standing := after);
      if verdict.Bought? {
        if amount > 0 { a := a.(wallet := Store(a.wallet, Fee, PurchaseRef(k), -amount)); }
        a := PutOnBill(a, now, Accounts.FromPurchase(k), amount);
      }
      accounts := accounts[user := a];
    }
  }
}
