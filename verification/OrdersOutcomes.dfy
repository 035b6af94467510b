/** When a payment, a refund or an invite goes through, and that a provider's reference is used up by it. */
module OrdersOutcomes {
  import opened Domain
  import opened Ledger
  import opened Orders
  import opened OrdersInvariant
  import Accounts

  function BalanceOf(b: Bank, user: UserId): int {
    if user in b.accounts then b.accounts[user].wallet.balance else 0
  }

  lemma {:induction false} NotCountedIsFree(entries: seq<Entry>, kind: Kind, ref: Ref)
    requires Count(entries, kind, ref) == 0
    ensures !Used(entries, kind, ref)
  {
    if entries != [] {
      var front := entries[..|entries| - 1];
      NotCountedIsFree(front, kind, ref);
      assert forall i :: 0 <= i < |front| ==> entries[i] == front[i];
    }
  }

  /** The ledger never refuses the top-up of a pending order; only the balance column can overflow. */
  lemma TopupFits(b: Bank, id: OrderId)
    requires BankInv(b) && id in b.orders && b.orders[id].status == Pending
    ensures var o := b.orders[id];
      && o.user in b.accounts && o.amount > 0
      && (Crediting(b, o.user, Topup, OrderRef(id), o.amount) <==> Accounts.InInt64(BalanceOf(b, o.user) + o.amount))
  {
    var o := b.orders[id];
    assert OrderPosted(b.accounts[o.user].wallet.entries, id, o);
    NotCountedIsFree(b.accounts[o.user].wallet.entries, Topup, OrderRef(id));
  }

  /** A confirmation goes through exactly for a pending order whose amount the balance can hold. */
  lemma MarkedPaidIff(b: Bank, id: OrderId)
    requires BankInv(b)
    ensures MarkPaidAnswer(b, id).Success? <==>
      && id in b.orders && b.orders[id].status == Pending
      && Accounts.InInt64(BalanceOf(b, b.orders[id].user) + b.orders[id].amount)
  {
    if id in b.orders && b.orders[id].status == Pending { TopupFits(b, id); }
  }

  predicate UsedBefore(b: Bank, tradeNo: string, id: OrderId) {
    exists other :: other in b.orders && other != id && b.orders[other].providerRef == Some(tradeNo)
  }

  /** References are only on orders of the provider. */
  lemma ReferencesOfProvider(b: Bank, tradeNo: string, id: OrderId)
    requires BankInv(b)
    ensures UsedBefore(b, tradeNo, id) <==> ReferenceTaken(b.orders, tradeNo, id)
  {
    if UsedBefore(b, tradeNo, id) {
      var other :| other in b.orders && other != id && b.orders[other].providerRef == Some(tradeNo);
      assert OrderHistory(b.orders[other]);
    }
  }

  /** A signed callback goes through exactly for a pending order of the provider, the amount of that order, a
      reference no other order carries, and an amount the balance can hold. */
  lemma CalledBackIff(b: Bank, id: OrderId, tradeNo: string, amount: int)
    requires BankInv(b)
    ensures CallbackAnswer(b, id, tradeNo, amount).Success? <==>
      && tradeNo != "" && id in b.orders && b.orders[id].provider == Epay && b.orders[id].amount == amount
      && b.orders[id].status == Pending && !UsedBefore(b, tradeNo, id)
      && Accounts.InInt64(BalanceOf(b, b.orders[id].user) + amount)
  {
    ReferencesOfProvider(b, tradeNo, id);
    if id in b.orders {
      assert OrderHistory(b.orders[id]);
      if b.orders[id].status == Pending { TopupFits(b, id); }
    }
  }

  /** The one order, the one wallet; everything else stays. */
  predicate PaysOnly(b: Bank, c: Bank, id: OrderId, reference: Option<string>) {
    && id in b.orders && id in c.orders && b.orders[id].user in b.accounts && b.orders[id].user in c.accounts
    && var o := b.orders[id];
    && var a := b.accounts[o.user];
    && c == Bank(b.accounts[o.user := c.accounts[o.user]], b.orders[id := c.orders[id]], b.invites)
    && c.orders[id] == o.(status := Paid, providerRef := reference, events := o.events + [(Pending, Paid)])
    && c.accounts[o.user] == a.(wallet := Wallet(a.wallet.balance + o.amount,
         a.wallet.entries + [Entry(Topup, OrderRef(id), o.amount, a.wallet.balance + o.amount)]))
  }

  /** What a payment writes, once. */
  lemma PaymentIs(b: Bank, id: OrderId, tradeNo: string, amount: int)
    requires BankInv(b)
    ensures MarkPaidAnswer(b, id).Success? ==> PaysOnly(b, MarkPaid(b, id), id, b.orders[id].providerRef)
    ensures CallbackAnswer(b, id, tradeNo, amount).Success? ==>
      PaysOnly(b, Callback(b, id, tradeNo, amount), id, Some(tradeNo))
  {
    MarkedPaidIff(b, id);
    CalledBackIff(b, id, tradeNo, amount);
    if id in b.orders {
      var o := b.orders[id];
      if MarkPaidAnswer(b, id).Success? { PaidBank(b, id); }
      if CallbackAnswer(b, id, tradeNo, amount).Success? {
        PaidBank(b, id);
        assert b.orders[id := Moved(o, Paid)][id := Moved(o, Paid).(providerRef := Some(tradeNo))]
            == b.orders[id := Moved(o, Paid).(providerRef := Some(tradeNo))];
      }
    }
  }

  lemma PaidBank(b: Bank, id: OrderId)
    requires id in b.orders && b.orders[id].user in b.accounts
    requires Crediting(b, b.orders[id].user, Topup, OrderRef(id), b.orders[id].amount)
    ensures var o := b.orders[id]; var a := b.accounts[o.user];
      Pay(b, id) == Bank(b.accounts[o.user := a.(wallet := Wallet(a.wallet.balance + o.amount,
        a.wallet.entries + [Entry(Topup, OrderRef(id), o.amount, a.wallet.balance + o.amount)]))],
        b.orders[id := Moved(o, Paid)], b.invites)
  {
  }

  /** A refund goes through exactly for a paid order that was confirmed by hand, while the wallet holds its
      amount. */
  lemma RefundedIff(b: Bank, id: OrderId)
    requires BankInv(b)
    ensures RefundAnswer(b, id).Success? <==>
      && id in b.orders && b.orders[id].status == Paid && b.orders[id].provider == Manual
      && BalanceOf(b, b.orders[id].user) >= b.orders[id].amount
  {
    if id in b.orders && b.orders[id].status == Paid {
      var o := b.orders[id];
      assert OrderHistory(o) && o.user in b.accounts;
      assert OrderPosted(b.accounts[o.user].wallet.entries, id, o);
      NotCountedIsFree(b.accounts[o.user].wallet.entries, Refund, OrderRef(id));
    }
  }

  /** A close goes through exactly for a pending order confirmed by hand that the provider saw open or closed. */
  lemma ClosedIff(b: Bank, id: OrderId, seen: OrderState)
    ensures CloseOrder(b, id, seen) ==
      if id in b.orders && b.orders[id].provider == Manual && b.orders[id].status == Pending
         && (seen == Pending || seen == Closed)
      then var o := b.orders[id];
           b.(orders := b.orders[id := o.(status := Closed, events := o.events + [(Pending, Closed)])])
      else b
  {
  }

  predicate OrderAllowed(b: Bank, id: OrderId, user: UserId, amount: int) {
    id !in b.orders && user in b.accounts && 1 <= amount <= 100_000_000
  }

  /** Orders are created pending, for one cent up to a million units. */
  lemma CreatedIff(b: Bank, id: OrderId, user: UserId, provider: Provider, amount: int)
    ensures CreateOrder(b, id, user, provider, amount) ==
      if OrderAllowed(b, id, user, amount)
      then b.(orders := b.orders[id := Order(user, provider, amount, Pending, None, [], [])]) else b
  {
  }

  /** An invite is created unused, with the reward set for it, and an account with the grant set for it. */
  lemma CreatedAsAsked(prices: Accounts.Prices, b: Bank, invite: InviteId, user: UserId, reward: int, initial: int)
    ensures CreateInvite(b, invite, user, reward) ==
      if invite !in b.invites && user in b.accounts
      then b.(invites := b.invites[invite := Invite(user, reward, None)]) else b
    ensures user !in b.accounts ==>
      Apply(prices, b, AccountOpened(user, initial)) == b.(accounts := b.accounts[user := Accounts.Opened(initial)])
  {
  }

  /** An invite is redeemed exactly when it is unused, by someone else who has not redeemed one, and its reward
      fits the inviter's balance. */
  lemma RedeemedIff(b: Bank, id: InviteId, user: UserId)
    requires BankInv(b)
    ensures RedeemAnswer(b, id, user).Success? <==>
      && id in b.invites && b.invites[id].invited.None? && b.invites[id].inviter != user
      && (forall other :: other in b.invites ==> b.invites[other].invited != Some(user))
      && (b.invites[id].reward > 0 ==> Accounts.InInt64(BalanceOf(b, b.invites[id].inviter) + b.invites[id].reward))
  {
    if id in b.invites && b.invites[id].invited.None? {
      var v := b.invites[id];
      assert v.inviter in b.accounts;
      assert InvitePosted(b.accounts[v.inviter].wallet.entries, id, v);
      NotCountedIsFree(b.accounts[v.inviter].wallet.entries, Bonus, InviteRef(id));
    }
  }

  // ---------------------------------------------------------------- a reference is used once

  lemma ReferenceStays(prices: Accounts.Prices, b: Bank, e: Event, id: OrderId)
    requires id in b.orders && b.orders[id].providerRef.Some? && WasPaid(b.orders[id].status)
    ensures id in Apply(prices, b, e).orders && Apply(prices, b, e).orders[id].providerRef == b.orders[id].providerRef
    ensures WasPaid(Apply(prices, b, e).orders[id].status)
  {
  }

  lemma {:induction false} ReferenceLasts(prices: Accounts.Prices, b: Bank, events: seq<Event>, id: OrderId)
    requires id in b.orders && b.orders[id].providerRef.Some? && WasPaid(b.orders[id].status)
    ensures id in Run(prices, b, events).orders
    ensures Run(prices, b, events).orders[id].providerRef == b.orders[id].providerRef
    ensures WasPaid(Run(prices, b, events).orders[id].status)
  {
    if events != [] {
      ReferenceLasts(prices, b, events[..|events| - 1], id);
      ReferenceStays(prices, Run(prices, b, events[..|events| - 1]), events[|events| - 1], id);
    }
  }

  /** Once a callback has gone through, its reference never pays another order, in any later run. */
  lemma ReferencePaysOnce(prices: Accounts.Prices, b: Bank, id: OrderId, tradeNo: string, amount: int,
                          events: seq<Event>, other: OrderId, later: int)
    requires BankInv(b) && CallbackAnswer(b, id, tradeNo, amount).Success? && other != id
    ensures var c := Run(prices, Callback(b, id, tradeNo, amount), events);
      && !CallbackAnswer(c, other, tradeNo, later).Success? && Callback(c, other, tradeNo, later) == c
  {
    PaymentIs(b, id, tradeNo, amount);
    var paid := Callback(b, id, tradeNo, amount);
    ReferenceLasts(prices, paid, events, id);
    var c := Run(prices, paid, events);
    assert c.orders[id].providerRef == Some(tradeNo);
    ProviderStays(prices, paid, events, id);
  }

  lemma ProviderStays(prices: Accounts.Prices, b: Bank, events: seq<Event>, id: OrderId)
    requires id in b.orders
    ensures id in Run(prices, b, events).orders && Run(prices, b, events).orders[id].provider == b.orders[id].provider
  {
    RunMovesOn(prices, b, events, id);
  }
}
