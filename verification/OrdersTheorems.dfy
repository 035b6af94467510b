/** Every account of the bank is a run of the account machine, so its theorems hold for all of them. */
module OrdersTheorems {
  import opened Ledger
  import opened Orders
  import Accounts
  import AccountsInvariant
  import AccountsTheorems

  /** `a` is what the account machine makes of `events` after the account was opened. */
  ghost predicate IsRun(prices: Accounts.Prices, a: Account, initial: int, events: seq<Accounts.Event>) {
    && (forall k :: 0 <= k < |events| ==> AccountsTheorems.Natural(events[k]))
    && a == Accounts.Run(prices, Accounts.Opened(initial), events)
  }

  ghost predicate Reached(prices: Accounts.Prices, a: Account) {
    exists initial, events :: IsRun(prices, a, initial, events)
  }

  ghost predicate AllReached(prices: Accounts.Prices, accounts: map<UserId, Account>) {
    forall u :: u in accounts ==> Reached(prices, accounts[u])
  }

  lemma RunExtended(prices: Accounts.Prices, a: Account, initial: int, events: seq<Accounts.Event>, e: Accounts.Event)
    requires IsRun(prices, a, initial, events) && AccountsTheorems.Natural(e)
    ensures IsRun(prices, Accounts.Apply(prices, a, e), initial, events + [e])
  {
    assert (events + [e])[..|events|] == events;
  }

  lemma ReachedStep(prices: Accounts.Prices, a: Account, e: Accounts.Event)
    requires Reached(prices, a) && AccountsTheorems.Natural(e)
    ensures Reached(prices, Accounts.Apply(prices, a, e))
  {
    var initial, events :| IsRun(prices, a, initial, events);
    RunExtended(prices, a, initial, events, e);
  }

  lemma ReachedOpened(prices: Accounts.Prices, initial: int)
    ensures Reached(prices, Accounts.Opened(initial))
  {
    assert IsRun(prices, Accounts.Opened(initial), initial, []);
  }

  predicate OrdersPositive(orders: map<OrderId, Order>) {
    forall id :: id in orders ==> orders[id].amount > 0
  }

  lemma StepKeepsPositive(prices: Accounts.Prices, b: Bank, e: Event)
    requires OrdersPositive(b.orders)
    ensures OrdersPositive(Apply(prices, b, e).orders)
  {
  }

  lemma AccountReached(prices: Accounts.Prices, b: Bank, user: UserId, e: Accounts.Event)
    requires AllReached(prices, b.accounts) && user in b.accounts && AccountsTheorems.Natural(e)
    ensures AllReached(prices, b.accounts[user := Accounts.Apply(prices, b.accounts[user], e)])
  {
    ReachedStep(prices, b.accounts[user], e);
  }

  lemma RefundReaches(prices: Accounts.Prices, b: Bank, id: OrderId)
    requires AllReached(prices, b.accounts)
    ensures AllReached(prices, RefundOrder(b, id).accounts)
  {
    if RefundAnswer(b, id).Success? {
      AccountReached(prices, b, b.orders[id].user, Accounts.OrderRefunded(id, b.orders[id].amount));
    }
  }

  lemma RedeemReaches(prices: Accounts.Prices, b: Bank, id: InviteId, user: UserId)
    requires AllReached(prices, b.accounts)
    ensures AllReached(prices, RedeemInvite(b, id, user).accounts)
  {
    if RedeemAnswer(b, id, user).Success? && b.invites[id].reward > 0 {
      AccountReached(prices, b, b.invites[id].inviter, Accounts.InviteRewarded(id, b.invites[id].reward));
    }
  }

  lemma PaymentReaches(prices: Accounts.Prices, b: Bank, id: OrderId)
    requires AllReached(prices, b.accounts) && OrdersPositive(b.orders)
    requires id in b.orders && b.orders[id].user in b.accounts
    ensures AllReached(prices, Pay(b, id).accounts)
  {
    AccountReached(prices, b, b.orders[id].user, Accounts.OrderPaid(id, b.orders[id].amount));
  }

  lemma CallbackReaches(prices: Accounts.Prices, b: Bank, id: OrderId, tradeNo: string, amount: int)
    requires AllReached(prices, b.accounts) && OrdersPositive(b.orders)
    ensures AllReached(prices, Callback(b, id, tradeNo, amount).accounts)
  {
    if CallbackAnswer(b, id, tradeNo, amount).Success? { PaymentReaches(prices, b, id); }
  }

  lemma MarkPaidReaches(prices: Accounts.Prices, b: Bank, id: OrderId)
    requires AllReached(prices, b.accounts) && OrdersPositive(b.orders)
    ensures AllReached(prices, MarkPaid(b, id).accounts)
  {
    if MarkPaidAnswer(b, id).Success? { PaymentReaches(prices, b, id); }
  }

  lemma StepReaches(prices: Accounts.Prices, b: Bank, e: Event)
    requires AllReached(prices, b.accounts) && OrdersPositive(b.orders)
    ensures AllReached(prices, Apply(prices, b, e).accounts)
  {
    match e
    case AccountOpened(user, initial) => ReachedOpened(prices, initial);
    case InAccount(user, event) =>
      if user in b.accounts && Own(event) { AccountReached(prices, b, user, event); }
    case CallbackReceived(id, tradeNo, amount) => CallbackReaches(prices, b, id, tradeNo, amount);
    case MarkedPaid(id) => MarkPaidReaches(prices, b, id);
    case RefundRequested(id) => RefundReaches(prices, b, id);
    case InviteRedeemed(invite, user) => RedeemReaches(prices, b, invite, user);
    case OrderCreated(id, user, provider, amount) =>
    case CloseRequested(id, seen) =>
    case InviteCreated(invite, user, reward) =>
  }

  lemma {:induction false} RunReaches(prices: Accounts.Prices, events: seq<Event>)
    ensures AllReached(prices, Run(prices, Empty(), events).accounts)
    ensures OrdersPositive(Run(prices, Empty(), events).orders)
  {
    if events != [] {
      var before := Run(prices, Empty(), events[..|events| - 1]);
      RunReaches(prices, events[..|events| - 1]);
      StepReaches(prices, before, events[|events| - 1]);
      StepKeepsPositive(prices, before, events[|events| - 1]);
    }
  }

  /** Whatever the payment, refund and invite handlers do in between, money is conserved in every account. */
  lemma EveryAccountConserves(prices: Accounts.Prices, events: seq<Event>, user: UserId)
    requires user in Run(prices, Empty(), events).accounts
    ensures AccountsInvariant.AccountInv(prices, Run(prices, Empty(), events).accounts[user])
  {
    RunReaches(prices, events);
    var a := Run(prices, Empty(), events).accounts[user];
    var initial, own :| IsRun(prices, a, initial, own);
    AccountsInvariant.RunKeeps(prices, initial, own);
  }

  // ---------------------------------------------------------------- exact balances across the bank

  /** A check-in of this user that pushes the balance past the largest int64. */
  predicate WrapsFor(b: Bank, e: Event, user: UserId) {
    && e.InAccount? && e.user == user && user in b.accounts && Own(e.event)
    && AccountsTheorems.Wraps(b.accounts[user], e.event)
  }

  lemma PaymentSound(b: Bank, id: OrderId, user: UserId)
    requires OrdersPositive(b.orders) && id in b.orders && b.orders[id].user in b.accounts
    requires user in b.accounts && Sound(b.accounts[user].wallet)
    ensures user in Pay(b, id).accounts && Sound(Pay(b, id).accounts[user].wallet)
  {
    var o := b.orders[id];
    if o.user == user { AccountsTheorems.CreditSound(b.accounts[user], Topup, OrderRef(id), o.amount); }
  }

  lemma RedeemSound(b: Bank, id: InviteId, redeemer: UserId, user: UserId)
    requires RedeemAnswer(b, id, redeemer).Success? && user in b.accounts && Sound(b.accounts[user].wallet)
    ensures user in RedeemInvite(b, id, redeemer).accounts && Sound(RedeemInvite(b, id, redeemer).accounts[user].wallet)
  {
    var v := b.invites[id];
    if v.inviter == user && v.reward > 0 {
      AccountsTheorems.CreditSound(b.accounts[user], Bonus, InviteRef(id), v.reward);
    }
  }

  lemma RefundSound(b: Bank, id: OrderId, user: UserId)
    requires user in b.accounts && Sound(b.accounts[user].wallet)
    ensures user in RefundOrder(b, id).accounts && Sound(RefundOrder(b, id).accounts[user].wallet)
  {
    if RefundAnswer(b, id).Success? && b.orders[id].user == user {
      AccountsTheorems.RefundSound(b.accounts[user], id, b.orders[id].amount);
    }
  }

  lemma OrderStepSound(prices: Accounts.Prices, b: Bank, e: Event, user: UserId)
    requires OrdersPositive(b.orders) && user in b.accounts && Sound(b.accounts[user].wallet) && !e.InAccount?
    ensures user in Apply(prices, b, e).accounts && Sound(Apply(prices, b, e).accounts[user].wallet)
  {
    match e
    case AccountOpened(u, initial) =>
    case OrderCreated(id, u, provider, amount) =>
    case CallbackReceived(id, tradeNo, amount) =>
      if CallbackAnswer(b, id, tradeNo, amount).Success? { PaymentSound(b, id, user); }
    case MarkedPaid(id) => if MarkPaidAnswer(b, id).Success? { PaymentSound(b, id, user); }
    case RefundRequested(id) => RefundSound(b, id, user);
    case CloseRequested(id, seen) =>
    case InviteCreated(invite, u, reward) =>
    case InviteRedeemed(invite, u) => if RedeemAnswer(b, invite, u).Success? { RedeemSound(b, invite, u, user); }
  }

  /** Whatever the step, a sound wallet stays sound unless the step is a check-in of its owner that wraps. */
  lemma StepSoundFor(prices: Accounts.Prices, b: Bank, e: Event, user: UserId)
    requires OrdersPositive(b.orders) && user in b.accounts && Sound(b.accounts[user].wallet)
    ensures user in Apply(prices, b, e).accounts
    ensures Sound(Apply(prices, b, e).accounts[user].wallet) <==> !WrapsFor(b, e, user)
  {
    if !e.InAccount? {
      OrderStepSound(prices, b, e, user);
    } else if e.user == user && Own(e.event) {
      AccountsTheorems.StepSoundIff(prices, b.accounts[user], e.event);
    }
  }

  lemma NewAccountIsSound(prices: Accounts.Prices, b: Bank, e: Event, user: UserId)
    requires user !in b.accounts && user in Apply(prices, b, e).accounts
    ensures Sound(Apply(prices, b, e).accounts[user].wallet)
  {
    if e.AccountOpened? { AccountsInvariant.OpenedInv(prices, e.initial); }
  }

  /** The user's wallet is sound after every step of the run that has it. */
  ghost predicate SoundFor(prices: Accounts.Prices, events: seq<Event>, user: UserId) {
    && (user in Run(prices, Empty(), events).accounts ==> Sound(Run(prices, Empty(), events).accounts[user].wallet))
    && (events != [] ==> SoundFor(prices, events[..|events| - 1], user))
  }

  ghost predicate NeverWrapsFor(prices: Accounts.Prices, events: seq<Event>, user: UserId) {
    events != [] ==>
      && NeverWrapsFor(prices, events[..|events| - 1], user)
      && !WrapsFor(Run(prices, Empty(), events[..|events| - 1]), events[|events| - 1], user)
  }

  /** In every run of the whole bank, with payments, refunds and invites, all balances of an account are
      exact sums between zero and the largest int64 if and only if none of its check-ins wraps. */
  lemma {:induction false} EveryBalanceExactIffNoCheckinWraps(prices: Accounts.Prices, events: seq<Event>, user: UserId)
    ensures SoundFor(prices, events, user) <==> NeverWrapsFor(prices, events, user)
  {
    if events != [] {
      var front, e := events[..|events| - 1], events[|events| - 1];
      var b := Run(prices, Empty(), front);
      EveryBalanceExactIffNoCheckinWraps(prices, front, user);
      RunReaches(prices, front);
      if user !in b.accounts {
        if user in Apply(prices, b, e).accounts { NewAccountIsSound(prices, b, e, user); }
      } else if Sound(b.accounts[user].wallet) {
        StepSoundFor(prices, b, e, user);
      }
    }
  }
}
