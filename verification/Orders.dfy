/** Payment orders, refunds and invites over the accounts they credit and debit. */
module Orders {
  import opened Domain
  import opened Ledger
  import Accounts

  type UserId = nat
  type Account = Accounts.Account

  datatype Provider = Manual | Epay

  /** `events` and `refund` are the rows of payment_order_events and refund_events. */
  datatype Order = Order(user: UserId, provider: Provider, amount: int, status: OrderState,
                         providerRef: Option<string>,
                         events: seq<(OrderState, OrderState)>,
                         refund: seq<(Option<RefundState>, RefundState)>)

  datatype Invite = Invite(inviter: UserId, reward: int, invited: Option<UserId>)

  datatype Bank = Bank(accounts: map<UserId, Account>, orders: map<OrderId, Order>, invites: map<InviteId, Invite>)

  datatype Answer = Success | Idempotent | NotFound | InvalidCallback | AmountMismatch | ReferenceReused
                  | NotPending | NotRefundable | RefundInProgress | Unconfigured | InsufficientFunds | InternalError
                  | SelfInvite | AlreadyRedeemed

  function Moved(o: Order, to: OrderState): Order {
    o.(status := to, events := o.events + [(o.status, to)])
  }

  predicate Crediting(b: Bank, user: UserId, kind: Kind, ref: Ref, amount: int) {
    user in b.accounts && Add(b.accounts[user].wallet, kind, ref, amount).Some?
  }

  function WithAccount(b: Bank, user: UserId, a: Account): Bank {
    b.(accounts := b.accounts[user := a])
  }

  // ---------------------------------------------------------------- orders

  function CreateOrder(b: Bank, id: OrderId, user: UserId, provider: Provider, amount: int): Bank {
    if id in b.orders || user !in b.accounts || amount <= 0 || amount > 100_000_000 then b
    else b.(orders := b.orders[id := Order(user, provider, amount, Pending, None, [], [])])
  }

  /** Another EPay order already carries the provider reference. */
  predicate ReferenceTaken(orders: map<OrderId, Order>, tradeNo: string, id: OrderId) {
    exists other :: other in orders && other != id && orders[other].provider.Epay?
                    && orders[other].providerRef == Some(tradeNo)
  }

  /** epayCallback once the signature is verified and the amount parsed. */
  function CallbackAnswer(b: Bank, id: OrderId, tradeNo: string, amount: int): Answer {
    if tradeNo == "" || amount <= 0 then InvalidCallback
    else if id !in b.orders || !b.orders[id].provider.Epay? then NotFound
    else if b.orders[id].amount != amount then AmountMismatch
    else if ReferenceTaken(b.orders, tradeNo, id) then ReferenceReused
    else if b.orders[id].status == Paid then Idempotent
    else if b.orders[id].status != Pending then NotPending
    else if !Crediting(b, b.orders[id].user, Topup, OrderRef(id), amount) then InternalError
    else Success
  }

  /** Credits the wallet and marks the order paid. */
  function Pay(b: Bank, id: OrderId): Bank
    requires id in b.orders && b.orders[id].user in b.accounts
  {
    var o := b.orders[id];
    WithAccount(b, o.user, Accounts.CreditWallet(b.accounts[o.user], Topup, OrderRef(id), o.amount))
      .(orders := b.orders[id := Moved(o, Paid)])
  }

  function Callback(b: Bank, id: OrderId, tradeNo: string, amount: int): Bank {
    if CallbackAnswer(b, id, tradeNo, amount).Success? then
      var paid := Pay(b, id);
      paid.(orders := paid.orders[id := paid.orders[id].(providerRef := Some(tradeNo))])
    else b
  }

  function MarkPaidAnswer(b: Bank, id: OrderId): Answer {
    if id !in b.orders then NotFound
    else if b.orders[id].status == Paid then Idempotent
    else if b.orders[id].status != Pending then NotPending
    else if !Crediting(b, b.orders[id].user, Topup, OrderRef(id), b.orders[id].amount) then InternalError
    else Success
  }

  /** markPaymentPaid, which serves every provider. */
  function MarkPaid(b: Bank, id: OrderId): Bank {
    if MarkPaidAnswer(b, id).Success? then Pay(b, id) else b
  }

  predicate SupportsImmediateRefund(p: Provider) {
    p.Manual?
  }

  function RefundAnswer(b: Bank, id: OrderId): Answer {
    if id !in b.orders then NotFound
    else if b.orders[id].status == Refunded then Idempotent
    else if b.orders[id].status == Refunding then RefundInProgress
    else if b.orders[id].status != Paid then NotRefundable
    else if !SupportsImmediateRefund(b.orders[id].provider) then Unconfigured
    else if b.orders[id].user !in b.accounts then InternalError
    else if b.accounts[b.orders[id].user].wallet.balance < b.orders[id].amount then InsufficientFunds
    else if b.orders[id].refund != [] then InternalError
    else if !Insertable(b.accounts[b.orders[id].user].wallet, Refund, OrderRef(id), -b.orders[id].amount)
    then InternalError
    else Success
  }

  /** The order row and its refund row after the two moves of each that one refund makes. */
  function RefundedRow(o: Order): Order {
    var refunding := Moved(o, Refunding).(refund := [(None, RefundProcessing)]);
    Moved(refunding, Refunded).(refund := refunding.refund + [(Some(RefundProcessing), RefundSucceeded)])
  }

  function RefundOrder(b: Bank, id: OrderId): Bank {
    if !RefundAnswer(b, id).Success? then b else
      var o := b.orders[id];
      WithAccount(b, o.user, Accounts.DebitRefund(b.accounts[o.user], id, o.amount))
        .(orders := b.orders[id := RefundedRow(o)])
  }

  /** ClosePayment of the provider, on a status that was read before the transaction. */
  function ClosePayment(p: Provider, seen: OrderState): bool {
    p.Manual? && seen in {Closed, Pending}
  }

  function CloseOrder(b: Bank, id: OrderId, seen: OrderState): Bank {
    if id in b.orders && ClosePayment(b.orders[id].provider, seen) && b.orders[id].status == Pending
    then b.(orders := b.orders[id := Moved(b.orders[id], Closed)]) else b
  }

  // ---------------------------------------------------------------- invites

  function CreateInvite(b: Bank, id: InviteId, inviter: UserId, reward: int): Bank {
    if id in b.invites || inviter !in b.accounts then b
    else b.(invites := b.invites[id := Invite(inviter, reward, None)])
  }

  predicate HasRedeemed(invites: map<InviteId, Invite>, user: UserId) {
    exists id :: id in invites && invites[id].invited == Some(user)
  }

  function RedeemAnswer(b: Bank, id: InviteId, user: UserId): Answer {
    if id !in b.invites || b.invites[id].invited.Some? then NotFound
    else if b.invites[id].inviter == user then SelfInvite
    else if HasRedeemed(b.invites, user) then AlreadyRedeemed
    else if b.invites[id].inviter !in b.accounts then InternalError
    else if b.invites[id].reward > 0 && !Crediting(b, b.invites[id].inviter, Bonus, InviteRef(id), b.invites[id].reward)
    then InternalError
    else Success
  }

  function RedeemInvite(b: Bank, id: InviteId, user: UserId): Bank {
    if !RedeemAnswer(b, id, user).Success? then b else
      var v := b.invites[id];
      var a := b.accounts[v.inviter];
      WithAccount(b, v.inviter, if v.reward > 0 then Accounts.CreditWallet(a, Bonus, InviteRef(id), v.reward) else a)
        .(invites := b.invites[id := v.(invited := Some(user))])
  }

  // ---------------------------------------------------------------- runs

  /** The transactions that stay inside one account. */
  predicate Own(e: Accounts.Event) {
    !e.OrderPaid? && !e.OrderRefunded? && !e.InviteRewarded?
  }

  datatype Event =
    | AccountOpened(user: UserId, initial: int)
    | InAccount(user: UserId, event: Accounts.Event)
    | OrderCreated(id: OrderId, user: UserId, provider: Provider, amount: int)
    | CallbackReceived(id: OrderId, tradeNo: string, amount: int)
    | MarkedPaid(id: OrderId)
    | RefundRequested(id: OrderId)
    | CloseRequested(id: OrderId, seen: OrderState)
    | InviteCreated(invite: InviteId, user: UserId, reward: int)
    | InviteRedeemed(invite: InviteId, user: UserId)

  ghost function Apply(prices: Accounts.Prices, b: Bank, e: Event): Bank {
    match e
    case AccountOpened(user, initial) =>
      if user in b.accounts then b else WithAccount(b, user, Accounts.Opened(initial))
    case InAccount(user, event) =>
      if user in b.accounts && Own(event)
      then WithAccount(b, user, Accounts.Apply(prices, b.accounts[user], event)) else b
    case OrderCreated(id, user, provider, amount) => CreateOrder(b, id, user, provider, amount)
    case CallbackReceived(id, tradeNo, amount) => Callback(b, id, tradeNo, amount)
    case MarkedPaid(id) => MarkPaid(b, id)
    case RefundRequested(id) => RefundOrder(b, id)
    case CloseRequested(id, seen) => CloseOrder(b, id, seen)
    case InviteCreated(invite, user, reward) => CreateInvite(b, invite, user, reward)
    case InviteRedeemed(invite, user) => RedeemInvite(b, invite, user)
  }

  ghost function Run(prices: Accounts.Prices, b: Bank, events: seq<Event>): Bank {
    if events == [] then b
    else Apply(prices, Run(prices, b, events[..|events| - 1]), events[|events| - 1])
  }

  function Empty(): Bank {
    Bank(map[], map[], map[])
  }
}
