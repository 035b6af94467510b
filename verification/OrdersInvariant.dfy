/** What every run of orders, refunds and invites keeps, across the tables and the ledgers. */
module OrdersInvariant {
  import opened Domain
  import opened Ledger
  import opened Orders
  import Accounts

  // ---------------------------------------------------------------- the parts

  predicate WasPaid(status: OrderState) {
    status in {Paid, Refunding, OrderState.Refunded}
  }

  /** The order's entries in a ledger: one top-up iff it was paid, one opposite refund iff refunded. */
  predicate OrderPosted(entries: seq<Entry>, id: OrderId, o: Order) {
    && Count(entries, Topup, OrderRef(id)) == (if WasPaid(o.status) then 1 else 0)
    && Recorded(entries, Topup, OrderRef(id)) == (if WasPaid(o.status) then o.amount else 0)
    && Count(entries, Refund, OrderRef(id)) == (if o.status == OrderState.Refunded then 1 else 0)
    && Recorded(entries, Refund, OrderRef(id)) == (if o.status == OrderState.Refunded then -o.amount else 0)
  }

  predicate NotPosted(entries: seq<Entry>, id: OrderId) {
    Count(entries, Topup, OrderRef(id)) == 0 && Count(entries, Refund, OrderRef(id)) == 0
  }

  /** The recorded events lead from pending to the present status along the transition table. */
  predicate EventsLead(events: seq<(OrderState, OrderState)>, status: OrderState) {
    if events == [] then status == Pending
    else
      var last := events[|events| - 1];
      last.1 == status && OrderEdge(last.0, last.1) && EventsLead(events[..|events| - 1], last.0)
  }

  /** The refund events start at processing and follow the refund table to `status`; None is no refund at all. */
  predicate RefundEventsLead(events: seq<(Option<RefundState>, RefundState)>, status: Option<RefundState>) {
    if events == [] then status == None
    else
      var front, last := events[..|events| - 1], events[|events| - 1];
      && status == Some(last.1) && RefundEventsLead(front, last.0)
      && (if last.0.None? then last.1 == RefundProcessing else RefundEdge(last.0.value, last.1))
  }

  predicate OrderHistory(o: Order) {
    && o.amount > 0 && o.status != Refunding && EventsLead(o.events, o.status)
    && RefundEventsLead(o.refund, if o.status == OrderState.Refunded then Some(RefundSucceeded) else None)
    && (o.providerRef.Some? ==> o.provider.Epay? && WasPaid(o.status))
  }

  predicate ReferencesUnshared(orders: map<OrderId, Order>) {
    forall i, j :: i in orders && j in orders && i != j && orders[i].providerRef.Some? ==>
      orders[i].providerRef != orders[j].providerRef
  }

  predicate InvitePosted(entries: seq<Entry>, id: InviteId, v: Invite) {
    && Count(entries, Bonus, InviteRef(id)) == (if v.invited.Some? && v.reward > 0 then 1 else 0)
    && Recorded(entries, Bonus, InviteRef(id)) == (if v.invited.Some? && v.reward > 0 then v.reward else 0)
  }

  predicate InvitesUnshared(invites: map<InviteId, Invite>) {
    && (forall i :: i in invites ==> invites[i].invited != Some(invites[i].inviter))
    && (forall i, j :: i in invites && j in invites && i != j && invites[i].invited.Some? ==>
          invites[i].invited != invites[j].invited)
  }

  ghost predicate OrdersHold(entries: seq<Entry>, user: UserId, orders: map<OrderId, Order>) {
    forall id: OrderId ::
      if id in orders && orders[id].user == user then OrderPosted(entries, id, orders[id]) else NotPosted(entries, id)
  }

  ghost predicate InvitesHold(entries: seq<Entry>, user: UserId, invites: map<InviteId, Invite>) {
    forall id: InviteId :: if id in invites && invites[id].inviter == user then InvitePosted(entries, id, invites[id])
                           else Count(entries, Bonus, InviteRef(id)) == 0
  }

  /** The ledger of one account holds the entries of its own orders and invites and of no others. */
  ghost predicate LedgerHolds(entries: seq<Entry>, user: UserId, orders: map<OrderId, Order>,
                              invites: map<InviteId, Invite>) {
    OrdersHold(entries, user, orders) && InvitesHold(entries, user, invites)
  }

  ghost predicate LedgersHold(accounts: map<UserId, Account>, orders: map<OrderId, Order>,
                              invites: map<InviteId, Invite>) {
    forall u :: u in accounts ==> LedgerHolds(accounts[u].wallet.entries, u, orders, invites)
  }

  predicate OrdersSane(users: set<UserId>, orders: map<OrderId, Order>) {
    && (forall id :: id in orders ==> orders[id].user in users && OrderHistory(orders[id]))
    && ReferencesUnshared(orders)
  }

  predicate InvitesSane(users: set<UserId>, invites: map<InviteId, Invite>) {
    && (forall id :: id in invites ==> invites[id].inviter in users)
    && InvitesUnshared(invites)
  }

  ghost predicate BankInv(b: Bank) {
    && LedgersHold(b.accounts, b.orders, b.invites)
    && OrdersSane(b.accounts.Keys, b.orders)
    && InvitesSane(b.accounts.Keys, b.invites)
  }

  // ---------------------------------------------------------------- ledgers

  /** The kinds of entry that belong to orders and invites. */
  predicate Foreign(kind: Kind, ref: Ref) {
    (kind in {Topup, Refund} && ref.OrderRef?) || (kind == Bonus && ref.InviteRef?)
  }

  lemma OwnEventsPostElsewhere(prices: Accounts.Prices, a: Account, e: Accounts.Event)
    requires Own(e)
    ensures var r := Accounts.Apply(prices, a, e).wallet.entries;
      r == a.wallet.entries || (|r| == |a.wallet.entries| + 1 && r[..|a.wallet.entries|] == a.wallet.entries
                                && !Foreign(r[|a.wallet.entries|].kind, r[|a.wallet.entries|].ref))
  {
  }

  lemma OrdersHoldElsewhere(entries: seq<Entry>, e: Entry, user: UserId, orders: map<OrderId, Order>)
    requires OrdersHold(entries, user, orders) && !(e.kind in {Topup, Refund} && e.ref.OrderRef?)
    ensures OrdersHold(entries + [e], user, orders)
  {
    forall kind, id | kind in {Topup, Refund}
      ensures Count(entries + [e], kind, OrderRef(id)) == Count(entries, kind, OrderRef(id))
      ensures Recorded(entries + [e], kind, OrderRef(id)) == Recorded(entries, kind, OrderRef(id))
    {
      Appended(entries, e, kind, OrderRef(id));
    }
  }

  lemma InvitesHoldElsewhere(entries: seq<Entry>, e: Entry, user: UserId, invites: map<InviteId, Invite>)
    requires InvitesHold(entries, user, invites) && !(e.kind == Bonus && e.ref.InviteRef?)
    ensures InvitesHold(entries + [e], user, invites)
  {
    forall id
      ensures Count(entries + [e], Bonus, InviteRef(id)) == Count(entries, Bonus, InviteRef(id))
      ensures Recorded(entries + [e], Bonus, InviteRef(id)) == Recorded(entries, Bonus, InviteRef(id))
    {
      Appended(entries, e, Bonus, InviteRef(id));
    }
  }

  lemma HoldsElsewhere(entries: seq<Entry>, e: Entry, user: UserId, orders: map<OrderId, Order>,
                       invites: map<InviteId, Invite>)
    requires LedgerHolds(entries, user, orders, invites) && !Foreign(e.kind, e.ref)
    ensures LedgerHolds(entries + [e], user, orders, invites)
  {
    OrdersHoldElsewhere(entries, e, user, orders);
    InvitesHoldElsewhere(entries, e, user, invites);
  }

  lemma {:induction false} CountZeroIsUnused(entries: seq<Entry>, kind: Kind, ref: Ref)
    requires Count(entries, kind, ref) == 0
    ensures Recorded(entries, kind, ref) == 0
  {
    if entries != [] { CountZeroIsUnused(entries[..|entries| - 1], kind, ref); }
  }

  /** A ledger that gains the entry of one order or invite still holds the others. */
  lemma OrderHeld(entries: seq<Entry>, e: Entry, user: UserId, orders: map<OrderId, Order>, id: OrderId, moved: Order)
    requires OrdersHold(entries, user, orders)
    requires id in orders && orders[id].user == user && moved.user == user
    requires e.ref == OrderRef(id) && OrderPosted(entries + [e], id, moved)
    ensures OrdersHold(entries + [e], user, orders[id := moved])
  {
    forall kind, other | other != id
      ensures Count(entries + [e], kind, OrderRef(other)) == Count(entries, kind, OrderRef(other))
      ensures Recorded(entries + [e], kind, OrderRef(other)) == Recorded(entries, kind, OrderRef(other))
    {
      Appended(entries, e, kind, OrderRef(other));
    }
  }

  lemma OrderEntryPosted(entries: seq<Entry>, e: Entry, user: UserId, orders: map<OrderId, Order>,
                         invites: map<InviteId, Invite>,
                         id: OrderId, moved: Order)
    requires LedgerHolds(entries, user, orders, invites)
    requires id in orders && orders[id].user == user && moved.user == user
    requires e.ref == OrderRef(id) && OrderPosted(entries + [e], id, moved)
    ensures LedgerHolds(entries + [e], user, orders[id := moved], invites)
  {
    OrderHeld(entries, e, user, orders, id, moved);
    InvitesHoldElsewhere(entries, e, user, invites);
  }

  lemma InviteHeld(entries: seq<Entry>, e: Entry, user: UserId, invites: map<InviteId, Invite>, id: InviteId,
                   used: Invite)
    requires InvitesHold(entries, user, invites)
    requires id in invites && invites[id].inviter == user && used.inviter == user
    requires e.ref == InviteRef(id) && InvitePosted(entries + [e], id, used)
    ensures InvitesHold(entries + [e], user, invites[id := used])
  {
    forall other | other != id
      ensures Count(entries + [e], Bonus, InviteRef(other)) == Count(entries, Bonus, InviteRef(other))
      ensures Recorded(entries + [e], Bonus, InviteRef(other)) == Recorded(entries, Bonus, InviteRef(other))
    {
      Appended(entries, e, Bonus, InviteRef(other));
    }
  }

  lemma InviteEntryPosted(entries: seq<Entry>, e: Entry, user: UserId, orders: map<OrderId, Order>,
                          invites: map<InviteId, Invite>,
                          id: InviteId, used: Invite)
    requires LedgerHolds(entries, user, orders, invites)
    requires id in invites && invites[id].inviter == user && used.inviter == user
    requires e.ref == InviteRef(id) && InvitePosted(entries + [e], id, used)
    ensures LedgerHolds(entries + [e], user, orders, invites[id := used])
  {
    OrdersHoldElsewhere(entries, e, user, orders);
    InviteHeld(entries, e, user, invites, id, used);
  }

  lemma OrderElsewhere(entries: seq<Entry>, user: UserId, orders: map<OrderId, Order>, invites: map<InviteId, Invite>,
                       id: OrderId, moved: Order)
    requires LedgerHolds(entries, user, orders, invites) && (id in orders ==> moved.user == orders[id].user)
    requires moved.user == user ==> OrderPosted(entries, id, moved)
    ensures LedgerHolds(entries, user, orders[id := moved], invites)
  {
  }

  lemma InviteElsewhere(entries: seq<Entry>, user: UserId, orders: map<OrderId, Order>, invites: map<InviteId, Invite>,
                        id: InviteId, used: Invite)
    requires LedgerHolds(entries, user, orders, invites) && (id in invites ==> used.inviter == invites[id].inviter)
    requires used.inviter == user ==> InvitePosted(entries, id, used)
    ensures LedgerHolds(entries, user, orders, invites[id := used])
  {
  }

  // ---------------------------------------------------------------- transactions

  lemma AccountReplaced(b: Bank, user: UserId, a: Account)
    requires BankInv(b) && LedgerHolds(a.wallet.entries, user, b.orders, b.invites)
    ensures BankInv(WithAccount(b, user, a))
  {
  }

  lemma OpenKeeps(b: Bank, user: UserId, initial: int)
    requires BankInv(b) && user !in b.accounts
    ensures BankInv(WithAccount(b, user, Accounts.Opened(initial)))
  {
    assert LedgerHolds([], user, b.orders, b.invites);
    var entries := Accounts.Opened(initial).wallet.entries;
    if entries != [] {
      assert entries == [] + [entries[0]];
      HoldsElsewhere([], entries[0], user, b.orders, b.invites);
    }
    AccountReplaced(b, user, Accounts.Opened(initial));
  }

  lemma OwnEventHolds(prices: Accounts.Prices, a: Account, e: Accounts.Event, user: UserId,
                      orders: map<OrderId, Order>, invites: map<InviteId, Invite>)
    requires Own(e) && LedgerHolds(a.wallet.entries, user, orders, invites)
    ensures LedgerHolds(Accounts.Apply(prices, a, e).wallet.entries, user, orders, invites)
  {
    OwnEventsPostElsewhere(prices, a, e);
    var r := Accounts.Apply(prices, a, e).wallet.entries;
    if r != a.wallet.entries {
      assert r == a.wallet.entries + [r[|a.wallet.entries|]];
      HoldsElsewhere(a.wallet.entries, r[|a.wallet.entries|], user, orders, invites);
    }
  }

  lemma OrderAdded(accounts: map<UserId, Account>, orders: map<OrderId, Order>, invites: map<InviteId, Invite>,
                   id: OrderId, o: Order)
    requires LedgersHold(accounts, orders, invites) && id !in orders && o.status == Pending
    ensures LedgersHold(accounts, orders[id := o], invites)
  {
    forall u | u in accounts ensures LedgerHolds(accounts[u].wallet.entries, u, orders[id := o], invites) {
      CountZeroIsUnused(accounts[u].wallet.entries, Topup, OrderRef(id));
      CountZeroIsUnused(accounts[u].wallet.entries, Refund, OrderRef(id));
      OrderElsewhere(accounts[u].wallet.entries, u, orders, invites, id, o);
    }
  }

  lemma CreateOrderKeeps(b: Bank, id: OrderId, user: UserId, provider: Provider, amount: int)
    requires BankInv(b)
    ensures BankInv(CreateOrder(b, id, user, provider, amount))
  {
    if id !in b.orders {
      OrderAdded(b.accounts, b.orders, b.invites, id, Order(user, provider, amount, Pending, None, [], []));
    }
  }

  /** A new row for one order, and a new wallet for its owner. */
  lemma OrderMoved(accounts: map<UserId, Account>, orders: map<OrderId, Order>, invites: map<InviteId, Invite>,
                   id: OrderId, moved: Order, a: Account)
    requires LedgersHold(accounts, orders, invites) && id in orders && moved.user == orders[id].user
    requires LedgerHolds(a.wallet.entries, moved.user, orders[id := moved], invites)
    ensures LedgersHold(accounts[moved.user := a], orders[id := moved], invites)
  {
    forall u | u in accounts && u != moved.user
      ensures LedgerHolds(accounts[u].wallet.entries, u, orders[id := moved], invites)
    {
      OrderElsewhere(accounts[u].wallet.entries, u, orders, invites, id, moved);
    }
  }

  /** A later row of one order, as far as the order tables go. */
  lemma OrderRowMoved(users: set<UserId>, orders: map<OrderId, Order>, id: OrderId, moved: Order)
    requires OrdersSane(users, orders) && id in orders && moved.user == orders[id].user && OrderHistory(moved)
    requires moved.providerRef.Some? ==> !ReferenceTaken(orders, moved.providerRef.value, id)
    requires forall j :: j in orders && orders[j].providerRef.Some? ==> orders[j].provider.Epay?
    ensures OrdersSane(users, orders[id := moved])
  {
  }

  lemma TopupPosted(w: Wallet, user: UserId, orders: map<OrderId, Order>, invites: map<InviteId, Invite>,
                    id: OrderId, moved: Order)
    requires LedgerHolds(w.entries, user, orders, invites) && id in orders && orders[id].user == user == moved.user
    requires orders[id].status == Pending && moved.status == Paid && moved.amount == orders[id].amount
    requires Add(w, Topup, OrderRef(id), moved.amount).Some?
    ensures LedgerHolds(Add(w, Topup, OrderRef(id), moved.amount).value.entries, user, orders[id := moved], invites)
  {
    var e := Entry(Topup, OrderRef(id), moved.amount, Wrap(w.balance + moved.amount));
    assert OrderPosted(w.entries, id, orders[id]);
    Appended(w.entries, e, Topup, OrderRef(id));
    Appended(w.entries, e, Refund, OrderRef(id));
    OrderEntryPosted(w.entries, e, user, orders, invites, id, moved);
  }

  lemma RefundPosted(w: Wallet, user: UserId, orders: map<OrderId, Order>, invites: map<InviteId, Invite>,
                     id: OrderId, moved: Order)
    requires LedgerHolds(w.entries, user, orders, invites) && id in orders && orders[id].user == user == moved.user
    requires orders[id].status == Paid && moved.status == OrderState.Refunded && moved.amount == orders[id].amount
    ensures LedgerHolds(Store(w, Refund, OrderRef(id), -moved.amount).entries, user, orders[id := moved], invites)
  {
    var e := Entry(Refund, OrderRef(id), -moved.amount, Wrap(w.balance - moved.amount));
    assert OrderPosted(w.entries, id, orders[id]);
    Appended(w.entries, e, Topup, OrderRef(id));
    Appended(w.entries, e, Refund, OrderRef(id));
    OrderEntryPosted(w.entries, e, user, orders, invites, id, moved);
  }

  lemma MovedHistory(o: Order, to: OrderState)
    requires EventsLead(o.events, o.status) && OrderEdge(o.status, to)
    ensures EventsLead(Moved(o, to).events, to)
  {
    assert Moved(o, to).events[..|o.events|] == o.events;
  }

  lemma SameUsers(accounts: map<UserId, Account>, user: UserId, a: Account)
    requires user in accounts
    ensures accounts[user := a].Keys == accounts.Keys
  {
  }

  /** The top-up of a pending order, whether or not it leaves a provider reference. */
  lemma PaidKeeps(b: Bank, id: OrderId, reference: Option<string>)
    requires BankInv(b) && id in b.orders && b.orders[id].status == Pending
    requires Crediting(b, b.orders[id].user, Topup, OrderRef(id), b.orders[id].amount)
    requires reference.Some? ==> b.orders[id].provider.Epay? && !ReferenceTaken(b.orders, reference.value, id)
    ensures var o := b.orders[id];
      BankInv(WithAccount(b, o.user, Accounts.CreditWallet(b.accounts[o.user], Topup, OrderRef(id), o.amount))
              .(orders := b.orders[id := Moved(o, Paid).(providerRef := reference)]))
  {
    var o := b.orders[id];
    var moved := Moved(o, Paid).(providerRef := reference);
    MovedHistory(o, Paid);
    OrderRowMoved(b.accounts.Keys, b.orders, id, moved);
    TopupPosted(b.accounts[o.user].wallet, o.user, b.orders, b.invites, id, moved);
    var credited := Accounts.CreditWallet(b.accounts[o.user], Topup, OrderRef(id), o.amount);
    OrderMoved(b.accounts, b.orders, b.invites, id, moved, credited);
    SameUsers(b.accounts, o.user, credited);
  }

  lemma CallbackKeeps(b: Bank, id: OrderId, tradeNo: string, amount: int)
    requires BankInv(b)
    ensures BankInv(Callback(b, id, tradeNo, amount))
  {
    if CallbackAnswer(b, id, tradeNo, amount).Success? {
      PaidKeeps(b, id, Some(tradeNo));
      var o := b.orders[id];
      assert b.orders[id := Moved(o, Paid)][id := Moved(o, Paid).(providerRef := Some(tradeNo))]
          == b.orders[id := Moved(o, Paid).(providerRef := Some(tradeNo))];
    }
  }

  lemma MarkPaidKeeps(b: Bank, id: OrderId)
    requires BankInv(b)
    ensures BankInv(MarkPaid(b, id))
  {
    if MarkPaidAnswer(b, id).Success? { PaidKeeps(b, id, None); }
  }

  lemma RefundHistory(o: Order)
    requires OrderHistory(o) && o.status == Paid
    ensures OrderHistory(RefundedRow(o)) && RefundedRow(o).user == o.user && RefundedRow(o).providerRef == o.providerRef
  {
    MovedHistory(o, Refunding);
    MovedHistory(Moved(o, Refunding), OrderState.Refunded);
    RefundMade();
  }

  lemma RefundMade()
    ensures RefundEventsLead([(None, RefundProcessing), (Some(RefundProcessing), RefundSucceeded)],
                             Some(RefundSucceeded))
  {
    var first: (Option<RefundState>, RefundState) := (None, RefundProcessing);
    var second: (Option<RefundState>, RefundState) := (Some(RefundProcessing), RefundSucceeded);
    assert [first, second][..1] == [first] && [first][..0] == [];
    assert RefundEventsLead([first], Some(RefundProcessing));
  }

  lemma RefundLedgersHold(accounts: map<UserId, Account>, orders: map<OrderId, Order>, invites: map<InviteId, Invite>,
                          id: OrderId, moved: Order, a: Account)
    requires LedgersHold(accounts, orders, invites) && id in orders && orders[id].user in accounts
    requires orders[id].status == Paid && moved.status == OrderState.Refunded
    requires moved.user == orders[id].user && moved.amount == orders[id].amount
    requires a.wallet == Store(accounts[moved.user].wallet, Refund, OrderRef(id), -moved.amount)
    ensures LedgersHold(accounts[moved.user := a], orders[id := moved], invites)
  {
    RefundPosted(accounts[moved.user].wallet, moved.user, orders, invites, id, moved);
    OrderMoved(accounts, orders, invites, id, moved, a);
  }

  lemma RefundOrdersSane(users: set<UserId>, orders: map<OrderId, Order>, id: OrderId)
    requires OrdersSane(users, orders) && id in orders && orders[id].status == Paid
    ensures OrdersSane(users, orders[id := RefundedRow(orders[id])])
  {
    RefundHistory(orders[id]);
    OrderRowMoved(users, orders, id, RefundedRow(orders[id]));
  }

  lemma RefundRowLedgers(b: Bank, id: OrderId, a: Account)
    requires BankInv(b) && id in b.orders && b.orders[id].status == Paid
    requires a.wallet == Store(b.accounts[b.orders[id].user].wallet, Refund, OrderRef(id), -b.orders[id].amount)
    ensures var o := b.orders[id];
      o.user in b.accounts && LedgersHold(b.accounts[o.user := a], b.orders[id := RefundedRow(o)], b.invites)
  {
    RefundHistory(b.orders[id]);
    RefundLedgersHold(b.accounts, b.orders, b.invites, id, RefundedRow(b.orders[id]), a);
  }

  lemma RefundRowKeeps(b: Bank, id: OrderId, a: Account)
    requires BankInv(b) && id in b.orders && b.orders[id].status == Paid
    requires a.wallet == Store(b.accounts[b.orders[id].user].wallet, Refund, OrderRef(id), -b.orders[id].amount)
    ensures BankInv(WithAccount(b, b.orders[id].user, a).(orders := b.orders[id := RefundedRow(b.orders[id])]))
  {
    RefundOrdersSane(b.accounts.Keys, b.orders, id);
    RefundRowLedgers(b, id, a);
    SameUsers(b.accounts, b.orders[id].user, a);
  }

  lemma RefundKeeps(b: Bank, id: OrderId)
    requires BankInv(b)
    ensures BankInv(RefundOrder(b, id))
  {
    if RefundAnswer(b, id).Success? {
      var o := b.orders[id];
      RefundRowKeeps(b, id, Accounts.DebitRefund(b.accounts[o.user], id, o.amount));
    }
  }

  lemma CloseKeeps(b: Bank, id: OrderId, seen: OrderState)
    requires BankInv(b)
    ensures BankInv(CloseOrder(b, id, seen))
  {
    if id in b.orders && ClosePayment(b.orders[id].provider, seen) && b.orders[id].status == Pending {
      var o := b.orders[id];
      var moved := Moved(o, Closed);
      MovedHistory(o, Closed);
      OrderRowMoved(b.accounts.Keys, b.orders, id, moved);
      assert OrderPosted(b.accounts[o.user].wallet.entries, id, o);
      OrderElsewhere(b.accounts[o.user].wallet.entries, o.user, b.orders, b.invites, id, moved);
      OrderMoved(b.accounts, b.orders, b.invites, id, moved, b.accounts[o.user]);
      assert b.accounts[o.user := b.accounts[o.user]] == b.accounts;
    }
  }

  lemma InviteAdded(accounts: map<UserId, Account>, orders: map<OrderId, Order>, invites: map<InviteId, Invite>,
                    id: InviteId, v: Invite)
    requires LedgersHold(accounts, orders, invites) && id !in invites && v.invited.None?
    ensures LedgersHold(accounts, orders, invites[id := v])
  {
    forall u | u in accounts ensures LedgerHolds(accounts[u].wallet.entries, u, orders, invites[id := v]) {
      CountZeroIsUnused(accounts[u].wallet.entries, Bonus, InviteRef(id));
      InviteElsewhere(accounts[u].wallet.entries, u, orders, invites, id, v);
    }
  }

  lemma CreateInviteKeeps(b: Bank, id: InviteId, inviter: UserId, reward: int)
    requires BankInv(b)
    ensures BankInv(CreateInvite(b, id, inviter, reward))
  {
    if id !in b.invites { InviteAdded(b.accounts, b.orders, b.invites, id, Invite(inviter, reward, None)); }
  }

  lemma InviteUsed(accounts: map<UserId, Account>, orders: map<OrderId, Order>, invites: map<InviteId, Invite>,
                   id: InviteId, used: Invite, a: Account)
    requires LedgersHold(accounts, orders, invites) && id in invites && used.inviter == invites[id].inviter
    requires LedgerHolds(a.wallet.entries, used.inviter, orders, invites[id := used])
    ensures LedgersHold(accounts[used.inviter := a], orders, invites[id := used])
  {
    forall u | u in accounts && u != used.inviter
      ensures LedgerHolds(accounts[u].wallet.entries, u, orders, invites[id := used])
    {
      InviteElsewhere(accounts[u].wallet.entries, u, orders, invites, id, used);
    }
  }

  lemma RewardPosted(a: Account, orders: map<OrderId, Order>, invites: map<InviteId, Invite>, id: InviteId,
                     used: Invite)
    requires id in invites && LedgerHolds(a.wallet.entries, used.inviter, orders, invites)
    requires invites[id].invited.None? && used.invited.Some? && used.inviter == invites[id].inviter
    requires used.reward == invites[id].reward
    requires used.reward > 0 ==> Add(a.wallet, Bonus, InviteRef(id), used.reward).Some?
    ensures var r := if used.reward > 0 then Accounts.CreditWallet(a, Bonus, InviteRef(id), used.reward) else a;
      LedgerHolds(r.wallet.entries, used.inviter, orders, invites[id := used])
  {
    assert InvitePosted(a.wallet.entries, id, invites[id]);
    if used.reward > 0 {
      var e := Entry(Bonus, InviteRef(id), used.reward, Wrap(a.wallet.balance + used.reward));
      Appended(a.wallet.entries, e, Bonus, InviteRef(id));
      InviteEntryPosted(a.wallet.entries, e, used.inviter, orders, invites, id, used);
    } else {
      InviteElsewhere(a.wallet.entries, used.inviter, orders, invites, id, used);
    }
  }

  lemma RedeemedSane(users: set<UserId>, invites: map<InviteId, Invite>, id: InviteId, user: UserId)
    requires InvitesSane(users, invites) && id in invites && invites[id].inviter != user && !HasRedeemed(invites, user)
    ensures InvitesSane(users, invites[id := invites[id].(invited := Some(user))])
  {
  }

  lemma RedeemLedgersHold(b: Bank, id: InviteId, user: UserId)
    requires LedgersHold(b.accounts, b.orders, b.invites) && RedeemAnswer(b, id, user).Success?
    ensures LedgersHold(RedeemInvite(b, id, user).accounts, b.orders, RedeemInvite(b, id, user).invites)
  {
    var used := b.invites[id].(invited := Some(user));
    var a := b.accounts[used.inviter];
    RewardPosted(a, b.orders, b.invites, id, used);
    InviteUsed(b.accounts, b.orders, b.invites, id, used,
               if used.reward > 0 then Accounts.CreditWallet(a, Bonus, InviteRef(id), used.reward) else a);
  }

  lemma RedeemKeeps(b: Bank, id: InviteId, user: UserId)
    requires BankInv(b)
    ensures BankInv(RedeemInvite(b, id, user))
  {
    if RedeemAnswer(b, id, user).Success? {
      RedeemedSane(b.accounts.Keys, b.invites, id, user);
      RedeemLedgersHold(b, id, user);
      assert b.accounts.Keys + {b.invites[id].inviter} == b.accounts.Keys;
    }
  }

  // ---------------------------------------------------------------- runs

  lemma StepKeeps(prices: Accounts.Prices, b: Bank, e: Event)
    requires BankInv(b)
    ensures BankInv(Apply(prices, b, e))
  {
    match e
    case AccountOpened(user, initial) => if user !in b.accounts { OpenKeeps(b, user, initial); }
    case InAccount(user, event) =>
      if user in b.accounts && Own(event) {
        OwnEventHolds(prices, b.accounts[user], event, user, b.orders, b.invites);
        AccountReplaced(b, user, Accounts.Apply(prices, b.accounts[user], event));
      }
    case OrderCreated(id, user, provider, amount) => CreateOrderKeeps(b, id, user, provider, amount);
    case CallbackReceived(id, tradeNo, amount) => CallbackKeeps(b, id, tradeNo, amount);
    case MarkedPaid(id) => MarkPaidKeeps(b, id);
    case RefundRequested(id) => RefundKeeps(b, id);
    case CloseRequested(id, seen) => CloseKeeps(b, id, seen);
    case InviteCreated(invite, user, reward) => CreateInviteKeeps(b, invite, user, reward);
    case InviteRedeemed(invite, user) => RedeemKeeps(b, invite, user);
  }

  /** In every run each order has one top-up iff it was paid and one equal and opposite refund iff it
      was refunded, its events follow the transition table, and no provider reference is shared. */
  lemma {:induction false} RunKeeps(prices: Accounts.Prices, events: seq<Event>)
    ensures BankInv(Run(prices, Empty(), events))
  {
    if events != [] {
      RunKeeps(prices, events[..|events| - 1]);
      StepKeeps(prices, Run(prices, Empty(), events[..|events| - 1]), events[|events| - 1]);
    }
  }

  // ---------------------------------------------------------------- replays

  /** No event takes an order back from paid, or from refunded, or changes whose it is and what it is worth. */
  predicate Later(o: Order, p: Order) {
    && p.user == o.user && p.provider == o.provider && p.amount == o.amount
    && (WasPaid(o.status) ==> WasPaid(p.status))
    && (o.status == OrderState.Refunded ==> p.status == OrderState.Refunded)
  }

  lemma StepMovesOn(prices: Accounts.Prices, b: Bank, e: Event, id: OrderId)
    requires id in b.orders
    ensures id in Apply(prices, b, e).orders && Later(b.orders[id], Apply(prices, b, e).orders[id])
  {
  }

  lemma {:induction false} RunMovesOn(prices: Accounts.Prices, b: Bank, events: seq<Event>, id: OrderId)
    requires id in b.orders
    ensures id in Run(prices, b, events).orders && Later(b.orders[id], Run(prices, b, events).orders[id])
  {
    if events != [] {
      RunMovesOn(prices, b, events[..|events| - 1], id);
      StepMovesOn(prices, Run(prices, b, events[..|events| - 1]), events[|events| - 1], id);
    }
  }

  /** Once an order was paid, confirming it again and any callback for it change nothing, whatever has
      happened since; and once it was refunded, neither does another request to refund it. */
  lemma ReplaysChangeNothing(prices: Accounts.Prices, b: Bank, events: seq<Event>, id: OrderId, tradeNo: string,
                             amount: int)
    requires id in b.orders && WasPaid(b.orders[id].status)
    ensures var c := Run(prices, b, events);
      && MarkPaid(c, id) == c && Callback(c, id, tradeNo, amount) == c
      && (b.orders[id].status == OrderState.Refunded ==> RefundOrder(c, id) == c && RefundAnswer(c, id).Idempotent?)
  {
    RunMovesOn(prices, b, events, id);
  }

  /** The calls that go through leave the order paid or refunded, so the statement above covers their replays. */
  lemma SuccessIsRecorded(b: Bank, id: OrderId, tradeNo: string, amount: int)
    ensures CallbackAnswer(b, id, tradeNo, amount).Success? ==>
      id in Callback(b, id, tradeNo, amount).orders && Callback(b, id, tradeNo, amount).orders[id].status == Paid
    ensures MarkPaidAnswer(b, id).Success? ==> id in MarkPaid(b, id).orders && MarkPaid(b, id).orders[id].status == Paid
    ensures RefundAnswer(b, id).Success? ==>
      id in RefundOrder(b, id).orders && RefundOrder(b, id).orders[id].status == OrderState.Refunded
  {
  }

  /** Money moved by one order: nothing before it is paid, its amount while it is paid, nothing net once refunded. */
  lemma OrderNets(prices: Accounts.Prices, events: seq<Event>, id: OrderId)
    requires id in Run(prices, Empty(), events).orders
    ensures var b := Run(prices, Empty(), events); var o := b.orders[id];
      && o.user in b.accounts
      && var entries := b.accounts[o.user].wallet.entries;
      && Recorded(entries, Topup, OrderRef(id)) + Recorded(entries, Refund, OrderRef(id))
         == (if o.status == Paid then o.amount else 0)
      && forall u :: u in b.accounts && u != o.user ==> NotPosted(b.accounts[u].wallet.entries, id)
  {
    RunKeeps(prices, events);
    var b := Run(prices, Empty(), events);
    var o := b.orders[id];
    assert OrderPosted(b.accounts[o.user].wallet.entries, id, o);
  }
}
