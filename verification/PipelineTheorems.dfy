/** Every accepted byte is charged at most once, and what is charged reads back to what was accepted. */
module PipelineTheorems {
  import opened Domain
  import opened Accounts
  import opened AccountsInvariant
  import opened Pipeline
  import Metering
  import MeteringInvariant

  // ---------------------------------------------------------------- one table seen from two sides

  lemma KeyOfSlot(key: Key)
    ensures KeyAt(SlotOf(key), key.price) == key
  {
  }

  predicate SameRow(g: Metering.Aggregate, u: Usage) {
    && g.quantity == u.quantity
    && (g.disposition.Unbilled? <==> u.disposition.Unbilled?)
    && (g.disposition.Billed? <==> u.disposition.Charged?)
    && (g.sealed <==> !g.disposition.Unbilled?)
  }

  predicate InTable(aggregates: map<Key, Metering.Aggregate>, u: Usage) {
    var key := KeyAt(u.slot, u.price);
    SlotOf(key) == u.slot && key in aggregates && SameRow(aggregates[key], u)
  }

  ghost predicate Aligned(aggregates: map<Key, Metering.Aggregate>, usage: seq<Usage>) {
    && (forall i :: 0 <= i < |usage| ==> InTable(aggregates, usage[i]))
    && (forall key :: key in aggregates ==> HasUsage(usage, SlotOf(key), key.price))
  }

  ghost predicate JoinedInv(prices: Prices, s: Joined) {
    && MeteringInvariant.Inv(s.meter) && AccountInv(prices, s.account)
    && Aligned(s.meter.aggregates, s.account.usage)
    && forall app :: ChargedBytes(s.account.charges, app) == EventBytes(s.meter.events, s.meter.aggregates, app, true)
  }

  // ---------------------------------------------------------------- aggregation

  function NewAggregate(key: Key, quantity: nat): Metering.Aggregate {
    if key.price.None? then Metering.Aggregate(quantity, true, Metering.Unpriced)
    else Metering.Aggregate(quantity, false, Metering.Unbilled)
  }

  function NewUsage(key: Key, quantity: nat): Usage {
    Usage(SlotOf(key), key.price, quantity, if key.price.None? then Unpriced else Unbilled)
  }

  lemma RowAppended(aggregates: map<Key, Metering.Aggregate>, usage: seq<Usage>, key: Key, quantity: nat)
    requires Aligned(aggregates, usage) && key !in aggregates
    ensures !HasUsage(usage, SlotOf(key), key.price)
    ensures Aligned(aggregates[key := NewAggregate(key, quantity)], usage + [NewUsage(key, quantity)])
  {
    KeyOfSlot(key);
    forall i | 0 <= i < |usage| ensures KeyAt(usage[i].slot, usage[i].price) != key {
      assert InTable(aggregates, usage[i]);
    }
    var more, rows := aggregates[key := NewAggregate(key, quantity)], usage + [NewUsage(key, quantity)];
    forall k | k in more ensures HasUsage(rows, SlotOf(k), k.price) {
      if k == key {
        assert rows[|usage|].slot == SlotOf(key);
      } else {
        var i :| 0 <= i < |usage| && usage[i].slot == SlotOf(k) && usage[i].price == k.price;
        assert rows[i] == usage[i];
      }
    }
  }

  /** The aggregates once the groups of `keys` are written. */
  function Written(m: Metering.Meter, claimed: set<nat>, keys: seq<Key>): map<Key, Metering.Aggregate> {
    if keys == [] then m.aggregates else
      var key := keys[|keys| - 1];
      Written(m, claimed, keys[..|keys| - 1])[key := NewAggregate(key, Metering.GroupSum(m.events, claimed, key))]
  }

  predicate FreshKeys(m: Metering.Meter, keys: seq<Key>) {
    && (forall i, j :: 0 <= i < j < |keys| ==> keys[i] != keys[j])
    && (forall i :: 0 <= i < |keys| ==> keys[i] !in m.aggregates)
  }

  lemma {:induction false} WrittenKeys(m: Metering.Meter, claimed: set<nat>, keys: seq<Key>, key: Key)
    requires FreshKeys(m, keys)
    ensures key in Written(m, claimed, keys) <==> key in m.aggregates || key in keys
    ensures key in keys ==>
      Written(m, claimed, keys)[key] == NewAggregate(key, Metering.GroupSum(m.events, claimed, key))
    ensures key in m.aggregates ==> Written(m, claimed, keys)[key] == m.aggregates[key]
  {
    if keys != [] {
      WrittenKeys(m, claimed, keys[..|keys| - 1], key);
      assert keys == keys[..|keys| - 1] + [keys[|keys| - 1]];
    }
  }

  lemma {:induction false} GroupsAlign(prices: Prices, m: Metering.Meter, a: Account, claimed: set<nat>, keys: seq<Key>)
    requires AccountInv(prices, a) && Aligned(m.aggregates, a.usage) && FreshKeys(m, keys)
    ensures AccountInv(prices, Grouped(m, a, claimed, keys))
    ensures Aligned(Written(m, claimed, keys), Grouped(m, a, claimed, keys).usage)
    ensures Grouped(m, a, claimed, keys).charges == a.charges
  {
    if keys != [] {
      var front, key := keys[..|keys| - 1], keys[|keys| - 1];
      var quantity := Metering.GroupSum(m.events, claimed, key);
      GroupsAlign(prices, m, a, claimed, front);
      WrittenKeys(m, claimed, front, key);
      RowAppended(Written(m, claimed, front), Grouped(m, a, claimed, front).usage, key, quantity);
      AggregateKeeps(prices, Grouped(m, a, claimed, front), SlotOf(key), key.price, quantity);
    }
  }

  lemma {:induction false} Listed(keys: set<Key>) returns (list: seq<Key>)
    ensures forall i, j :: 0 <= i < j < |list| ==> list[i] != list[j]
    ensures forall key :: key in list <==> key in keys
  {
    if keys == {} { return []; }
    var key :| key in keys;
    var rest := Listed(keys - {key});
    list := rest + [key];
  }

  /** Whatever was claimed, its groups can be written. */
  lemma GroupsCanBeListed(m: Metering.Meter, claimed: set<nat>) returns (keys: seq<Key>)
    requires Metering.Claimable(m, claimed)
    ensures ListsGroups(m, claimed, keys)
  {
    keys := Listed(Metering.ClaimedKeys(m, claimed));
    assert (set key | key in keys) == Metering.ClaimedKeys(m, claimed);
  }

  lemma GroupsAreFresh(m: Metering.Meter, claimed: set<nat>, keys: seq<Key>)
    requires MeteringInvariant.Inv(m) && ListsGroups(m, claimed, keys)
    ensures FreshKeys(m, keys) && Written(m, claimed, keys) == Metering.AggregateUsage(m, claimed).aggregates
  {
    MeteringInvariant.ClaimsAreNew(m, claimed);
    var listed := set key | key in keys;
    forall i | 0 <= i < |keys| ensures keys[i] !in m.aggregates { assert keys[i] in listed; }
    forall key ensures key in Written(m, claimed, keys) <==> key in Metering.AggregateUsage(m, claimed).aggregates
    {
      WrittenKeys(m, claimed, keys, key);
      assert key in keys <==> key in listed;
    }
    forall key | key in Written(m, claimed, keys)
      ensures Written(m, claimed, keys)[key] == Metering.AggregateUsage(m, claimed).aggregates[key]
    {
      WrittenKeys(m, claimed, keys, key);
      assert key in keys <==> key in listed;
    }
  }

  // ---------------------------------------------------------------- bytes under the steps

  ghost predicate SameBilled(before: map<Key, Metering.Aggregate>, after: map<Key, Metering.Aggregate>) {
    forall key :: IsBilled(before, key) == IsBilled(after, key)
  }

  lemma {:induction false} FlagsMoveNothing(events: seq<Metering.UsageEvent>, claimed: set<nat>,
                                            before: map<Key, Metering.Aggregate>, after: map<Key, Metering.Aggregate>,
                                            app: nat, billed: bool)
    requires SameBilled(before, after)
    ensures EventBytes(Metering.Aggregated(events, claimed), after, app, billed)
         == EventBytes(events, before, app, billed)
  {
    if events != [] {
      var front := events[..|events| - 1];
      FlagsMoveNothing(front, claimed, before, after, app, billed);
      assert Metering.Aggregated(events, claimed)[..|events| - 1] == Metering.Aggregated(front, claimed);
    }
  }

  lemma {:induction false} NotThere(events: seq<Metering.UsageEvent>, before: map<Key, Metering.Aggregate>, key: Key,
                                    g: Metering.Aggregate, app: nat)
    requires forall i :: 0 <= i < |events| ==> Metering.KeyOf(events[i]) != key
    ensures EventBytes(events, before[key := g], app, true) == EventBytes(events, before, app, true)
  {
    if events != [] { NotThere(events[..|events| - 1], before, key, g, app); }
  }

  /** Billing the aggregate of one event moves exactly the bytes of that event. */
  lemma {:induction false} BilledMoves(events: seq<Metering.UsageEvent>, before: map<Key, Metering.Aggregate>, key: Key,
                                       g: Metering.Aggregate, app: nat, i: nat)
    requires MeteringInvariant.EventsUnique(events) && i < |events| && Metering.KeyOf(events[i]) == key
    requires !IsBilled(before, key) && g.disposition.Billed?
    ensures EventBytes(events, before[key := g], app, true)
         == EventBytes(events, before, app, true)
            + if key.app == app && key.code == Metering.Egress then Metering.BytesOf(events[i].quantity) else 0
  {
    var front := events[..|events| - 1];
    if i < |front| {
      BilledMoves(front, before, key, g, app, i);
      assert Metering.KeyOf(events[|front|]) != key;
    } else {
      NotThere(front, before, key, g, app);
    }
  }

  lemma {:induction false} OneEventAggregated(events: seq<Metering.UsageEvent>, key: Key, i: nat)
    requires MeteringInvariant.EventsUnique(events) && i < |events|
    requires events[i].aggregated && Metering.KeyOf(events[i]) == key
    ensures Metering.AggregatedSum(events, key) == events[i].quantity
  {
    var front := events[..|events| - 1];
    if i < |front| {
      OneEventAggregated(front, key, i);
      assert Metering.KeyOf(events[|front|]) != key;
    } else {
      NoneAggregated(front, key);
    }
  }

  lemma {:induction false} NoneAggregated(events: seq<Metering.UsageEvent>, key: Key)
    requires forall i :: 0 <= i < |events| ==> Metering.KeyOf(events[i]) != key
    ensures Metering.AggregatedSum(events, key) == 0
  {
    if events != [] { NoneAggregated(events[..|events| - 1], key); }
  }

  /** The event behind an aggregate: there is one, and its quantity is the aggregate's. */
  lemma EventBehind(m: Metering.Meter, key: Key) returns (i: nat)
    requires MeteringInvariant.Inv(m) && key in m.aggregates
    ensures i < |m.events| && m.events[i].aggregated && Metering.KeyOf(m.events[i]) == key
    ensures m.events[i].quantity == m.aggregates[key].quantity
  {
    assert MeteringInvariant.HasAggregated(m.events, key);
    i :| 0 <= i < |m.events| && m.events[i].aggregated && Metering.KeyOf(m.events[i]) == key;
    OneEventAggregated(m.events, key, i);
  }

  // ---------------------------------------------------------------- one lemma per step

  /** The aggregates are the same and so are the bytes billed through them. */
  ghost predicate BilledAlike(m: Metering.Meter, n: Metering.Meter) {
    && n.aggregates == m.aggregates
    && forall app :: EventBytes(n.events, n.aggregates, app, true) == EventBytes(m.events, m.aggregates, app, true)
  }

  lemma RecordMovesNothing(m: Metering.Meter, app: nat, code: Metering.Code, window: int, quantity: nat,
                           price: Option<PriceId>)
    requires MeteringInvariant.AggregatesAgree(m.events, m.aggregates)
    ensures BilledAlike(m, Metering.Record(m, app, code, window, quantity, price))
  {
    var n := Metering.Record(m, app, code, window, quantity, price);
    if n != m {
      assert n.events[..|m.events|] == m.events;
      assert Metering.Key(app, code, window, price) !in m.aggregates;
    }
  }

  lemma EgressMovesNothing(m: Metering.Meter, app: nat, window: int, price: Option<PriceId>)
    requires MeteringInvariant.AggregatesAgree(m.events, m.aggregates)
    ensures BilledAlike(m, Metering.MeterWindow(m, app, window, price))
  {
    var delta := Metering.PendingBytes(m.samples, app, window);
    RecordMovesNothing(m, app, Metering.Egress, window, Metering.GiBUnits(delta), price);
  }

  lemma ResourceMovesNothing(m: Metering.Meter, app: nat, code: Metering.Code, quantity: nat, price: Option<PriceId>)
    requires MeteringInvariant.AggregatesAgree(m.events, m.aggregates)
    ensures BilledAlike(m, Metering.MeterResource(m, app, code, quantity, price))
  {
    RecordMovesNothing(m, app, code, Metering.Truncate(m.now) - Metering.WINDOW, quantity, price);
  }

  lemma SealsNothing(aggregates: map<Key, Metering.Aggregate>, usage: seq<Usage>, m: Metering.Meter)
    requires Aligned(aggregates, usage) && UsageDistinct(usage) && m.aggregates == aggregates
    ensures Metering.SealUnpriced(m) == m
  {
    forall key | key in aggregates ensures key.price.None? ==> aggregates[key].sealed {
      var i :| 0 <= i < |usage| && usage[i].slot == SlotOf(key) && usage[i].price == key.price;
      KeyOfSlot(key);
      assert InTable(aggregates, usage[i]);
    }
    assert Metering.SealUnpriced(m).aggregates == m.aggregates;
  }

  /** No meter but the aggregation changes an aggregate, and new events have new keys. */
  lemma MeteringMovesNothing(m: Metering.Meter, usage: seq<Usage>, e: Metering.Event)
    requires MeteringInvariant.AggregatesAgree(m.events, m.aggregates)
    requires Aligned(m.aggregates, usage) && UsageDistinct(usage) && !e.UsageAggregated? && !e.AggregateBilled?
    ensures BilledAlike(m, Metering.Apply(m, e))
  {
    match e
    case EgressMetered(app, window, price) => EgressMovesNothing(m, app, window, price);
    case ResourceMetered(app, code, quantity, price) => ResourceMovesNothing(m, app, code, quantity, price);
    case UnpricedSealed => SealsNothing(m.aggregates, usage, m);
    case _ =>
  }

  lemma MeterReplaced(prices: Prices, s: Joined, n: Metering.Meter)
    requires JoinedInv(prices, s) && MeteringInvariant.Inv(n) && BilledAlike(s.meter, n)
    ensures JoinedInv(prices, s.(meter := n))
  {
  }

  lemma JoinedParts(prices: Prices, s: Joined)
    requires JoinedInv(prices, s)
    ensures MeteringInvariant.AggregatesAgree(s.meter.events, s.meter.aggregates) && UsageDistinct(s.account.usage)
  {
  }

  lemma MeteredKeeps(prices: Prices, s: Joined, e: Metering.Event)
    requires JoinedInv(prices, s) && !e.UsageAggregated? && !e.AggregateBilled?
    ensures JoinedInv(prices, s.(meter := Metering.Apply(s.meter, e)))
  {
    JoinedParts(prices, s);
    MeteringInvariant.ApplyKeeps(s.meter, e);
    MeteringMovesNothing(s.meter, s.account.usage, e);
    MeterReplaced(prices, s, Metering.Apply(s.meter, e));
  }

  lemma MetersKeeps(prices: Prices, s: Joined, e: Metering.Event)
    requires JoinedInv(prices, s)
    ensures JoinedInv(prices, Pipeline.Apply(prices, s, Meters(e)))
  {
    if !e.UsageAggregated? && !e.AggregateBilled? { MeteredKeeps(prices, s, e); }
  }

  lemma AggregatingMovesNothing(m: Metering.Meter, claimed: set<nat>, app: nat)
    requires MeteringInvariant.Inv(m) && Metering.Claimable(m, claimed)
    ensures var n := Metering.AggregateUsage(m, claimed);
      EventBytes(n.events, n.aggregates, app, true) == EventBytes(m.events, m.aggregates, app, true)
  {
    MeteringInvariant.ClaimsAreNew(m, claimed);
    FlagsMoveNothing(m.events, claimed, m.aggregates, Metering.AggregateUsage(m, claimed).aggregates, app, true);
  }

  lemma AggregatesKeeps(prices: Prices, s: Joined, claimed: set<nat>, keys: seq<Key>)
    requires JoinedInv(prices, s)
    ensures JoinedInv(prices, Pipeline.Apply(prices, s, Aggregates(claimed, keys)))
  {
    if ListsGroups(s.meter, claimed, keys) {
      MeteringInvariant.AggregateKeeps(s.meter, claimed);
      GroupsAreFresh(s.meter, claimed, keys);
      GroupsAlign(prices, s.meter, s.account, claimed, keys);
      forall app { AggregatingMovesNothing(s.meter, claimed, app); }
    }
  }

  lemma BilledAligned(m: Metering.Meter, usage: seq<Usage>, i: nat)
    requires Aligned(m.aggregates, usage) && UsageDistinct(usage) && i < |usage|
    requires usage[i].disposition.Unbilled? && usage[i].price.Some?
    ensures Aligned(Metering.SealBilled(m, KeyAt(usage[i].slot, usage[i].price)).aggregates,
                    usage[i := usage[i].(disposition := Charged)])
  {
    var key := KeyAt(usage[i].slot, usage[i].price);
    var after := usage[i := usage[i].(disposition := Charged)];
    var sealed := Metering.SealBilled(m, key).aggregates;
    assert InTable(m.aggregates, usage[i]);
    forall j | 0 <= j < |after| ensures InTable(sealed, after[j]) {
      assert InTable(m.aggregates, usage[j]);
    }
    forall k | k in sealed ensures HasUsage(after, SlotOf(k), k.price) {
      var j :| 0 <= j < |usage| && usage[j].slot == SlotOf(k) && usage[j].price == k.price;
      assert after[j].slot == SlotOf(k) && after[j].price == k.price;
    }
  }

  lemma ChargeAppended(charges: seq<Charge>, c: Charge, app: nat)
    ensures ChargedBytes(charges + [c], app)
         == ChargedBytes(charges, app) + if OfEgress(c.slot, app) then Metering.BytesOf(c.quantity) else 0
  {
    assert (charges + [c])[..|charges|] == charges;
  }

  lemma SealKeepsMeter(m: Metering.Meter, key: Key)
    requires MeteringInvariant.Inv(m)
    ensures MeteringInvariant.Inv(Metering.SealBilled(m, key))
  {
    MeteringInvariant.BilledKeeps(m, key);
  }

  /** A charge takes over the bytes of the event behind its row. */
  lemma ChargeMovesBytes(m: Metering.Meter, usage: seq<Usage>, charges: seq<Charge>, i: nat, amount: nat, app: nat)
    requires MeteringInvariant.Inv(m) && Aligned(m.aggregates, usage) && i < |usage|
    requires usage[i].disposition.Unbilled? && usage[i].price.Some?
    requires ChargedBytes(charges, app) == EventBytes(m.events, m.aggregates, app, true)
    ensures var u := usage[i];
      var n := Metering.SealBilled(m, KeyAt(u.slot, u.price));
      ChargedBytes(charges + [Charge(u.slot, u.price.value, u.quantity, amount)], app)
      == EventBytes(n.events, n.aggregates, app, true)
  {
    var u := usage[i];
    var key := KeyAt(u.slot, u.price);
    assert InTable(m.aggregates, u);
    var e := EventBehind(m, key);
    ChargeAppended(charges, Charge(u.slot, u.price.value, u.quantity, amount), app);
    BilledMoves(m.events, m.aggregates, key, Metering.SealBilled(m, key).aggregates[key], app, e);
  }

  lemma SettledRow(prices: Prices, a: Account, i: nat, now: int)
    requires BillingOutcome(prices, a, i, now).Settled?
    ensures i < |a.usage| && a.usage[i].disposition.Unbilled? && a.usage[i].price.Some?
    ensures var u := a.usage[i]; var b := BillUsage(prices, a, i, now);
      && b.usage == a.usage[i := u.(disposition := Charged)]
      && b.charges == a.charges + [Charge(u.slot, u.price.value, u.quantity, Price(prices[u.price.value], u.quantity))]
  {
  }

  lemma UnsettledRow(prices: Prices, a: Account, i: nat, now: int)
    requires !BillingOutcome(prices, a, i, now).Settled?
    ensures BillUsage(prices, a, i, now).usage == a.usage && BillUsage(prices, a, i, now).charges == a.charges
  {
  }

  lemma BillsKeeps(prices: Prices, s: Joined, i: nat, now: int)
    requires JoinedInv(prices, s)
    ensures JoinedInv(prices, Pipeline.Apply(prices, s, Bills(i, now)))
  {
    BillUsageKeeps(prices, s.account, i, now);
    if BillingOutcome(prices, s.account, i, now).Settled? {
      var u := s.account.usage[i];
      SettledRow(prices, s.account, i, now);
      BilledAligned(s.meter, s.account.usage, i);
      SealKeepsMeter(s.meter, KeyAt(u.slot, u.price));
      forall app {
        ChargeMovesBytes(s.meter, s.account.usage, s.account.charges, i, Price(prices[u.price.value], u.quantity), app);
      }
    } else {
      UnsettledRow(prices, s.account, i, now);
    }
  }

  lemma PaysLeavesUsage(prices: Prices, a: Account, e: Accounts.Event)
    requires !e.UsageAggregated? && !e.UsageBilled?
    ensures Accounts.Apply(prices, a, e).usage == a.usage && Accounts.Apply(prices, a, e).charges == a.charges
  {
  }

  lemma PaysKeeps(prices: Prices, s: Joined, e: Accounts.Event)
    requires JoinedInv(prices, s)
    ensures JoinedInv(prices, Pipeline.Apply(prices, s, Pays(e)))
  {
    if !e.UsageAggregated? && !e.UsageBilled? {
      StepKeeps(prices, s.account, e);
      PaysLeavesUsage(prices, s.account, e);
    }
  }

  lemma JoinedStepKeeps(prices: Prices, s: Joined, e: Pipeline.Event)
    requires JoinedInv(prices, s)
    ensures JoinedInv(prices, Pipeline.Apply(prices, s, e))
  {
    match e
    case Meters(event) => MetersKeeps(prices, s, event);
    case Aggregates(claimed, keys) => AggregatesKeeps(prices, s, claimed, keys);
    case Bills(row, now) => BillsKeeps(prices, s, row, now);
    case Pays(event) => PaysKeeps(prices, s, event);
  }

  lemma JoinedStart(prices: Prices, now: int, initial: int)
    ensures JoinedInv(prices, Start(now, initial))
  {
    OpenedInv(prices, initial);
  }

  /** In every run the meter's and the biller's view of the aggregates are the same table, both sides keep
      their invariants, and the bytes charged are the bytes of the events whose aggregate is billed. */
  lemma {:induction false} JoinedRunKeeps(prices: Prices, now: int, initial: int, events: seq<Pipeline.Event>)
    ensures JoinedInv(prices, Pipeline.Run(prices, Start(now, initial), events))
  {
    if events == [] {
      JoinedStart(prices, now, initial);
    } else {
      var before := Pipeline.Run(prices, Start(now, initial), events[..|events| - 1]);
      JoinedRunKeeps(prices, now, initial, events[..|events| - 1]);
      JoinedStepKeeps(prices, before, events[|events| - 1]);
    }
  }

  // ---------------------------------------------------------------- what a charge is for

  /** The usage event a charge is for: the only one of its application, code and window. */
  predicate IsFor(e: Metering.UsageEvent, c: Charge) {
    SlotOf(Metering.KeyOf(e)) == c.slot && e.price == Some(c.price) && e.quantity == c.quantity && e.aggregated
  }

  lemma EventOfCharge(prices: Prices, s: Joined, j: nat) returns (i: nat)
    requires JoinedInv(prices, s) && j < |s.account.charges|
    ensures i < |s.meter.events| && IsFor(s.meter.events[i], s.account.charges[j])
  {
    var c := s.account.charges[j];
    assert HasRow(s.account.usage, c);
    var k :| 0 <= k < |s.account.usage| && ChargedAs(s.account.usage[k], c);
    assert InTable(s.meter.aggregates, s.account.usage[k]);
    i := EventBehind(s.meter, KeyAt(c.slot, Some(c.price)));
  }

  lemma EgressEventReads(m: Metering.Meter, i: nat, c: Charge, app: nat)
    requires MeteringInvariant.Inv(m) && i < |m.events| && IsFor(m.events[i], c) && OfEgress(c.slot, app)
    ensures Metering.BytesOf(c.quantity) == Metering.WindowBytes(m.samples, app, c.slot.start)
  {
  }

  lemma ChargeIsPriced(prices: Prices, s: Joined, j: nat)
    requires JoinedInv(prices, s) && j < |s.account.charges|
    ensures var c := s.account.charges[j]; c.price in prices && c.amount == Price(prices[c.price], c.quantity)
  {
  }

  /** In every run a charge is the price of the quantity of one usage event, and a charge for egress is
      for exactly the bytes ever accepted in its window. */
  lemma EveryChargeIsItsWindow(prices: Prices, now: int, initial: int, events: seq<Pipeline.Event>, j: nat)
    requires j < |Pipeline.Run(prices, Start(now, initial), events).account.charges|
    ensures var s := Pipeline.Run(prices, Start(now, initial), events);
      var c := s.account.charges[j];
      && (exists i :: 0 <= i < |s.meter.events| && IsFor(s.meter.events[i], c))
      && c.price in prices && c.amount == Price(prices[c.price], c.quantity)
      && forall app :: OfEgress(c.slot, app) ==>
           Metering.BytesOf(c.quantity) == Metering.WindowBytes(s.meter.samples, app, c.slot.start)
  {
    var s := Pipeline.Run(prices, Start(now, initial), events);
    JoinedRunKeeps(prices, now, initial, events);
    ChargeIsPriced(prices, s, j);
    var i := EventOfCharge(prices, s, j);
    forall app | OfEgress(s.account.charges[j].slot, app)
      ensures Metering.BytesOf(s.account.charges[j].quantity)
           == Metering.WindowBytes(s.meter.samples, app, s.account.charges[j].slot.start)
    {
      EgressEventReads(s.meter, i, s.account.charges[j], app);
    }
  }

  lemma SameSlotSameCharge(prices: Prices, s: Joined, j: nat, k: nat)
    requires JoinedInv(prices, s) && j < |s.account.charges| && k < |s.account.charges|
    requires s.account.charges[j].slot == s.account.charges[k].slot
    ensures j == k
  {
    var c, d := s.account.charges[j], s.account.charges[k];
    var e := EventOfCharge(prices, s, j);
    var f := EventOfCharge(prices, s, k);
    KeyOfSlot(Metering.KeyOf(s.meter.events[e]));
    KeyOfSlot(Metering.KeyOf(s.meter.events[f]));
    assert e == f;
    assert ChargeRef(c) == ChargeRef(d);
  }

  /** No application is charged twice for one code and window, whatever price versions there were. */
  lemma WindowChargedOnce(prices: Prices, now: int, initial: int, events: seq<Pipeline.Event>, j: nat, k: nat)
    requires var charges := Pipeline.Run(prices, Start(now, initial), events).account.charges;
      j < |charges| && k < |charges| && charges[j].slot == charges[k].slot
    ensures j == k
  {
    JoinedRunKeeps(prices, now, initial, events);
    SameSlotSameCharge(prices, Pipeline.Run(prices, Start(now, initial), events), j, k);
  }

  // ---------------------------------------------------------------- every byte is in one place

  lemma {:induction false} SamplesSplit(samples: seq<Metering.Sample>, app: nat)
    ensures Metering.SampledBytes(samples, app) == Metering.ProcessedBytes(samples, app) + UnmeteredBytes(samples, app)
  {
    if samples != [] { SamplesSplit(samples[..|samples| - 1], app); }
  }

  lemma {:induction false} EventsSplit(events: seq<Metering.UsageEvent>, aggregates: map<Key, Metering.Aggregate>,
                                       app: nat)
    ensures Metering.MeteredBytes(events, app)
         == EventBytes(events, aggregates, app, true) + EventBytes(events, aggregates, app, false)
  {
    if events != [] { EventsSplit(events[..|events| - 1], aggregates, app); }
  }

  lemma PlacesAddUp(prices: Prices, s: Joined, app: nat)
    requires JoinedInv(prices, s)
    ensures Metering.Cursor(s.meter.cursors, app)
         == UnmeteredBytes(s.meter.samples, app) + EventBytes(s.meter.events, s.meter.aggregates, app, false)
            + ChargedBytes(s.account.charges, app)
  {
    SamplesSplit(s.meter.samples, app);
    EventsSplit(s.meter.events, s.meter.aggregates, app);
  }

  /** Conservation from the probe to the bill: in every run each accepted byte of an application is in
      exactly one place, a sample not metered yet, an event not billed, or a charge. */
  lemma BytesAreConserved(prices: Prices, now: int, initial: int, events: seq<Pipeline.Event>, app: nat)
    ensures var s := Pipeline.Run(prices, Start(now, initial), events);
      Metering.Cursor(s.meter.cursors, app)
      == UnmeteredBytes(s.meter.samples, app) + EventBytes(s.meter.events, s.meter.aggregates, app, false)
         + ChargedBytes(s.account.charges, app)
  {
    JoinedRunKeeps(prices, now, initial, events);
    PlacesAddUp(prices, Pipeline.Run(prices, Start(now, initial), events), app);
  }

  /** Nothing is on its way: all samples are metered, all events aggregated, all rows charged. */
  predicate Settled(s: Joined) {
    && (forall i :: 0 <= i < |s.meter.samples| ==> s.meter.samples[i].processed)
    && (forall i :: 0 <= i < |s.meter.events| ==> s.meter.events[i].aggregated)
    && (forall i :: 0 <= i < |s.account.usage| ==> s.account.usage[i].disposition.Charged?)
  }

  lemma {:induction false} NothingUnmetered(samples: seq<Metering.Sample>, app: nat)
    requires forall i :: 0 <= i < |samples| ==> samples[i].processed
    ensures UnmeteredBytes(samples, app) == 0
  {
    if samples != [] { NothingUnmetered(samples[..|samples| - 1], app); }
  }

  lemma {:induction false} NothingUnbilled(events: seq<Metering.UsageEvent>,
                                           aggregates: map<Key, Metering.Aggregate>, app: nat)
    requires forall i :: 0 <= i < |events| ==> IsBilled(aggregates, Metering.KeyOf(events[i]))
    ensures EventBytes(events, aggregates, app, false) == 0
  {
    if events != [] { NothingUnbilled(events[..|events| - 1], aggregates, app); }
  }

  lemma SettledIsBilled(prices: Prices, s: Joined, i: nat)
    requires JoinedInv(prices, s) && Settled(s) && i < |s.meter.events|
    ensures IsBilled(s.meter.aggregates, Metering.KeyOf(s.meter.events[i]))
  {
    var key := Metering.KeyOf(s.meter.events[i]);
    assert key in s.meter.aggregates;
    var usage := s.account.usage;
    var k :| 0 <= k < |usage| && usage[k].slot == SlotOf(key) && usage[k].price == key.price;
    KeyOfSlot(key);
    assert InTable(s.meter.aggregates, s.account.usage[k]);
  }

  /** Once everything is metered, aggregated and charged, the quantities on the charges read back to the cursor. */
  lemma SettledChargesAreTheCursor(prices: Prices, now: int, initial: int, events: seq<Pipeline.Event>, app: nat)
    requires Settled(Pipeline.Run(prices, Start(now, initial), events))
    ensures var s := Pipeline.Run(prices, Start(now, initial), events);
      ChargedBytes(s.account.charges, app) == Metering.Cursor(s.meter.cursors, app)
  {
    var s := Pipeline.Run(prices, Start(now, initial), events);
    JoinedRunKeeps(prices, now, initial, events);
    PlacesAddUp(prices, s, app);
    NothingUnmetered(s.meter.samples, app);
    forall i | 0 <= i < |s.meter.events| ensures IsBilled(s.meter.aggregates, Metering.KeyOf(s.meter.events[i])) {
      SettledIsBilled(prices, s, i);
    }
    NothingUnbilled(s.meter.events, s.meter.aggregates, app);
  }
}
