/** The two sides of usage joined: the meter writes the aggregates that billing charges.

    The rows are those of one user. usage_aggregates is one table; the meter's view of it is
    `meter.aggregates`, the biller's is `account.usage`, and every step writes both. */
module Pipeline {
  import opened Domain
  import opened Accounts
  import Metering

  type Key = Metering.Key

  function CodeNumber(code: Metering.Code): nat {
    match code
    case Egress => 0
    case Runtime => 1
    case Cpu => 2
    case Memory => 3
    case Storage => 4
  }

  function CodeOf(number: nat): Metering.Code {
    match number
    case 0 => Metering.Egress
    case 1 => Metering.Runtime
    case 2 => Metering.Cpu
    case 3 => Metering.Memory
    case _ => Metering.Storage
  }

  /** The columns of an aggregate as billing reads them. */
  function SlotOf(key: Key): Slot {
    Slot(CodeNumber(key.code), Some(key.app), key.window, key.window + Metering.WINDOW)
  }

  function KeyAt(slot: Slot, price: Option<PriceId>): Key {
    Metering.Key(if slot.app.Some? then slot.app.value else 0, CodeOf(slot.code), slot.start, price)
  }

  datatype Joined = Joined(meter: Metering.Meter, account: Account)

  /** What aggregateUsage writes for the account, group by group. */
  function Grouped(m: Metering.Meter, a: Account, claimed: set<nat>, keys: seq<Key>): Account {
    if keys == [] then a else
      var key := keys[|keys| - 1];
      Aggregate(Grouped(m, a, claimed, keys[..|keys| - 1]), SlotOf(key), key.price,
                Metering.GroupSum(m.events, claimed, key))
  }

  /** `keys` lists the groups of the claimed events, each once, in any order. */
  predicate ListsGroups(m: Metering.Meter, claimed: set<nat>, keys: seq<Key>) {
    && Metering.Claimable(m, claimed)
    && (forall i, j :: 0 <= i < j < |keys| ==> keys[i] != keys[j])
    && (set key | key in keys) == Metering.ClaimedKeys(m, claimed)
  }

  datatype Event =
    | Meters(event: Metering.Event)
    | Aggregates(claimed: set<nat>, keys: seq<Key>)
    | Bills(row: nat, now: int)
    | Pays(step: Accounts.Event)

  ghost function Apply(prices: Prices, s: Joined, e: Event): Joined {
    match e
    case Meters(event) =>
      if event.UsageAggregated? || event.AggregateBilled? then s
      else s.(meter := Metering.Apply(s.meter, event))
    case Aggregates(claimed, keys) =>
      if !ListsGroups(s.meter, claimed, keys) then s
      else Joined(Metering.AggregateUsage(s.meter, claimed), Grouped(s.meter, s.account, claimed, keys))
    case Bills(row, now) =>
      var account := BillUsage(prices, s.account, row, now);
      if BillingOutcome(prices, s.account, row, now).Settled? then
        var u := s.account.usage[row];
        Joined(Metering.SealBilled(s.meter, KeyAt(u.slot, u.price)), account)
      else s.(account := account)
    case Pays(event) =>
      if event.UsageAggregated? || event.UsageBilled? then s
      else s.(account := Accounts.Apply(prices, s.account, event))
  }

  ghost function Run(prices: Prices, s: Joined, events: seq<Event>): Joined {
    if events == [] then s
    else Apply(prices, Run(prices, s, events[..|events| - 1]), events[|events| - 1])
  }

  function Start(now: int, initial: int): Joined {
    Joined(Metering.Empty(now), Opened(initial))
  }

  // ---------------------------------------------------------------- where the bytes of an application are

  predicate OfEgress(slot: Slot, app: nat) {
    slot.code == CodeNumber(Metering.Egress) && slot.app == Some(app)
  }

  /** The bytes charged: the quantities of the egress charges, converted back. */
  function ChargedBytes(charges: seq<Charge>, app: nat): nat {
    if charges == [] then 0 else
      var c := charges[|charges| - 1];
      ChargedBytes(charges[..|charges| - 1], app) + if OfEgress(c.slot, app) then Metering.BytesOf(c.quantity) else 0
  }

  predicate IsBilled(aggregates: map<Key, Metering.Aggregate>, key: Key) {
    key in aggregates && aggregates[key].disposition.Billed?
  }

  /** The bytes of the egress events whose aggregate is billed, or is not. */
  function EventBytes(events: seq<Metering.UsageEvent>, aggregates: map<Key, Metering.Aggregate>, app: nat,
                      billed: bool): nat {
    if events == [] then 0 else
      var e := events[|events| - 1];
      EventBytes(events[..|events| - 1], aggregates, app, billed) +
      if e.app == app && e.code == Metering.Egress && IsBilled(aggregates, Metering.KeyOf(e)) == billed
      then Metering.BytesOf(e.quantity) else 0
  }

  /** The accepted bytes no usage event stands for yet. */
  function UnmeteredBytes(samples: seq<Metering.Sample>, app: nat): nat {
    if samples == [] then 0 else
      var s := samples[|samples| - 1];
      UnmeteredBytes(samples[..|samples| - 1], app) + if s.app == app && !s.processed then s.delta else 0
  }
}
