/** The price a window is charged at is the one resolved when it was metered. */
module PipelineOutcomes {
  import opened Domain
  import opened Accounts
  import opened AccountsInvariant
  import opened AccountsOutcomes
  import opened Pipeline
  import opened PipelineTheorems
  import Metering
  import MeteringOutcomes

  /** Some metering step of the run recorded the row. */
  ghost predicate MeteredIn(prices: Prices, start: Joined, events: seq<Pipeline.Event>, row: Metering.UsageEvent) {
    events != [] &&
      var front, e := events[..|events| - 1], events[|events| - 1];
      (|| MeteredIn(prices, start, front, row)
       || (e.Meters? && MeteringOutcomes.Records(Pipeline.Run(prices, start, front).meter, e.event, row)))
  }

  lemma {:induction false} MeteredAlike(prices: Prices, start: Joined, events: seq<Pipeline.Event>,
                                        x: Metering.UsageEvent, y: Metering.UsageEvent)
    requires MeteringOutcomes.SameEvent(x, y) && MeteredIn(prices, start, events, y)
    ensures MeteredIn(prices, start, events, x)
  {
    var front := events[..|events| - 1];
    if MeteredIn(prices, start, front, y) { MeteredAlike(prices, start, front, x, y); }
  }

  lemma JoinedEventsStay(prices: Prices, s: Joined, e: Pipeline.Event, i: nat)
    requires i < |s.meter.events|
    ensures i < |Pipeline.Apply(prices, s, e).meter.events|
    ensures MeteringOutcomes.SameEvent(Pipeline.Apply(prices, s, e).meter.events[i], s.meter.events[i])
  {
    if e.Meters? { MeteringOutcomes.EventsStay(s.meter, e.event, i); }
  }

  lemma NewJoinedEvent(prices: Prices, s: Joined, e: Pipeline.Event, i: nat)
    requires |s.meter.events| <= i < |Pipeline.Apply(prices, s, e).meter.events|
    ensures e.Meters? && MeteringOutcomes.Records(s.meter, e.event, Pipeline.Apply(prices, s, e).meter.events[i])
  {
    if e.Meters? { MeteringOutcomes.NewEventRecorded(s.meter, e.event, i); }
  }

  lemma {:induction false} EveryJoinedEventWasMetered(prices: Prices, now: int, initial: int,
                                                      events: seq<Pipeline.Event>, i: nat)
    requires i < |Pipeline.Run(prices, Start(now, initial), events).meter.events|
    ensures MeteredIn(prices, Start(now, initial), events,
                      Pipeline.Run(prices, Start(now, initial), events).meter.events[i])
  {
    var front, e := events[..|events| - 1], events[|events| - 1];
    var before := Pipeline.Run(prices, Start(now, initial), front);
    if i < |before.meter.events| {
      EveryJoinedEventWasMetered(prices, now, initial, front, i);
      JoinedEventsStay(prices, before, e, i);
      MeteredAlike(prices, Start(now, initial), front,
                   Pipeline.Run(prices, Start(now, initial), events).meter.events[i], before.meter.events[i]);
    } else {
      NewJoinedEvent(prices, before, e, i);
    }
  }

  /** Behind every charge of a run stands one metering step: the charge is the fair amount, under the price
      version resolved at that step, for the quantity recorded there. */
  lemma EveryChargeWasMetered(prices: Prices, now: int, initial: int, events: seq<Pipeline.Event>, j: nat)
    requires j < |Pipeline.Run(prices, Start(now, initial), events).account.charges|
    ensures var c := Pipeline.Run(prices, Start(now, initial), events).account.charges[j];
      && c.price in prices && FairAmount(prices[c.price], c.quantity, c.amount)
      && exists row: Metering.UsageEvent ::
           SlotOf(Metering.KeyOf(row)) == c.slot && row.price == Some(c.price) && row.quantity == c.quantity
           && MeteredIn(prices, Start(now, initial), events, row)
  {
    var s := Pipeline.Run(prices, Start(now, initial), events);
    var c := s.account.charges[j];
    JoinedRunKeeps(prices, now, initial, events);
    ChargeIsPriced(prices, s, j);
    FairAmountIsPrice(prices[c.price], c.quantity, c.amount);
    var i := EventOfCharge(prices, s, j);
    EveryJoinedEventWasMetered(prices, now, initial, events, i);
  }
}
