/** The metering transactions as they write the tables. */
module MeteringStore {
  import opened Domain
  import opened Metering

  /** One row of the query of meterEgress, with the price version resolved for it. */
  datatype Group = Group(app: AppId, window: int, price: Option<PriceId>)

  function Metered(groups: seq<Group>): (events: seq<Event>)
    ensures |events| == |groups|
    ensures forall i :: 0 <= i < |groups| ==>
      events[i] == EgressMetered(groups[i].app, groups[i].window, groups[i].price)
  {
    seq(|groups|, i requires 0 <= i < |groups| => EgressMetered(groups[i].app, groups[i].window, groups[i].price))
  }

  class MeterTables {
    var now: int
    var apps: set<AppId>
    var cursors: map<AppId, nat>
    var samples: seq<Sample>
    var events: seq<UsageEvent>
    var aggregates: map<Key, Aggregate>

    ghost function State(): Meter
      reads this
    {
      Meter(now, apps, cursors, samples, events, aggregates)
    }

    constructor (start: int)
      ensures State() == Empty(start)
    {
      now, apps, cursors, samples, events, aggregates := start, {}, map[], [], [], map[];
    }

    /** ingestEgressSample after the request is decoded. */
    method IngestEgressSample(app: AppId, sid: string, delta: int, observedAt: int) returns (answer: Answer)
      modifies this
      ensures answer == IngestAnswer(old(State()), app, sid, delta, observedAt)
      ensures State() == Apply(old(State()), SampleReceived(app, sid, delta, observedAt))
      ensures answer !in {Accepted, Duplicate} ==> State() == old(State())
    {
      if sid == "" || |sid| > 128 || delta < 0 { return ValidationFailed; }
      if observedAt > now + SKEW || observedAt < Truncate(now) { return ValidationFailed; }
      if app !in apps { return AppNotFound; }
      var cumulative := if app in cursors then cursors[app] else 0;
      if cumulative + delta > MAX_INT64 { return Overflow; }
      cursors := cursors[app := cumulative];
      if exists i :: 0 <= i < |samples| && samples[i].sid == sid { return Duplicate; }
      samples := samples + [Sample(sid, app, cumulative + delta, delta, observedAt, false)];
      cursors := cursors[app := cumulative + delta];
      return Accepted;
    }

    /** INSERT INTO usage_events ... ON CONFLICT DO NOTHING. */
    method InsertUsage(app: AppId, code: Code, window: int, quantity: nat, price: Option<PriceId>)
      modifies this`events
      ensures State() == Record(old(State()), app, code, window, quantity, price)
    {
      if exists i :: 0 <= i < |events| && events[i].app == app && events[i].code == code && events[i].window == window {
        return;
      }
      events := events + [UsageEvent(app, code, window, quantity, price, false)];
    }

    method MeterResource(app: AppId, code: Code, quantity: nat, price: Option<PriceId>)
      modifies this
      ensures State() == Apply(old(State()), ResourceMetered(app, code, quantity, price))
    {
      if code != Egress && app in apps {
        InsertUsage(app, code, Truncate(now) - WINDOW, quantity, price);
      }
    }

    method MeterGroup(g: Group)
      modifies this
      ensures State() == Apply(old(State()), EgressMetered(g.app, g.window, g.price))
    {
      if g.window % WINDOW != 0 || g.window + WINDOW > Truncate(now) { return; }
      if !exists i :: 0 <= i < |samples| && InWindow(samples[i], g.app, g.window) && !samples[i].processed { return; }
      var delta := PendingBytes(samples, g.app, g.window);
      if delta > 0 { InsertUsage(g.app, Egress, g.window, GiBUnits(delta), g.price); }
      samples := MarkProcessed(samples, g.app, g.window);
    }

    /** meterEgress: one transaction for each row the query returned. */
    method MeterEgress(groups: seq<Group>)
      modifies this
      ensures State() == Run(old(State()), Metered(groups))
    {
      var k := 0;
      while k < |groups|
        invariant 0 <= k <= |groups|
        invariant State() == Run(old(State()), Metered(groups[..k]))
      {
        MeterGroup(groups[k]);
        assert Metered(groups[..k + 1])[..k] == Metered(groups[..k]);
        k := k + 1;
      }
      assert groups[..k] == groups;
    }

    method AggregateUsage(claimed: set<nat>)
      requires Claimable(State(), claimed)
      modifies this
      ensures State() == Apply(old(State()), UsageAggregated(claimed))
    {
      var m := Meter(now, apps, cursors, samples, events, aggregates);
      var keys := ClaimedKeys(m, claimed);
      aggregates := map key | key in aggregates.Keys + keys ::
        if key in keys then Upsert(m, key, GroupSum(events, claimed, key)) else m.aggregates[key];
      events := Aggregated(events, claimed);
    }

    method SealUnpricedUsage()
      modifies this
      ensures State() == Apply(old(State()), UnpricedSealed)
    {
      aggregates := map key | key in aggregates ::
        if !aggregates[key].sealed && aggregates[key].disposition == Unbilled && key.price.None?
        then aggregates[key].(sealed := true, disposition := Unpriced) else aggregates[key];
    }
  }
}
