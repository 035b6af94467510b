/** From egress samples to usage events to usage aggregates.

    Time is in whole seconds. Quantities are counted in units of 10^-12, the scale of the
    numeric(30,12) columns, so the rounding of bytes to GiB is part of the model. */
module Metering {
  import opened Domain

  type AppId = nat
  type PriceId = nat

  const WINDOW: int := 300
  const SKEW: int := 120
  const MAX_INT64: int := 0x7fff_ffff_ffff_ffff
  const BATCH: nat := 1000

  datatype Code = Egress | Runtime | Cpu | Memory | Storage

  datatype Sample = Sample(sid: string, app: AppId, cumulative: nat, delta: nat, observedAt: int, processed: bool)

  /** A row of usage_events of one of the five-minute meters; its idempotency key is (app, code, window). */
  datatype UsageEvent = UsageEvent(app: AppId, code: Code, window: int, quantity: nat,
                                   price: Option<PriceId>, aggregated: bool)

  datatype Disposition = Unbilled | Billed | Unpriced

  datatype Aggregate = Aggregate(quantity: nat, sealed: bool, disposition: Disposition)

  datatype Key = Key(app: AppId, code: Code, window: int, price: Option<PriceId>)

  datatype Meter = Meter(now: int, apps: set<AppId>, cursors: map<AppId, nat>, samples: seq<Sample>,
                         events: seq<UsageEvent>, aggregates: map<Key, Aggregate>)

  // ---------------------------------------------------------------- windows and units

  function Truncate(t: int): int {
    t / WINDOW * WINDOW
  }

  predicate InWindow(s: Sample, app: AppId, window: int) {
    s.app == app && window <= s.observedAt < window + WINDOW
  }

  /** bytes / 2^30 rounded half up at twelve decimals. */
  function GiBUnits(bytes: nat): nat {
    (bytes * 2_000_000_000_000 + 0x4000_0000) / 0x8000_0000
  }

  /** The bytes a stored quantity stands for. */
  function BytesOf(quantity: nat): nat {
    (quantity * 0x8000_0000 + 1_000_000_000_000) / 2_000_000_000_000
  }

  function KeyOf(e: UsageEvent): Key {
    Key(e.app, e.code, e.window, e.price)
  }

  // ---------------------------------------------------------------- sums over the tables

  function SampledBytes(samples: seq<Sample>, app: AppId): nat {
    if samples == [] then 0 else
      var s := samples[|samples| - 1];
      SampledBytes(samples[..|samples| - 1], app) + if s.app == app then s.delta else 0
  }

  function ProcessedBytes(samples: seq<Sample>, app: AppId): nat {
    if samples == [] then 0 else
      var s := samples[|samples| - 1];
      ProcessedBytes(samples[..|samples| - 1], app) + if s.app == app && s.processed then s.delta else 0
  }

  function WindowBytes(samples: seq<Sample>, app: AppId, window: int): nat {
    if samples == [] then 0 else
      var s := samples[|samples| - 1];
      WindowBytes(samples[..|samples| - 1], app, window) + if InWindow(s, app, window) then s.delta else 0
  }

  function PendingBytes(samples: seq<Sample>, app: AppId, window: int): nat {
    if samples == [] then 0 else
      var s := samples[|samples| - 1];
      PendingBytes(samples[..|samples| - 1], app, window) +
      if InWindow(s, app, window) && !s.processed then s.delta else 0
  }

  /** The bytes billed to an application: its egress events, converted back. */
  function MeteredBytes(events: seq<UsageEvent>, app: AppId): nat {
    if events == [] then 0 else
      var e := events[|events| - 1];
      MeteredBytes(events[..|events| - 1], app) + if e.app == app && e.code == Egress then BytesOf(e.quantity) else 0
  }

  /** sum(quantity) over the claimed events of one key. */
  function GroupSum(events: seq<UsageEvent>, claimed: set<nat>, key: Key): nat {
    if events == [] then 0 else
      var e := events[|events| - 1];
      GroupSum(events[..|events| - 1], claimed, key) +
      if |events| - 1 in claimed && KeyOf(e) == key then e.quantity else 0
  }

  /** sum(quantity) over the aggregated events of one key. */
  function AggregatedSum(events: seq<UsageEvent>, key: Key): nat {
    if events == [] then 0 else
      var e := events[|events| - 1];
      AggregatedSum(events[..|events| - 1], key) + if e.aggregated && KeyOf(e) == key then e.quantity else 0
  }

  // ---------------------------------------------------------------- transactions

  predicate KnownSample(m: Meter, sid: string) {
    exists i :: 0 <= i < |m.samples| && m.samples[i].sid == sid
  }

  datatype Answer = Accepted | Duplicate | ValidationFailed | AppNotFound | Overflow

  function IngestAnswer(m: Meter, app: AppId, sid: string, delta: int, observedAt: int): Answer {
    if sid == "" || |sid| > 128 || delta < 0 then ValidationFailed
    else if observedAt > m.now + SKEW || observedAt < Truncate(m.now) then ValidationFailed
    else if app !in m.apps then AppNotFound
    else if Cursor(m.cursors, app) + delta > MAX_INT64 then Overflow
    else if KnownSample(m, sid) then Duplicate
    else Accepted
  }

  function Cursor(cursors: map<AppId, nat>, app: AppId): nat {
    if app in cursors then cursors[app] else 0
  }

  /** ingestEgressSample: a duplicate id leaves the cursor where it was. */
  function Ingest(m: Meter, app: AppId, sid: string, delta: int, observedAt: int): Meter {
    match IngestAnswer(m, app, sid, delta, observedAt)
    case Duplicate => m.(cursors := m.cursors[app := Cursor(m.cursors, app)])
    case Accepted =>
      var total := Cursor(m.cursors, app) + delta;
      m.(samples := m.samples + [Sample(sid, app, total, delta, observedAt, false)],
         cursors := m.cursors[app := total])
    case _ => m
  }

  predicate HasEvent(m: Meter, app: AppId, code: Code, window: int) {
    exists i :: 0 <= i < |m.events| && m.events[i].app == app && m.events[i].code == code
                && m.events[i].window == window
  }

  /** INSERT INTO usage_events ... ON CONFLICT DO NOTHING. */
  function Record(m: Meter, app: AppId, code: Code, window: int, quantity: nat, price: Option<PriceId>): Meter {
    if HasEvent(m, app, code, window) then m
    else m.(events := m.events + [UsageEvent(app, code, window, quantity, price, false)])
  }

  function MarkProcessed(samples: seq<Sample>, app: AppId, window: int): seq<Sample> {
    seq(|samples|, i requires 0 <= i < |samples| =>
      if InWindow(samples[i], app, window) then samples[i].(processed := true) else samples[i])
  }

  /** The windows meterEgress selects: aligned, over, and holding an unprocessed sample. */
  predicate Meterable(m: Meter, app: AppId, window: int) {
    && window % WINDOW == 0 && window + WINDOW <= Truncate(m.now)
    && exists i :: 0 <= i < |m.samples| && InWindow(m.samples[i], app, window) && !m.samples[i].processed
  }

  /** One transaction of meterEgress. */
  function MeterWindow(m: Meter, app: AppId, window: int, price: Option<PriceId>): Meter {
    if !Meterable(m, app, window) then m else
      var delta := PendingBytes(m.samples, app, window);
      var recorded := if delta > 0 then Record(m, app, Egress, window, GiBUnits(delta), price) else m;
      recorded.(samples := MarkProcessed(recorded.samples, app, window))
  }

  /** meterRuntime and meterStorage: the window that has just closed. */
  function MeterResource(m: Meter, app: AppId, code: Code, quantity: nat, price: Option<PriceId>): Meter {
    if code == Egress || app !in m.apps then m
    else Record(m, app, code, Truncate(m.now) - WINDOW, quantity, price)
  }

  predicate Claimable(m: Meter, claimed: set<nat>) {
    |claimed| <= BATCH && forall i :: i in claimed ==> i < |m.events| && !m.events[i].aggregated
  }

  function ClaimedKeys(m: Meter, claimed: set<nat>): set<Key>
    requires Claimable(m, claimed)
  {
    set i | i in claimed :: KeyOf(m.events[i])
  }

  /** INSERT ... ON CONFLICT DO UPDATE ... WHERE sealed_at IS NULL for one group. */
  function Upsert(m: Meter, key: Key, sum: nat): Aggregate {
    if key in m.aggregates then
      if m.aggregates[key].sealed then m.aggregates[key]
      else m.aggregates[key].(quantity := m.aggregates[key].quantity + sum)
    else if key.price.None? then Aggregate(sum, true, Unpriced)
    else Aggregate(sum, false, Unbilled)
  }

  function Aggregated(events: seq<UsageEvent>, claimed: set<nat>): seq<UsageEvent> {
    seq(|events|, i requires 0 <= i < |events| =>
      if i in claimed then events[i].(aggregated := true) else events[i])
  }

  function AggregateUsage(m: Meter, claimed: set<nat>): Meter {
    if !Claimable(m, claimed) then m else
      m.(aggregates := map key | key in m.aggregates.Keys + ClaimedKeys(m, claimed) ::
           if key in ClaimedKeys(m, claimed) then Upsert(m, key, GroupSum(m.events, claimed, key))
           else m.aggregates[key],
         events := Aggregated(m.events, claimed))
  }

  /** billUsage seals a priced row once it is charged. */
  function SealBilled(m: Meter, key: Key): Meter {
    if key in m.aggregates && !m.aggregates[key].sealed && key.price.Some?
    then m.(aggregates := m.aggregates[key := m.aggregates[key].(sealed := true, disposition := Billed)]) else m
  }

  function SealUnpriced(m: Meter): Meter {
    m.(aggregates := map key | key in m.aggregates ::
         if !m.aggregates[key].sealed && m.aggregates[key].disposition == Unbilled && key.price.None?
         then m.aggregates[key].(sealed := true, disposition := Unpriced) else m.aggregates[key])
  }

  datatype Event =
    | Tick(seconds: nat)
    | AppCreated(app: AppId)
    | SampleReceived(app: AppId, sid: string, delta: int, observedAt: int)
    | EgressMetered(app: AppId, window: int, price: Option<PriceId>)
    | ResourceMetered(app: AppId, code: Code, quantity: nat, price: Option<PriceId>)
    | UsageAggregated(claimed: set<nat>)
    | AggregateBilled(key: Key)
    | UnpricedSealed

  function Apply(m: Meter, e: Event): Meter {
    match e
    case Tick(seconds) => m.(now := m.now + seconds)
    case AppCreated(app) => m.(apps := m.apps + {app})
    case SampleReceived(app, sid, delta, observedAt) => Ingest(m, app, sid, delta, observedAt)
    case EgressMetered(app, window, price) => MeterWindow(m, app, window, price)
    case ResourceMetered(app, code, quantity, price) => MeterResource(m, app, code, quantity, price)
    case UsageAggregated(claimed) => AggregateUsage(m, claimed)
    case AggregateBilled(key) => SealBilled(m, key)
    case UnpricedSealed => SealUnpriced(m)
  }

  function Run(m: Meter, events: seq<Event>): Meter {
    if events == [] then m
    else Apply(Run(m, events[..|events| - 1]), events[|events| - 1])
  }

  function Empty(now: int): Meter {
    Meter(now, {}, map[], [], [], map[])
  }
}
