/** Accepted egress bytes are metered exactly once and no aggregated quantity is lost. */
module MeteringInvariant {
  import opened Domain
  import opened Metering

  // ---------------------------------------------------------------- rounding

  /** The byte count can be read back from any stored quantity within one unit of the exact quotient, so it
      does not matter how, or how often, the quotient was rounded on its way to twelve decimals. */
  lemma BytesReadBack(bytes: nat, quantity: nat)
    requires -0x4000_0000 <= quantity * 0x4000_0000 - bytes * 1_000_000_000_000 <= 0x4000_0000
    ensures BytesOf(quantity) == bytes
  {
    assert 2_000_000_000_000 * bytes <= quantity * 0x8000_0000 + 1_000_000_000_000 < 2_000_000_000_000 * (bytes + 1);
  }

  /** In particular from the half-up rounding. */
  lemma BytesSurviveRounding(bytes: nat)
    ensures BytesOf(GiBUnits(bytes)) == bytes
  {
    var q := GiBUnits(bytes);
    assert bytes * 2_000_000_000_000 + 0x4000_0000 - 0x7fff_ffff
        <= q * 0x8000_0000
        <= bytes * 2_000_000_000_000 + 0x4000_0000;
    BytesReadBack(bytes, q);
  }

  // ---------------------------------------------------------------- invariant

  /** Each sample records the total of its application up to and including itself. */
  predicate Cumulative(samples: seq<Sample>) {
    samples != [] ==>
      && Cumulative(samples[..|samples| - 1])
      && samples[|samples| - 1].cumulative == SampledBytes(samples, samples[|samples| - 1].app)
  }

  ghost predicate CursorsAgree(apps: set<AppId>, cursors: map<AppId, nat>, samples: seq<Sample>) {
    && cursors.Keys <= apps
    && (forall app :: Cursor(cursors, app) == SampledBytes(samples, app))
    && Cumulative(samples)
    && (forall i, j :: 0 <= i < j < |samples| ==> samples[i].sid != samples[j].sid)
  }

  predicate SameWindow(s: Sample, t: Sample) {
    s.app == t.app && Truncate(s.observedAt) == Truncate(t.observedAt)
  }

  /** Only closed windows are metered, and a window is metered as a whole. */
  ghost predicate WindowsClosed(now: int, samples: seq<Sample>, events: seq<UsageEvent>) {
    && (forall i :: 0 <= i < |samples| && samples[i].processed ==> samples[i].observedAt < Truncate(now))
    && (forall e :: 0 <= e < |events| && events[e].code == Egress ==>
          events[e].window % WINDOW == 0 && events[e].window + WINDOW <= Truncate(now))
    && (forall e, i | 0 <= e < |events| && events[e].code == Egress && 0 <= i < |samples| ::
          InWindow(samples[i], events[e].app, events[e].window) ==> samples[i].processed)
    && (forall i, j | 0 <= i < |samples| && 0 <= j < |samples| ::
          samples[i].processed && SameWindow(samples[i], samples[j]) ==> samples[j].processed)
  }

  ghost predicate BytesAgree(samples: seq<Sample>, events: seq<UsageEvent>) {
    && (forall app :: ProcessedBytes(samples, app) == MeteredBytes(events, app))
    && (forall e :: 0 <= e < |events| && events[e].code == Egress ==>
          BytesOf(events[e].quantity) == WindowBytes(samples, events[e].app, events[e].window))
  }

  ghost predicate EventsUnique(events: seq<UsageEvent>) {
    forall i, j | 0 <= i < j < |events| ::
      (events[i].app, events[i].code, events[i].window) != (events[j].app, events[j].code, events[j].window)
  }

  predicate HasAggregated(events: seq<UsageEvent>, key: Key) {
    exists i :: 0 <= i < |events| && events[i].aggregated && KeyOf(events[i]) == key
  }

  ghost predicate AggregatesAgree(events: seq<UsageEvent>, aggregates: map<Key, Aggregate>) {
    && (forall i :: 0 <= i < |events| && events[i].aggregated ==> KeyOf(events[i]) in aggregates)
    && (forall key :: key in aggregates ==> HasAggregated(events, key))
    && (forall key :: key in aggregates ==> aggregates[key].quantity == AggregatedSum(events, key))
  }

  ghost predicate Inv(m: Meter) {
    && CursorsAgree(m.apps, m.cursors, m.samples) && WindowsClosed(m.now, m.samples, m.events)
    && BytesAgree(m.samples, m.events) && EventsUnique(m.events) && AggregatesAgree(m.events, m.aggregates)
  }

  // ---------------------------------------------------------------- sums under the updates

  lemma {:induction false} MarkingMovesPending(samples: seq<Sample>, app: AppId, window: int, other: AppId)
    ensures var marked := MarkProcessed(samples, app, window);
      && SampledBytes(marked, other) == SampledBytes(samples, other)
      && ProcessedBytes(marked, other) ==
           ProcessedBytes(samples, other) + if other == app then PendingBytes(samples, app, window) else 0
  {
    if samples != [] {
      var front := samples[..|samples| - 1];
      MarkingMovesPending(front, app, window, other);
      assert MarkProcessed(samples, app, window)[..|samples| - 1] == MarkProcessed(front, app, window);
    }
  }

  lemma {:induction false} MarkingKeepsWindows(samples: seq<Sample>, app: AppId, window: int, other: AppId, w: int)
    ensures WindowBytes(MarkProcessed(samples, app, window), other, w) == WindowBytes(samples, other, w)
  {
    if samples != [] {
      var front := samples[..|samples| - 1];
      MarkingKeepsWindows(front, app, window, other, w);
      assert MarkProcessed(samples, app, window)[..|samples| - 1] == MarkProcessed(front, app, window);
    }
  }

  /** With nothing processed in a window, what is pending there is all there is. */
  lemma {:induction false} PendingIsAll(samples: seq<Sample>, app: AppId, window: int)
    requires forall i :: 0 <= i < |samples| && InWindow(samples[i], app, window) ==> !samples[i].processed
    ensures PendingBytes(samples, app, window) == WindowBytes(samples, app, window)
  {
    if samples != [] {
      PendingIsAll(samples[..|samples| - 1], app, window);
    }
  }

  lemma SampleAppended(samples: seq<Sample>, s: Sample, app: AppId, window: int)
    ensures SampledBytes(samples + [s], app) == SampledBytes(samples, app) + if s.app == app then s.delta else 0
    ensures ProcessedBytes(samples + [s], app) ==
      ProcessedBytes(samples, app) + if s.app == app && s.processed then s.delta else 0
    ensures WindowBytes(samples + [s], app, window) ==
      WindowBytes(samples, app, window) + if InWindow(s, app, window) then s.delta else 0
  {
    assert (samples + [s])[..|samples|] == samples;
  }

  lemma EventAppended(events: seq<UsageEvent>, e: UsageEvent, app: AppId, key: Key)
    ensures MeteredBytes(events + [e], app) ==
      MeteredBytes(events, app) + if e.app == app && e.code == Egress then BytesOf(e.quantity) else 0
    ensures AggregatedSum(events + [e], key) ==
      AggregatedSum(events, key) + if e.aggregated && KeyOf(e) == key then e.quantity else 0
  {
    assert (events + [e])[..|events|] == events;
  }

  lemma {:induction false} AggregatingMovesGroups(events: seq<UsageEvent>, claimed: set<nat>, key: Key, app: AppId)
    requires forall i :: i in claimed && i < |events| ==> !events[i].aggregated
    ensures AggregatedSum(Aggregated(events, claimed), key) ==
      AggregatedSum(events, key) + GroupSum(events, claimed, key)
    ensures MeteredBytes(Aggregated(events, claimed), app) == MeteredBytes(events, app)
  {
    if events != [] {
      var front := events[..|events| - 1];
      AggregatingMovesGroups(front, claimed, key, app);
      assert Aggregated(events, claimed)[..|events| - 1] == Aggregated(front, claimed);
    }
  }

  lemma {:induction false} NoneAggregatedIsZero(events: seq<UsageEvent>, key: Key)
    requires forall i :: 0 <= i < |events| && events[i].aggregated ==> KeyOf(events[i]) != key
    ensures AggregatedSum(events, key) == 0
  {
    if events != [] {
      NoneAggregatedIsZero(events[..|events| - 1], key);
    }
  }

  lemma {:induction false} NoneClaimedIsZero(events: seq<UsageEvent>, claimed: set<nat>, key: Key)
    requires forall i :: i in claimed && i < |events| ==> KeyOf(events[i]) != key
    ensures GroupSum(events, claimed, key) == 0
  {
    if events != [] {
      NoneClaimedIsZero(events[..|events| - 1], claimed, key);
    }
  }

  lemma WindowsAreTruncations(s: Sample, app: AppId, window: int)
    requires window % WINDOW == 0
    ensures InWindow(s, app, window) <==> s.app == app && Truncate(s.observedAt) == window
  {
  }

  // ---------------------------------------------------------------- each transaction

  lemma IngestKeepsCursors(m: Meter, s: Sample)
    requires CursorsAgree(m.apps, m.cursors, m.samples) && s.app in m.apps
    requires s.cumulative == Cursor(m.cursors, s.app) + s.delta
    requires !KnownSample(m, s.sid)
    ensures CursorsAgree(m.apps, m.cursors[s.app := s.cumulative], m.samples + [s])
  {
    var n := m.(samples := m.samples + [s], cursors := m.cursors[s.app := s.cumulative]);
    forall app ensures Cursor(n.cursors, app) == SampledBytes(n.samples, app) {
      SampleAppended(m.samples, s, app, 0);
    }
    assert n.samples[..|m.samples|] == m.samples;
  }

  lemma IngestKeepsWindows(m: Meter, s: Sample)
    requires WindowsClosed(m.now, m.samples, m.events) && !s.processed && s.observedAt >= Truncate(m.now)
    ensures WindowsClosed(m.now, m.samples + [s], m.events)
  {
  }

  lemma IngestKeepsBytes(m: Meter, s: Sample)
    requires WindowsClosed(m.now, m.samples, m.events) && BytesAgree(m.samples, m.events) && !s.processed
    requires s.observedAt >= Truncate(m.now)
    ensures BytesAgree(m.samples + [s], m.events)
  {
    var n := m.(samples := m.samples + [s]);
    forall app ensures ProcessedBytes(n.samples, app) == MeteredBytes(n.events, app) {
      SampleAppended(m.samples, s, app, 0);
    }
    forall e | 0 <= e < |n.events| && n.events[e].code == Egress
      ensures BytesOf(n.events[e].quantity) == WindowBytes(n.samples, n.events[e].app, n.events[e].window)
    {
      SampleAppended(m.samples, s, n.events[e].app, n.events[e].window);
    }
  }

  lemma SampleKeeps(m: Meter, s: Sample)
    requires Inv(m) && s.app in m.apps && s.cumulative == Cursor(m.cursors, s.app) + s.delta
    requires !KnownSample(m, s.sid) && !s.processed && s.observedAt >= Truncate(m.now)
    ensures Inv(m.(samples := m.samples + [s], cursors := m.cursors[s.app := s.cumulative]))
  {
    IngestKeepsCursors(m, s);
    IngestKeepsWindows(m, s);
    IngestKeepsBytes(m, s);
  }

  /** A duplicate leaves the cursor at its value, if only by writing it again. */
  lemma DuplicateKeepsCursors(apps: set<AppId>, cursors: map<AppId, nat>, samples: seq<Sample>, app: AppId)
    requires CursorsAgree(apps, cursors, samples) && app in apps
    ensures CursorsAgree(apps, cursors[app := Cursor(cursors, app)], samples)
  {
    assert forall a :: Cursor(cursors[app := Cursor(cursors, app)], a) == Cursor(cursors, a);
  }

  lemma DuplicateKeeps(m: Meter, app: AppId)
    requires Inv(m) && app in m.apps
    ensures Inv(m.(cursors := m.cursors[app := Cursor(m.cursors, app)]))
  {
    DuplicateKeepsCursors(m.apps, m.cursors, m.samples, app);
  }

  lemma AcceptedIs(m: Meter, app: AppId, sid: string, delta: int, observedAt: int)
    requires IngestAnswer(m, app, sid, delta, observedAt).Accepted?
    ensures delta >= 0 && observedAt >= Truncate(m.now) && app in m.apps && !KnownSample(m, sid)
    ensures var s := Sample(sid, app, Cursor(m.cursors, app) + delta, delta, observedAt, false);
      Ingest(m, app, sid, delta, observedAt)
      == m.(samples := m.samples + [s], cursors := m.cursors[app := s.cumulative])
  {
  }

  lemma IngestKeeps(m: Meter, app: AppId, sid: string, delta: int, observedAt: int)
    requires Inv(m)
    ensures Inv(Ingest(m, app, sid, delta, observedAt))
  {
    match IngestAnswer(m, app, sid, delta, observedAt)
    case Accepted =>
      AcceptedIs(m, app, sid, delta, observedAt);
      SampleKeeps(m, Sample(sid, app, Cursor(m.cursors, app) + delta, delta, observedAt, false));
    case Duplicate => DuplicateKeeps(m, app);
    case _ =>
  }

  lemma {:induction false} MarkingKeepsCumulative(samples: seq<Sample>, app: AppId, window: int)
    requires Cumulative(samples)
    ensures Cumulative(MarkProcessed(samples, app, window))
  {
    if samples != [] {
      var front := samples[..|samples| - 1];
      MarkingKeepsCumulative(front, app, window);
      assert MarkProcessed(samples, app, window)[..|front|] == MarkProcessed(front, app, window);
      MarkingMovesPending(samples, app, window, samples[|front|].app);
    }
  }

  lemma MarkingKeepsCursors(m: Meter, app: AppId, window: int)
    requires CursorsAgree(m.apps, m.cursors, m.samples)
    ensures CursorsAgree(m.apps, m.cursors, MarkProcessed(m.samples, app, window))
  {
    var n := m.(samples := MarkProcessed(m.samples, app, window));
    forall other ensures SampledBytes(n.samples, other) == SampledBytes(m.samples, other) {
      MarkingMovesPending(m.samples, app, window, other);
    }
    MarkingKeepsCumulative(m.samples, app, window);
  }

  lemma PendingWindowIsFresh(m: Meter, app: AppId, window: int)
    requires WindowsClosed(m.now, m.samples, m.events) && Meterable(m, app, window)
    ensures !HasEvent(m, app, Egress, window)
    ensures PendingBytes(m.samples, app, window) == WindowBytes(m.samples, app, window)
  {
    forall i | 0 <= i < |m.samples| && InWindow(m.samples[i], app, window) ensures !m.samples[i].processed {
      var p :| 0 <= p < |m.samples| && InWindow(m.samples[p], app, window) && !m.samples[p].processed;
      WindowsAreTruncations(m.samples[i], app, window);
      WindowsAreTruncations(m.samples[p], app, window);
      assert SameWindow(m.samples[i], m.samples[p]);
    }
    PendingIsAll(m.samples, app, window);
  }

  lemma RecordedBytes(m: Meter, app: AppId, window: int, delta: nat, price: Option<PriceId>, other: AppId)
    requires !HasEvent(m, app, Egress, window)
    ensures var n := if delta > 0 then Record(m, app, Egress, window, GiBUnits(delta), price) else m;
      MeteredBytes(n.events, other) == MeteredBytes(m.events, other) + if other == app then delta else 0
  {
    BytesSurviveRounding(delta);
    EventAppended(m.events, UsageEvent(app, Egress, window, GiBUnits(delta), price, false), other,
                  Key(app, Egress, window, price));
  }

  lemma MeteredEventsRead(m: Meter, app: AppId, window: int, price: Option<PriceId>, e: nat)
    requires WindowsClosed(m.now, m.samples, m.events) && BytesAgree(m.samples, m.events) && Meterable(m, app, window)
    requires e < |MeterWindow(m, app, window, price).events|
    ensures var n := MeterWindow(m, app, window, price);
      n.events[e].code == Egress ==>
        BytesOf(n.events[e].quantity) == WindowBytes(n.samples, n.events[e].app, n.events[e].window)
  {
    var n := MeterWindow(m, app, window, price);
    PendingWindowIsFresh(m, app, window);
    MarkingKeepsWindows(m.samples, app, window, n.events[e].app, n.events[e].window);
    if e >= |m.events| { BytesSurviveRounding(PendingBytes(m.samples, app, window)); }
  }

  lemma MeterWindowBytes(m: Meter, app: AppId, window: int, price: Option<PriceId>)
    requires WindowsClosed(m.now, m.samples, m.events) && BytesAgree(m.samples, m.events) && Meterable(m, app, window)
    ensures var n := MeterWindow(m, app, window, price);
      BytesAgree(n.samples, n.events)
  {
    var n := MeterWindow(m, app, window, price);
    PendingWindowIsFresh(m, app, window);
    forall other ensures ProcessedBytes(n.samples, other) == MeteredBytes(n.events, other) {
      MarkingMovesPending(m.samples, app, window, other);
      RecordedBytes(m, app, window, PendingBytes(m.samples, app, window), price, other);
    }
    forall e | 0 <= e < |n.events| && n.events[e].code == Egress
      ensures BytesOf(n.events[e].quantity) == WindowBytes(n.samples, n.events[e].app, n.events[e].window)
    {
      MeteredEventsRead(m, app, window, price, e);
    }
  }

  lemma RecordKeepsAggregates(m: Meter, app: AppId, code: Code, window: int, quantity: nat, price: Option<PriceId>)
    requires EventsUnique(m.events) && AggregatesAgree(m.events, m.aggregates)
    ensures var n := Record(m, app, code, window, quantity, price);
      EventsUnique(n.events) && AggregatesAgree(n.events, n.aggregates)
  {
    var n := Record(m, app, code, window, quantity, price);
    if n != m {
      var e := UsageEvent(app, code, window, quantity, price, false);
      forall key | key in n.aggregates
        ensures n.aggregates[key].quantity == AggregatedSum(n.events, key)
        ensures HasAggregated(n.events, key)
      {
        EventAppended(m.events, e, app, key);
        var i :| 0 <= i < |m.events| && m.events[i].aggregated && KeyOf(m.events[i]) == key;
        assert n.events[i] == m.events[i];
      }
    }
  }

  lemma MeterWindowKeeps(m: Meter, app: AppId, window: int, price: Option<PriceId>)
    requires Inv(m)
    ensures Inv(MeterWindow(m, app, window, price))
  {
    if Meterable(m, app, window) {
      var n := MeterWindow(m, app, window, price);
      var delta := PendingBytes(m.samples, app, window);
      MarkingKeepsCursors(m, app, window);
      MeterWindowBytes(m, app, window, price);
      RecordKeepsAggregates(m, app, Egress, window, GiBUnits(delta), price);
      assert WindowsClosed(n.now, n.samples, n.events) by { MeterWindowCloses(m, app, window, price); }
    }
  }

  lemma MeterWindowCloses(m: Meter, app: AppId, window: int, price: Option<PriceId>)
    requires WindowsClosed(m.now, m.samples, m.events) && Meterable(m, app, window)
    ensures var n := MeterWindow(m, app, window, price);
      WindowsClosed(n.now, n.samples, n.events)
  {
    var n := MeterWindow(m, app, window, price);
    forall i, j | 0 <= i < |n.samples| && 0 <= j < |n.samples| && n.samples[i].processed
                  && SameWindow(n.samples[i], n.samples[j])
      ensures n.samples[j].processed
    {
      WindowsAreTruncations(m.samples[i], app, window);
      WindowsAreTruncations(m.samples[j], app, window);
    }
  }

  lemma RecordOtherKeeps(m: Meter, app: AppId, code: Code, window: int, quantity: nat, price: Option<PriceId>)
    requires Inv(m) && code != Egress
    ensures Inv(Record(m, app, code, window, quantity, price))
  {
    RecordKeepsAggregates(m, app, code, window, quantity, price);
    OtherMetersKeepBytes(m, app, code, window, quantity, price);
  }

  lemma MeterResourceKeeps(m: Meter, app: AppId, code: Code, quantity: nat, price: Option<PriceId>)
    requires Inv(m)
    ensures Inv(MeterResource(m, app, code, quantity, price))
  {
    var window := Truncate(m.now) - WINDOW;
    if code != Egress && app in m.apps {
      RecordOtherKeeps(m, app, code, window, quantity, price);
      assert MeterResource(m, app, code, quantity, price) == Record(m, app, code, window, quantity, price);
    } else {
      assert MeterResource(m, app, code, quantity, price) == m;
    }
  }

  lemma OtherMetersKeepBytes(m: Meter, app: AppId, code: Code, window: int, quantity: nat, price: Option<PriceId>)
    requires WindowsClosed(m.now, m.samples, m.events) && BytesAgree(m.samples, m.events) && code != Egress
    ensures var n := Record(m, app, code, window, quantity, price);
      BytesAgree(n.samples, n.events) && WindowsClosed(n.now, n.samples, n.events)
  {
    var n := Record(m, app, code, window, quantity, price);
    forall other ensures MeteredBytes(n.events, other) == MeteredBytes(m.events, other) {
      EventAppended(m.events, UsageEvent(app, code, window, quantity, price, false), other,
                    Key(app, code, window, price));
    }
  }

  /** A claimed event never meets an existing row, so the WHERE clause on sealed rows drops nothing. */
  lemma ClaimsAreNew(m: Meter, claimed: set<nat>)
    requires EventsUnique(m.events) && AggregatesAgree(m.events, m.aggregates) && Claimable(m, claimed)
    ensures forall key :: key in ClaimedKeys(m, claimed) ==> key !in m.aggregates
  {
  }

  lemma ClaimedKeyAgrees(m: Meter, claimed: set<nat>, key: Key)
    requires EventsUnique(m.events) && AggregatesAgree(m.events, m.aggregates) && Claimable(m, claimed)
    requires key in ClaimedKeys(m, claimed)
    ensures var n := AggregateUsage(m, claimed);
      key in n.aggregates && n.aggregates[key].quantity == AggregatedSum(n.events, key) && HasAggregated(n.events, key)
  {
    ClaimsAreNew(m, claimed);
    NoneAggregatedIsZero(m.events, key);
    AggregatingMovesGroups(m.events, claimed, key, 0);
    var i :| i in claimed && KeyOf(m.events[i]) == key;
    assert Aggregated(m.events, claimed)[i].aggregated;
  }

  lemma OtherKeyAgrees(m: Meter, claimed: set<nat>, key: Key)
    requires AggregatesAgree(m.events, m.aggregates) && Claimable(m, claimed)
    requires key in m.aggregates && key !in ClaimedKeys(m, claimed)
    ensures var n := AggregateUsage(m, claimed);
      key in n.aggregates && n.aggregates[key].quantity == AggregatedSum(n.events, key) && HasAggregated(n.events, key)
  {
    NoneClaimedIsZero(m.events, claimed, key);
    AggregatingMovesGroups(m.events, claimed, key, 0);
    var i :| 0 <= i < |m.events| && m.events[i].aggregated && KeyOf(m.events[i]) == key;
    assert Aggregated(m.events, claimed)[i].aggregated;
  }

  lemma AggregateKeepsSums(m: Meter, claimed: set<nat>, key: Key)
    requires EventsUnique(m.events) && AggregatesAgree(m.events, m.aggregates) && Claimable(m, claimed)
    requires key in AggregateUsage(m, claimed).aggregates
    ensures var n := AggregateUsage(m, claimed);
      n.aggregates[key].quantity == AggregatedSum(n.events, key) && HasAggregated(n.events, key)
  {
    if key in ClaimedKeys(m, claimed) { ClaimedKeyAgrees(m, claimed, key); } else { OtherKeyAgrees(m, claimed, key); }
  }

  lemma AggregateKeepsBytes(m: Meter, claimed: set<nat>)
    requires BytesAgree(m.samples, m.events) && WindowsClosed(m.now, m.samples, m.events) && Claimable(m, claimed)
    ensures var n := AggregateUsage(m, claimed);
      BytesAgree(n.samples, n.events) && WindowsClosed(n.now, n.samples, n.events)
  {
    forall app ensures MeteredBytes(Aggregated(m.events, claimed), app) == MeteredBytes(m.events, app) {
      AggregatingMovesGroups(m.events, claimed, Key(app, Egress, 0, None), app);
    }
  }

  lemma AggregateKeeps(m: Meter, claimed: set<nat>)
    requires Inv(m)
    ensures Inv(AggregateUsage(m, claimed))
  {
    if Claimable(m, claimed) {
      var n := AggregateUsage(m, claimed);
      AggregateKeepsBytes(m, claimed);
      forall key | key in n.aggregates
        ensures n.aggregates[key].quantity == AggregatedSum(n.events, key)
        ensures HasAggregated(n.events, key)
      {
        AggregateKeepsSums(m, claimed, key);
      }
    }
  }

  lemma TickKeeps(m: Meter, seconds: nat)
    requires Inv(m)
    ensures Inv(m.(now := m.now + seconds))
  {
    assert Truncate(m.now) <= Truncate(m.now + seconds);
  }

  /** Sealing changes flags only. */
  lemma SealingKeeps(m: Meter, n: Meter)
    requires Inv(m) && n == m.(aggregates := n.aggregates) && n.aggregates.Keys == m.aggregates.Keys
    requires forall key :: key in m.aggregates ==> n.aggregates[key].quantity == m.aggregates[key].quantity
    ensures Inv(n)
  {
  }

  lemma BilledKeeps(m: Meter, key: Key)
    requires Inv(m)
    ensures Inv(SealBilled(m, key))
  {
    SealingKeeps(m, SealBilled(m, key));
  }

  lemma UnpricedKeeps(m: Meter)
    requires Inv(m)
    ensures Inv(SealUnpriced(m))
  {
    SealingKeeps(m, SealUnpriced(m));
  }

  lemma ApplyKeeps(m: Meter, e: Event)
    requires Inv(m)
    ensures Inv(Apply(m, e))
  {
    match e
    case Tick(seconds) => TickKeeps(m, seconds);
    case AppCreated(_) =>
    case SampleReceived(app, sid, delta, observedAt) => IngestKeeps(m, app, sid, delta, observedAt);
    case EgressMetered(app, window, price) => MeterWindowKeeps(m, app, window, price);
    case ResourceMetered(app, code, quantity, price) => MeterResourceKeeps(m, app, code, quantity, price);
    case UsageAggregated(claimed) => AggregateKeeps(m, claimed);
    case AggregateBilled(key) => BilledKeeps(m, key);
    case UnpricedSealed => UnpricedKeeps(m);
  }

  lemma {:induction false} RunKeeps(m: Meter, events: seq<Event>)
    requires Inv(m)
    ensures Inv(Run(m, events))
  {
    if events != [] {
      RunKeeps(m, events[..|events| - 1]);
      ApplyKeeps(Run(m, events[..|events| - 1]), events[|events| - 1]);
    }
  }

  // ---------------------------------------------------------------- the statements over whole runs

  /** In every reachable state the cursor is the sum of the distinct samples, the processed bytes are
      exactly the bytes of the egress events, each event covers every sample its window will ever
      hold, and each aggregate is the sum of its aggregated events. */
  lemma EgressMeteredExactlyOnce(start: int, events: seq<Event>, app: AppId)
    ensures var m := Run(Empty(start), events);
      && Cursor(m.cursors, app) == SampledBytes(m.samples, app)
      && ProcessedBytes(m.samples, app) == MeteredBytes(m.events, app)
      && (forall i, j :: 0 <= i < j < |m.samples| ==> m.samples[i].sid != m.samples[j].sid)
      && (forall e :: 0 <= e < |m.events| && m.events[e].code == Egress ==>
            BytesOf(m.events[e].quantity) == WindowBytes(m.samples, m.events[e].app, m.events[e].window))
      && (forall key :: key in m.aggregates ==> m.aggregates[key].quantity == AggregatedSum(m.events, key))
  {
    RunKeeps(Empty(start), events);
  }

  lemma OpenWindowIsUnmetered(m: Meter, observedAt: int)
    requires WindowsClosed(m.now, m.samples, m.events) && observedAt >= Truncate(m.now)
    ensures forall e :: 0 <= e < |m.events| && m.events[e].code == Egress ==>
      observedAt >= m.events[e].window + WINDOW
    ensures forall i :: 0 <= i < |m.samples| && m.samples[i].processed ==>
      Truncate(m.samples[i].observedAt) < Truncate(observedAt)
  {
  }

  /** No accepted sample lands in a window that has been metered. */
  lemma NoLateSample(start: int, events: seq<Event>, app: AppId, sid: string, delta: int, observedAt: int)
    requires IngestAnswer(Run(Empty(start), events), app, sid, delta, observedAt) == Accepted
    ensures var m := Run(Empty(start), events);
      && (forall e :: 0 <= e < |m.events| && m.events[e].code == Egress ==>
            observedAt >= m.events[e].window + WINDOW)
      && (forall i :: 0 <= i < |m.samples| && m.samples[i].processed ==>
            Truncate(m.samples[i].observedAt) < Truncate(observedAt))
  {
    RunKeeps(Empty(start), events);
    OpenWindowIsUnmetered(Run(Empty(start), events), observedAt);
  }

  /** Once nothing is pending, everything accepted has been turned into usage events. */
  lemma {:induction false} AllProcessed(samples: seq<Sample>, app: AppId)
    requires forall i :: 0 <= i < |samples| ==> samples[i].processed
    ensures ProcessedBytes(samples, app) == SampledBytes(samples, app)
  {
    if samples != [] {
      AllProcessed(samples[..|samples| - 1], app);
    }
  }

  lemma DrainedMeterBillsTheCursor(start: int, events: seq<Event>, app: AppId)
    requires forall i :: 0 <= i < |Run(Empty(start), events).samples| ==> Run(Empty(start), events).samples[i].processed
    ensures MeteredBytes(Run(Empty(start), events).events, app) == Cursor(Run(Empty(start), events).cursors, app)
  {
    RunKeeps(Empty(start), events);
    AllProcessed(Run(Empty(start), events).samples, app);
  }
}
