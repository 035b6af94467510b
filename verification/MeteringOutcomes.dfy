/** Where each usage event comes from, and which samples are taken. */
module MeteringOutcomes {
  import opened Domain
  import opened Metering
  import opened MeteringInvariant

  // ---------------------------------------------------------------- samples

  /** A sample is taken exactly when its id is new and fits, its bytes are not negative and leave room in the
      cursor, its time lies in the open window or at most two minutes ahead, and the application exists. */
  lemma SampleAcceptedIff(m: Meter, app: AppId, sid: string, delta: int, observedAt: int)
    ensures IngestAnswer(m, app, sid, delta, observedAt).Accepted? <==>
      && 1 <= |sid| <= 128 && (forall i :: 0 <= i < |m.samples| ==> m.samples[i].sid != sid)
      && delta >= 0 && Cursor(m.cursors, app) + delta <= MAX_INT64
      && m.now - m.now % 300 <= observedAt <= m.now + 120 && app in m.apps
  {
    assert Truncate(m.now) == m.now - m.now % 300;
  }

  /** Any thousand events that are not aggregated yet can be aggregated at once, and no more. */
  lemma ClaimableIff(m: Meter, claimed: set<nat>)
    ensures Claimable(m, claimed) <==>
      |claimed| <= 1000 && forall i :: i in claimed ==> i < |m.events| && !m.events[i].aggregated
  {
  }

  // ---------------------------------------------------------------- events

  /** This step of the meter records the row: its application, code and price, the window it is for, and the
      bytes that were pending or the quantity that was measured. */
  predicate Records(m: Meter, e: Event, row: UsageEvent) {
    match e
    case EgressMetered(app, window, price) =>
      && row.app == app && row.code == Egress && row.window == window && row.price == price
      && BytesOf(row.quantity) == PendingBytes(m.samples, app, window)
    case ResourceMetered(app, code, quantity, price) =>
      && row.app == app && row.code == code && row.price == price && row.quantity == quantity
      && row.window + 300 <= m.now < row.window + 600
    case _ => false
  }

  predicate SameEvent(x: UsageEvent, y: UsageEvent) {
    x == y.(aggregated := x.aggregated)
  }

  lemma NewEventRecorded(m: Meter, e: Event, i: nat)
    requires |m.events| <= i < |Apply(m, e).events|
    ensures Records(m, e, Apply(m, e).events[i])
  {
    match e
    case EgressMetered(app, window, price) => BytesSurviveRounding(PendingBytes(m.samples, app, window));
    case ResourceMetered(app, code, quantity, price) => assert Truncate(m.now) <= m.now < Truncate(m.now) + WINDOW;
    case _ =>
  }

  lemma EventsStay(m: Meter, e: Event, i: nat)
    requires i < |m.events|
    ensures i < |Apply(m, e).events| && SameEvent(Apply(m, e).events[i], m.events[i])
  {
  }

  /** Some step of the run recorded the row. */
  ghost predicate RecordedIn(start: int, events: seq<Event>, row: UsageEvent) {
    events != [] &&
      (|| RecordedIn(start, events[..|events| - 1], row)
       || Records(Run(Empty(start), events[..|events| - 1]), events[|events| - 1], row))
  }

  lemma {:induction false} RecordedAlike(start: int, events: seq<Event>, x: UsageEvent, y: UsageEvent)
    requires SameEvent(x, y) && RecordedIn(start, events, y)
    ensures RecordedIn(start, events, x)
  {
    if RecordedIn(start, events[..|events| - 1], y) { RecordedAlike(start, events[..|events| - 1], x, y); }
  }

  /** Every usage event of a run was recorded by one metering step, with the price version resolved there. */
  lemma {:induction false} EveryEventWasRecorded(start: int, events: seq<Event>, i: nat)
    requires i < |Run(Empty(start), events).events|
    ensures RecordedIn(start, events, Run(Empty(start), events).events[i])
  {
    var front, e := events[..|events| - 1], events[|events| - 1];
    var before := Run(Empty(start), front);
    if i < |before.events| {
      EveryEventWasRecorded(start, front, i);
      EventsStay(before, e, i);
      RecordedAlike(start, front, Run(Empty(start), events).events[i], before.events[i]);
    } else {
      NewEventRecorded(before, e, i);
    }
  }

  /** And no closed window is passed over: metering one with pending bytes records them, at the price given. */
  lemma PendingBytesAreRecorded(m: Meter, app: AppId, window: int, price: Option<PriceId>)
    requires Inv(m) && Meterable(m, app, window) && PendingBytes(m.samples, app, window) > 0
    ensures var n := Apply(m, EgressMetered(app, window, price));
      && |n.events| == |m.events| + 1 && n.events[..|m.events|] == m.events
      && Records(m, EgressMetered(app, window, price), n.events[|m.events|]) && !n.events[|m.events|].aggregated
      && PendingBytes(n.samples, app, window) == 0
  {
    PendingWindowIsFresh(m, app, window);
    BytesSurviveRounding(PendingBytes(m.samples, app, window));
    NothingPending(m.samples, app, window);
  }

  lemma {:induction false} NothingPending(samples: seq<Sample>, app: AppId, window: int)
    ensures PendingBytes(MarkProcessed(samples, app, window), app, window) == 0
  {
    if samples != [] {
      var front := samples[..|samples| - 1];
      NothingPending(front, app, window);
      assert MarkProcessed(samples, app, window)[..|front|] == MarkProcessed(front, app, window);
    }
  }
}
