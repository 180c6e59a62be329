/** When the execute loop does not end: a restored recovery report that comes again
    is answered with success and changes nothing, so that a pass that takes it for
    progress can repeat for ever. */
module ExecutionSpin {
  import opened Wrappers
  import opened Int64
  import opened AccountingModel
  import opened OrderModel
  import opened OrderStore
  import opened ExecutionProtocol
  import opened ExecutionRuns
  import opened PlanMeasure
  import opened ExecutionLoop

  /** A broker event about an order: that its outcome is unknown, or a partial fill. */
  function UnknownEvent(o: Order, event: string): Event {
    Event(Report(BrokerEvent(event), o.id, o.clientId, o.brokerId, ReportUnknown, o.filled, 1, 1), None)
  }

  function PartialEvent(o: Order, event: string, fill: nat, filled: int64): Event
    requires 0 <= o.filled <= filled
  {
    Event(Report(BrokerEvent(event), o.id, o.clientId, o.brokerId, ReportPartialFill, filled, 1, 1),
          Some(ExecutionFill(fill, o.id, BrokerEvent(event), filled - o.filled, o.leg.currency)))
  }

  /** An order at the broker: the states in which it has been recovered before and is
      not at its end. */
  predicate AtBroker(o: Order) {
    Sound(o) && Stage(o.state) == 3 && !Absorbing(o.state)
  }

  lemma BecomesUnknown(o: Order, event: string)
    requires AtBroker(o) && o.state !in {Cancelled, Unknown} && o.revision < MAX_UINT64
    ensures ApplyReport(o, UnknownEvent(o, event).report, None).Ok?
    ensures var next := ApplyReport(o, UnknownEvent(o, event).report, None).value;
            && AtBroker(next) && next.state == Unknown && next.filled == o.filled && next.id == o.id
            && next.clientId == o.clientId && next.leg == o.leg && next.brokerId == o.brokerId
            && next.revision == o.revision + 1
  {
    PlainReportAcceptedExactly(o, UnknownEvent(o, event).report);
  }

  lemma FillsInPart(o: Order, event: string, fill: nat, filled: int64)
    requires AtBroker(o) && o.filled < filled < o.leg.quantity && o.revision < MAX_UINT64
    ensures var e := PartialEvent(o, event, fill, filled); ApplyReport(o, e.report, e.fill).Ok?
    ensures var e := PartialEvent(o, event, fill, filled);
            var next := ApplyReport(o, e.report, e.fill).value;
            && AtBroker(next) && next.state == PartiallyFilled && next.filled == filled && next.id == o.id
            && next.clientId == o.clientId && next.leg == o.leg && next.brokerId == o.brokerId
            && next.revision == o.revision + 1
  {
    var e := PartialEvent(o, event, fill, filled);
    FillReportAcceptedExactly(o, e.report, e.fill.value);
  }

  /** The broker sends one event about the order, and it is published. */
  lemma BrokerSends(store: Store, e: Event, next: Order)
    requires e.report.order in store.orders && e.report.id.BrokerEvent?
    requires ApplyReport(store.orders[e.report.order], e.report, e.fill) == Ok(next)
    requires !ReportUsed(store.log, e.report.id) && (e.fill.Some? ==> !FillUsed(store.log, e.fill.value.id))
    ensures var after := store.(orders := store.orders[e.report.order := next], log := store.log + [e]);
            PublishAll(store, [e]) == Some(after)
  {
    hide ApplyReport;
    PublishAccepts(store, e, next);
    PublishOne(store, e);
  }

  /** The order of a store is UNKNOWN with the filled quantity, after broker events
      about it alone. */
  predicate Brought(store: Store, events: seq<Event>, id: OrderId, filled: int) {
    && (forall e <- events :: e.report.order == id && e.report.id.BrokerEvent? && PositiveFill(e))
    && PublishAll(store, events).Some?
    && var after := PublishAll(store, events).value;
    && after.restored == store.restored && store.log <= after.log && id in after.orders && id in store.orders
    && after.orders[id].state == Unknown && after.orders[id].filled == filled && Sound(after.orders[id])
    && after.orders[id].id == id && after.orders[id].clientId == store.orders[id].clientId
    && after.orders[id].brokerId == store.orders[id].brokerId
    && after.orders[id].revision <= store.orders[id].revision + 3
  }

  lemma FreshMeansUnused(log: seq<Event>, event: string, fill: nat)
    requires forall i :: 0 <= i < |log| && log[i].report.id.BrokerEvent? ==> |log[i].report.id.event| < |event|
    requires forall i :: 0 <= i < |log| && log[i].fill.Some? ==> log[i].fill.value.id < fill
    ensures !ReportUsed(log, BrokerEvent(event)) && !FillUsed(log, fill)
  {
  }

  /** One event can make an order at the broker UNKNOWN. */
  lemma OneEventMakesUnknown(store: Store, id: OrderId) returns (events: seq<Event>)
    requires id in store.orders && store.orders[id].id == id && AtBroker(store.orders[id])
    requires store.orders[id].state !in {Cancelled, Unknown} && store.orders[id].revision < MAX_UINT64
    ensures Brought(store, events, id, store.orders[id].filled)
    ensures PublishAll(store, events).value.orders[id].revision == store.orders[id].revision + 1
  {
    hide ApplyReport, ReportUsed, FillUsed, PublishAll;
    var event, fill := FreshNames(store.log);
    FreshMeansUnused(store.log, event, fill);
    var e := UnknownEvent(store.orders[id], event);
    BecomesUnknown(store.orders[id], event);
    BrokerSends(store, e, ApplyReport(store.orders[id], e.report, None).value);
    events := [e];
  }

  /** And two can make it UNKNOWN with a larger filled quantity. */
  lemma TwoEventsMakeUnknown(store: Store, id: OrderId, filled: int64) returns (events: seq<Event>)
    requires id in store.orders && store.orders[id].id == id && AtBroker(store.orders[id])
    requires store.orders[id].filled < filled < store.orders[id].leg.quantity
    requires store.orders[id].revision + 1 < MAX_UINT64
    ensures Brought(store, events, id, filled)
  {
    hide ApplyReport, ReportUsed, FillUsed, PublishAll;
    var o := store.orders[id];
    var event, fill := FreshNames(store.log);
    FreshMeansUnused(store.log, event, fill);
    var e := PartialEvent(o, event, fill, filled);
    FillsInPart(o, event, fill, filled);
    var next := ApplyReport(o, e.report, e.fill).value;
    BrokerSends(store, e, next);
    var mid := store.(orders := store.orders[id := next], log := store.log + [e]);
    var rest := OneEventMakesUnknown(mid, id);
    PublishTwice(store, [e], rest);
    events := [e] + rest;
  }

  /** Whatever order can come to be UNKNOWN with the quantity, a broker can bring it
      there. */
  lemma CanBeBrought(store: Store, id: OrderId, filled: int64) returns (events: seq<Event>)
    requires id in store.orders && store.orders[id].id == id && AtBroker(store.orders[id])
    requires CanReturn(store.orders[id], filled) && store.orders[id].revision + 1 < MAX_UINT64
    ensures Brought(store, events, id, filled)
  {
    hide PublishAll;
    if store.orders[id].filled < filled {
      events := TwoEventsMakeUnknown(store, id, filled);
    } else if store.orders[id].state == Unknown {
      events := [];
      assert PublishAll(store, []) == Some(store) by { NothingPublished(store); }
    } else {
      events := OneEventMakesUnknown(store, id);
    }
  }

  lemma NothingPublished(store: Store)
    ensures PublishAll(store, []) == Some(store)
  {
  }

  /** The recovery is answered with success and leaves the store as it is. */
  predicate Spins(store: Store, id: OrderId, at: Instant, brokerId: string) {
    && id in store.orders && store.orders[id].state == Unknown
    && var e := RecoveryOf(store.orders[id], at, brokerId);
    && ApplyReport(store.orders[id], e.report, None).Ok?
    && ApplyReport(store.orders[id], e.report, None).value.state == Submitted
    && OrderStore.Publish(store, e) == Ok(store)
  }

  /** Where a restored recovery can be taken for progress, some broker makes the loop
      run for ever. It sends at most two events about the order, which leave it UNKNOWN
      at the quantity of the recovery, and answers every lookup with the identity of
      the recovery. Together with the bound on the passes of a calm plan: a call at a
      time ends against every broker if and only if the plan is calm at that time. */
  lemma NotCalmSpins(registered: map<OrderId, Order>, store: Store, plan: nat, legs: seq<Leg>, at: Instant)
    returns (k: nat, events: seq<Event>, brokerId: string)
    requires Registered(registered) && Explained(registered, store) && HasOrders(store, plan, legs)
    requires !Calm(store, plan, legs, at)
    requires forall id <- store.orders :: store.orders[id].revision + 3 < MAX_UINT64
    ensures k < |legs| && Brought(store, events, OrderId(plan, legs[k].id),
                                  store.orders[OrderId(plan, legs[k].id)].filled + FillTotal(events))
    ensures Spins(PublishAll(store, events).value, OrderId(plan, legs[k].id), at, brokerId)
  {
    hide Explained, Registered, ApplyReport, PublishAll, FillTotal;
    var i: nat;
    k, i :| 0 <= k < |legs| && 0 <= i < |store.log| && i < store.restored &&
            RecoveryAt(store.log[i].report, OrderId(plan, legs[k].id), at) &&
            CanReturn(store.orders[OrderId(plan, legs[k].id)], store.log[i].report.cumulative);
    var id, r := OrderId(plan, legs[k].id), store.log[i].report;
    OrdersAreSound(registered, store, id);
    LoggedMark(registered, store, i);
    events := CanBeBrought(store, id, r.cumulative);
    brokerId := r.brokerId;
    var after := PublishAll(store, events).value;
    assert after.log[i] == store.log[i];
    RecoverySpins(after, id, at, i);
    BroughtTotal(registered, store, events, id, r.cumulative);
  }

  lemma RecoverySpins(store: Store, id: OrderId, at: Instant, i: nat)
    requires id in store.orders && Sound(store.orders[id]) && store.orders[id].id == id
    requires store.orders[id].state == Unknown && store.orders[id].revision < MAX_UINT64
    requires i < |store.log| && i < store.restored && RecoveryAt(store.log[i].report, id, at)
    requires store.log[i].report.cumulative == store.orders[id].filled
    requires Marked(store.orders[id], store.log[i].report)
    ensures Spins(store, id, at, store.log[i].report.brokerId)
  {
    hide ApplyReport;
    var e := RecoveryOf(store.orders[id], at, store.log[i].report.brokerId);
    assert e.report == store.log[i].report;
    assert Replays(store, e);
    PlainReportAcceptedExactly(store.orders[id], e.report);
    UnknownSubmits(store.orders[id], e.report);
  }

  /** The quantity brought about is what the events filled. */
  lemma BroughtTotal(registered: map<OrderId, Order>, store: Store, events: seq<Event>, id: OrderId, filled: int)
    requires Registered(registered) && Explained(registered, store) && Brought(store, events, id, filled)
    ensures filled == store.orders[id].filled + FillTotal(events)
  {
    hide Explained, Registered, PublishAll, FillTotal;
    EventsFill(registered, store, events, id);
  }

  lemma {:induction false} EventsFill(registered: map<OrderId, Order>, store: Store, events: seq<Event>, id: OrderId)
    requires Registered(registered) && Explained(registered, store) && id in store.orders
    requires PublishAll(store, events).Some?
    requires forall e <- events :: e.report.order == id && e.report.id.BrokerEvent? && PositiveFill(e)
    ensures Explained(registered, PublishAll(store, events).value) && id in PublishAll(store, events).value.orders
    ensures PublishAll(store, events).value.orders[id].filled == store.orders[id].filled + FillTotal(events)
  {
    hide Explained, Registered, ApplyReport;
    if events != [] {
      var n := |events| - 1;
      assert events[n] in events && forall e <- events[..n] :: e in events;
      EventsFill(registered, store, events[..n], id);
      var mid := PublishAll(store, events[..n]).value;
      PublishKeepsExplained(registered, mid, events[n]);
      PublishIsForward(registered, mid, events[n]);
      OrdersAreSound(registered, mid, id);
      ReportStep(mid.orders[id], events[n]);
    }
  }

  /** Any number of such recoveries changes nothing. */
  lemma {:induction false} SpinsForEver(store: Store, id: OrderId, at: Instant, brokerId: string, n: nat)
    requires Spins(store, id, at, brokerId)
    ensures PublishAll(store, seq(n, i => RecoveryOf(store.orders[id], at, brokerId))) == Some(store)
  {
    hide ApplyReport, OrderStore.Publish;
    if n > 0 {
      var e := RecoveryOf(store.orders[id], at, brokerId);
      var all := seq(n, i => e);
      assert all[..n - 1] == seq(n - 1, i => e) && all[n - 1] == e;
      SpinsForEver(store, id, at, brokerId, n - 1);
    }
  }

  function Times(steps: seq<Step>, n: nat): seq<Step> {
    if n == 0 then [] else Times(steps, n - 1) + steps
  }

  /** The same as steps of the machine: reserving the order, publishing the recovery
      with success and releasing the order leads back to the same state, any number of
      times. */
  lemma {:induction false} PassesLeadNowhere(s: State, t: TaskId, id: OrderId, at: Instant, brokerId: string, n: nat)
    requires Free(s, t, id) && Spins(s.store, id, at, brokerId) && s.store.orders[id].id == id
    ensures Run(s, Times(ReportSteps(t, id, [RecoveryOf(s.store.orders[id], at, brokerId)]), n)) == Some(s)
  {
    hide Run, ApplyReport, OrderStore.Publish, ReportSteps;
    var e := RecoveryOf(s.store.orders[id], at, brokerId);
    var pass := ReportSteps(t, id, [e]);
    if n == 0 {
      assert Run(s, []) == Some(s) by { NoSteps(s); }
    } else {
      PassesLeadNowhere(s, t, id, at, brokerId, n - 1);
      PublishOne(s.store, e);
      ReportRun(s, t, id, [e]);
      RunAppend(s, Times(pass, n - 1), pass);
    }
  }

  lemma NoSteps(s: State)
    ensures Run(s, []) == Some(s)
  {
  }

  const SampleId := OrderId(1, 3)
  const SampleLeg := Leg(3, 1, Buy, 10, 5, "INR", false, [], false)
  const SampleOrder := NewOrder(1, 1, SampleLeg, 1)
  const SampleAttempt := Attempt(SampleId, 2, 1)

  /** A call at time 1 whose submission and cancellation both lose their answer: the
      order is planned, announced, UNKNOWN, found by lookup as B, its cancellation
      requested, and UNKNOWN again. */
  const SampleHistory: seq<Event> :=
    [ Own(SampleOrder, ReportPlanned, 1, PlanAccepted(SampleId), ""),
      Own(SampleOrder, ReportSubmissionPending, 1, AttemptPending(SampleAttempt), ""),
      Own(SampleOrder, ReportUnknown, 1, AttemptUnknown(SampleAttempt), ""),
      RecoveryOf(SampleOrder, 1, "B"),
      Own(SampleOrder, ReportCancelPending, 1, CancelRequested(SampleId, 5), "B"),
      Own(SampleOrder, ReportUnknown, 1, CancelUnknown(SampleId, 6), "B") ]

  function Stands(state: OrderState, revision: int, brokerId: string): Order {
    SampleOrder.(state := state, revision := revision, brokerId := brokerId)
  }

  lemma StandsMoves(o: Order, kind: ReportType, key: ReportId, brokerId: string)
    requires o == Stands(o.state, o.revision, o.brokerId) && 0 < o.revision < 100 && Sound(o)
    requires LegalTransition(o.state, Target(kind)) && Target(kind) !in {PartiallyFilled, Filled}
    requires Compatible(brokerId, o.brokerId)
    ensures var next := Stands(Target(kind), o.revision + 1, if brokerId != "" then brokerId else o.brokerId);
            ApplyReport(o, Own(SampleOrder, kind, 1, key, brokerId).report, None) == Ok(next) && Sound(next)
  {
  }

  /** The store after the first n events of the history. */
  function SampleAt(n: nat, o: Order): Store
    requires n <= |SampleHistory|
  {
    Store(map[SampleId := o], SampleHistory[..n], 0)
  }

  lemma HistoryStep(n: nat, o: Order, next: Order)
    requires n < |SampleHistory| && PublishAll(SampleAt(0, SampleOrder), SampleHistory[..n]) == Some(SampleAt(n, o))
    requires ApplyReport(o, SampleHistory[n].report, None) == Ok(next)
    ensures PublishAll(SampleAt(0, SampleOrder), SampleHistory[..n + 1]) == Some(SampleAt(n + 1, next))
  {
    hide ApplyReport;
    var e := SampleHistory[n];
    assert SampleHistory[..n + 1] == SampleHistory[..n] + [e] && SampleHistory[..n + 1][..n] == SampleHistory[..n];
    assert e.report.order == SampleId && e.fill.None?;
    assert !ReportUsed(SampleHistory[..n], e.report.id) by { HistoryIsDistinct(n); }
    PublishAccepts(SampleAt(n, o), e, next);
    assert map[SampleId := o][SampleId := next] == map[SampleId := next];
  }

  lemma HistoryIsDistinct(n: nat)
    requires n < |SampleHistory|
    ensures forall i :: 0 <= i < n ==> SampleHistory[i].report.id != SampleHistory[n].report.id
  {
  }

  lemma HistoryIsAccepted()
    ensures PublishAll(SampleAt(0, SampleOrder), SampleHistory) == Some(SampleAt(6, Stands(Unknown, 7, "B")))
    ensures Sound(Stands(Unknown, 7, "B"))
  {
    hide ApplyReport, PublishAll, Sound;
    assert Sound(SampleOrder) by { SampleIsSound(); }
    NothingPublished(SampleAt(0, SampleOrder));
    assert SampleHistory[..0] == [] && SampleHistory[..6] == SampleHistory;
    StandsMoves(SampleOrder, ReportPlanned, PlanAccepted(SampleId), "");
    HistoryStep(0, SampleOrder, Stands(Planned, 2, ""));
    StandsMoves(Stands(Planned, 2, ""), ReportSubmissionPending, AttemptPending(SampleAttempt), "");
    HistoryStep(1, Stands(Planned, 2, ""), Stands(SubmissionPending, 3, ""));
    StandsMoves(Stands(SubmissionPending, 3, ""), ReportUnknown, AttemptUnknown(SampleAttempt), "");
    HistoryStep(2, Stands(SubmissionPending, 3, ""), Stands(Unknown, 4, ""));
    StandsMoves(Stands(Unknown, 4, ""), ReportSubmitted, Recovered(SampleId, "B"), "B");
    HistoryStep(3, Stands(Unknown, 4, ""), Stands(Submitted, 5, "B"));
    StandsMoves(Stands(Submitted, 5, "B"), ReportCancelPending, CancelRequested(SampleId, 5), "B");
    HistoryStep(4, Stands(Submitted, 5, "B"), Stands(CancelPending, 6, "B"));
    StandsMoves(Stands(CancelPending, 6, "B"), ReportUnknown, CancelUnknown(SampleId, 6), "B");
    HistoryStep(5, Stands(CancelPending, 6, "B"), Stands(Unknown, 7, "B"));
  }

  lemma SampleIsSound()
    ensures Sound(SampleOrder) && SampleOrder == Stands(Created, 1, "")
  {
  }

  /** The history leaves an order that was recovered before and is UNKNOWN. */
  lemma LostCancelIsStuck() returns (store: Store)
    ensures PublishAll(Store(map[SampleId := SampleOrder], [], 0), SampleHistory) == Some(store)
    ensures RecoveredBefore(store, SampleId) && store.orders[SampleId].state == Unknown && store.restored == 0
  {
    HistoryIsAccepted();
    store := SampleAt(6, Stands(Unknown, 7, "B"));
    assert SampleHistory[..0] == [] && SampleHistory[..6] == SampleHistory;
    assert store.log[3].report.id == Recovered(SampleId, "B");
  }

  /** And after the store is restored, resuming the plan at the same time spins: the
      lookup that finds B is taken for progress and changes nothing. */
  lemma ResumeSpins() returns (store: Store)
    ensures PublishAll(Store(map[SampleId := SampleOrder], [], 0), SampleHistory) == Some(store)
    ensures var restored := store.(restored := |store.log|);
            && HasOrders(restored, 1, [SampleLeg]) && !Calm(restored, 1, [SampleLeg], 1)
            && Spins(restored, SampleId, 1, "B")
  {
    hide PublishAll, ApplyReport;
    HistoryIsAccepted();
    store := LostCancelIsStuck();
    var o := Stands(Unknown, 7, "B");
    assert store == SampleAt(6, o);
    var restored := store.(restored := |store.log|);
    assert SampleHistory[..6] == SampleHistory;
    assert restored.log[3] == RecoveryOf(SampleOrder, 1, "B");
    RecoverySpins(restored, SampleId, 1, 3);
    assert RecoveryAt(restored.log[3].report, OrderId(1, [SampleLeg][0].id), 1);
    assert CanReturn(restored.orders[SampleId], restored.log[3].report.cumulative);
  }
}
