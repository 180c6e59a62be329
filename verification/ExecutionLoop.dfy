/** How much work a plan has left: the two counts behind the execute loop. */
module PlanMeasure {
  import opened OrderModel
  import opened OrderStore
  import opened ExecutionProtocol
  import Products

  /** Twice the orders still CREATED plus the orders still PLANNED. */
  function NotSubmitted(state: OrderState): nat {
    match state
    case Created => 2
    case Planned => 1
    case _ => 0
  }

  /** Twice the orders SUBMISSION_PENDING plus the orders UNKNOWN. */
  function Unresolved(state: OrderState): nat {
    match state
    case SubmissionPending => 2
    case Unknown => 1
    case _ => 0
  }

  predicate HasOrders(store: Store, plan: nat, legs: seq<Leg>) {
    forall i :: 0 <= i < |legs| ==> OrderId(plan, legs[i].id) in store.orders
  }

  function StateOf(store: Store, plan: nat, leg: Leg): OrderState
    requires OrderId(plan, leg.id) in store.orders
  {
    store.orders[OrderId(plan, leg.id)].state
  }

  function First(store: Store, plan: nat, legs: seq<Leg>): nat
    requires HasOrders(store, plan, legs)
  {
    if legs == [] then 0
    else First(store, plan, legs[..|legs| - 1]) + NotSubmitted(StateOf(store, plan, legs[|legs| - 1]))
  }

  function Second(store: Store, plan: nat, legs: seq<Leg>): nat
    requires HasOrders(store, plan, legs)
  {
    if legs == [] then 0
    else Second(store, plan, legs[..|legs| - 1]) + Unresolved(StateOf(store, plan, legs[|legs| - 1]))
  }

  /** Whatever happens to a store, the first count never grows; and it shrinks as
      soon as one order of the plan moves from CREATED or PLANNED. */
  lemma {:induction false} FirstNeverGrows(before: Store, after: Store, plan: nat, legs: seq<Leg>)
    requires HasOrders(before, plan, legs) && HasOrders(after, plan, legs) && Forward(before, after)
    ensures First(after, plan, legs) <= First(before, plan, legs)
  {
    if legs != [] {
      FirstNeverGrows(before, after, plan, legs[..|legs| - 1]);
    }
  }

  lemma {:induction false} FirstShrinks(before: Store, after: Store, plan: nat, legs: seq<Leg>, i: nat)
    requires HasOrders(before, plan, legs) && HasOrders(after, plan, legs) && Forward(before, after) && i < |legs|
    requires NotSubmitted(StateOf(after, plan, legs[i])) < NotSubmitted(StateOf(before, plan, legs[i]))
    ensures First(after, plan, legs) < First(before, plan, legs)
  {
    var n := |legs| - 1;
    FirstNeverGrows(before, after, plan, legs[..n]);
    if i < n {
      FirstShrinks(before, after, plan, legs[..n], i);
    }
  }

  /** When only one order of the plan changes, the second count changes by what
      that order contributes. */
  lemma {:induction false} SecondFollowsOneOrder(before: Store, after: Store, plan: nat, legs: seq<Leg>, i: nat)
    requires HasOrders(before, plan, legs) && HasOrders(after, plan, legs) && i < |legs|
    requires forall j, k :: 0 <= j < k < |legs| ==> legs[j].id != legs[k].id
    requires forall j :: 0 <= j < |legs| && j != i ==> StateOf(after, plan, legs[j]) == StateOf(before, plan, legs[j])
    ensures Second(after, plan, legs) - Second(before, plan, legs) ==
            Unresolved(StateOf(after, plan, legs[i])) - Unresolved(StateOf(before, plan, legs[i]))
  {
    var n := |legs| - 1;
    if i < n {
      SecondFollowsOneOrder(before, after, plan, legs[..n], i);
    } else {
      SecondIsSame(before, after, plan, legs[..n]);
    }
  }

  lemma {:induction false} SecondIsSame(before: Store, after: Store, plan: nat, legs: seq<Leg>)
    requires HasOrders(before, plan, legs) && HasOrders(after, plan, legs)
    requires forall j :: 0 <= j < |legs| ==> StateOf(after, plan, legs[j]) == StateOf(before, plan, legs[j])
    ensures Second(after, plan, legs) == Second(before, plan, legs)
  {
    if legs != [] {
      SecondIsSame(before, after, plan, legs[..|legs| - 1]);
    }
  }

  lemma {:induction false} CountsAreBounded(store: Store, plan: nat, legs: seq<Leg>)
    requires HasOrders(store, plan, legs)
    ensures First(store, plan, legs) <= 2 * |legs| && Second(store, plan, legs) <= 2 * |legs|
  {
    if legs != [] {
      CountsAreBounded(store, plan, legs[..|legs| - 1]);
    }
  }

  /** The pair of counts as one number, the first count weighing more than any second
      count can. */
  function Weight(store: Store, plan: nat, legs: seq<Leg>): nat
    requires HasOrders(store, plan, legs)
  {
    First(store, plan, legs) * (2 * |legs| + 1) + Second(store, plan, legs)
  }

  /** More passes than a call can make. */
  function MaximumPasses(legs: nat): nat {
    (2 * legs + 1) * (2 * legs + 1)
  }

  lemma WeightIsBounded(store: Store, plan: nat, legs: seq<Leg>)
    requires HasOrders(store, plan, legs)
    ensures Weight(store, plan, legs) < MaximumPasses(|legs|)
  {
    CountsAreBounded(store, plan, legs);
    var m := 2 * |legs| + 1;
    Products.Grows(First(store, plan, legs), 2 * |legs|, m);
    Products.Distributes(2 * |legs|, 1, m);
  }

  /** The pair of counts is smaller, first count first. */
  predicate Less(after: Store, before: Store, plan: nat, legs: seq<Leg>)
    requires HasOrders(after, plan, legs) && HasOrders(before, plan, legs)
  {
    || First(after, plan, legs) < First(before, plan, legs)
    || (&& First(after, plan, legs) == First(before, plan, legs)
        && Second(after, plan, legs) < Second(before, plan, legs))
  }

  lemma LessIsLighter(after: Store, before: Store, plan: nat, legs: seq<Leg>)
    requires HasOrders(after, plan, legs) && HasOrders(before, plan, legs) && Less(after, before, plan, legs)
    ensures Weight(after, plan, legs) < Weight(before, plan, legs)
  {
    hide First, Second;
    CountsAreBounded(after, plan, legs);
    if First(after, plan, legs) < First(before, plan, legs) {
      var m := 2 * |legs| + 1;
      Products.Grows(First(after, plan, legs) + 1, First(before, plan, legs), m);
      Products.Distributes(First(after, plan, legs), 1, m);
    }
  }
}

/** The coordinator object and one call of it at a time. The broker is adversarial:
    every reply, every batch of events and every storage failure is an arbitrary
    choice. */
module ExecutionLoop {
  import opened Wrappers
  import opened Int64
  import opened AccountingModel
  import opened OrderModel
  import opened OrderStore
  import opened ExecutionProtocol
  import opened PlanMeasure
  import opened ExecutionRuns
  import opened LegGraph
  import OrderPlan

  datatype BrokerEventRecord = BrokerEventRecord(event: string, clientId: nat, brokerId: string, kind: ReportType,
                                                 cumulative: int64, fillQuantity: int64, fillId: nat,
                                                 currency: string, occurredAt: Instant)

  datatype SubmitReply = Accepted(brokerId: string) | Declined(brokerId: string) | Unavailable | OutcomeUnknown

  datatype LookupReply = LookupReply(brokerId: string, instrument: InstrumentId, side: Side, quantity: int64,
                                     limitPrice: int64, currency: string)

  /** The broker's order is the one that the leg asks for. */
  predicate Describes(found: LookupReply, leg: Leg) {
    && found.instrument == leg.instrument && found.side == leg.side && found.quantity == leg.quantity
    && found.limitPrice == leg.limitPrice && found.currency == leg.currency
  }

  /** What the order shows of the broker's last reply to a submission: accepted orders
      are SUBMITTED and declined ones REJECTED, under the identity that the broker gave;
      after any other reply the order is UNKNOWN, or SUBMITTED once a lookup found it. A
      reply that could not be recorded leaves it SUBMISSION_PENDING. */
  predicate AnswerRecorded(reply: SubmitReply, after: Order, error: Option<CallError>) {
    && (error.None? || error == Some(PublishFailed) || error == Some(UnknownRemains))
    && (error == Some(PublishFailed) ==> after.state == SubmissionPending)
    && match reply
       case Accepted(b) =>
         && error != Some(UnknownRemains)
         && (error.None? ==> after.state == Submitted && (b != "" ==> after.brokerId == b))
       case Declined(b) =>
         && error != Some(UnknownRemains)
         && (error.None? ==> after.state == Rejected && (b != "" ==> after.brokerId == b))
       case _ =>
         && (error.None? ==> after.state == Submitted)
         && (error == Some(UnknownRemains) ==> after.state == Unknown)
  }

  /** The lookup that a lost reply calls for. */
  function LookedUp(id: OrderId, reply: SubmitReply, error: Option<CallError>): seq<OrderId> {
    if reply.Accepted? || reply.Declined? || error == Some(PublishFailed) then [] else [id]
  }

  /** A report that moves an order on from PLANNED never leaves it CREATED or
      PLANNED when it asks for something else that is legal. */
  lemma PlannedMovesOn(to: OrderState)
    requires LegalTransition(Planned, to)
    ensures NextState(Planned, to) == Some(to) && to !in {Created, Planned}
  {
  }

  predicate SameExcept(a: map<OrderId, Order>, b: map<OrderId, Order>, id: OrderId) {
    forall o <- a :: o in b && (o != id ==> b[o] == a[o])
  }

  predicate OnlyChanged(before: Store, after: Store, id: OrderId) {
    SameExcept(before.orders, after.orders, id)
  }

  lemma ForwardIsReflexive(store: Store)
    ensures Forward(store, store)
  {
  }

  datatype CallError =
    | OrderBusy | PublishFailed | EventInvalid | NoSuchOrder | EventCollision | BrokerUnavailable | UnknownRemains
    | NotCancellable | Interrupted

  /** An event that the order has already moved past. */
  predicate StaleBrokerEvent(o: Order, e: BrokerEventRecord) {
    || e.cumulative < o.filled
    || (o.state == Filled && e.kind != ReportFill)
    || (o.state == PartiallyFilled && (e.kind == ReportAcknowledged || e.kind == ReportSubmitted))
  }

  /** The answers on which a batch goes on. */
  predicate Passes(error: Option<CallError>) {
    error.None? || error == Some(EventCollision) || error == Some(NoSuchOrder)
  }

  /** The report and the fill say about the order what the broker's event says. */
  predicate Carries(ev: Event, e: BrokerEventRecord, id: OrderId, receivedAt: Instant) {
    && ev.report.id == BrokerEvent(e.event) && ev.report.order == id && ev.report.clientId == e.clientId
    && ev.report.brokerId == e.brokerId && ev.report.kind == e.kind && ev.report.cumulative == e.cumulative
    && ev.report.occurredAt == e.occurredAt && ev.report.receivedAt == receivedAt
    && (ev.fill.Some? <==> e.fillQuantity > 0)
    && (ev.fill.Some? ==>
          && ev.fill.value.id == e.fillId && ev.fill.value.order == id && ev.fill.value.report == ev.report.id
          && ev.fill.value.quantity == e.fillQuantity && ev.fill.value.currency == e.currency)
  }

  /** The order would refuse the report, or stay in its state with nothing filled. */
  predicate WithoutEffect(o: Order, ev: Event) {
    var next := ApplyReport(o, ev.report, ev.fill);
    next.Ok? ==> next.value.state == o.state && next.value.filled == o.filled
  }

  /** A broker event was handled: its order is not known; or its identity or its fill
      was there already; or it was appended, and did to its order what it says; or it
      would have had no effect. */
  ghost predicate Handled(before: Store, after: Store, e: BrokerEventRecord, receivedAt: Instant) {
    || (after == before && forall o <- before.orders :: before.orders[o].clientId != e.clientId)
    || exists id, ev ::
         && id in before.orders && before.orders[id].clientId == e.clientId && Carries(ev, e, id, receivedAt)
         && (|| (after == before && ReportUsed(before.log, BrokerEvent(e.event)))
             || (after == before && e.fillQuantity > 0 && FillUsed(before.log, e.fillId))
             || (after == before && WithoutEffect(before.orders[id], ev))
             || (&& after.log == before.log + [ev] && id in after.orders
                 && ApplyReport(before.orders[id], ev.report, ev.fill) == Ok(after.orders[id])))
  }

  ghost predicate AllHandled(stores: seq<Store>, batch: seq<BrokerEventRecord>, receivedAt: Instant) {
    && |stores| == |batch| + 1
    && forall i :: 0 <= i < |batch| ==> Handled(stores[i], stores[i + 1], batch[i], receivedAt)
  }

  function Carried(e: BrokerEventRecord, id: OrderId, receivedAt: Instant): (ev: Event)
    ensures Carries(ev, e, id, receivedAt)
  {
    Event(Report(BrokerEvent(e.event), id, e.clientId, e.brokerId, e.kind, e.cumulative, e.occurredAt, receivedAt),
          if e.fillQuantity > 0 then Some(ExecutionFill(e.fillId, id, BrokerEvent(e.event), e.fillQuantity, e.currency))
          else None)
  }

  /** How an event about an open order `id` is answered: a malformed one is refused; one
      that was recorded is a success when it says the same and a collision when not; a
      new one is refused when its fill was recorded, or when the order refuses it, or
      when the repository had a fault. */
  predicate EventAnswered(store: Store, e: BrokerEventRecord, receivedAt: Instant, id: OrderId, faulted: bool,
                          error: Option<CallError>)
    requires id in store.orders
  {
    var ev := Carried(e, id, receivedAt);
    if e.event == "" || e.cumulative < 0 || e.occurredAt == 0 || receivedAt == 0 then error == Some(EventInvalid)
    else if ReportUsed(store.log, ev.report.id) then
      error == if exists i :: 0 <= i < |store.log| && store.log[i].report == ev.report then None
               else Some(EventCollision)
    else
      && (error.None? || error == Some(EventCollision) || error == Some(PublishFailed))
      && (error == Some(EventCollision) ==> e.fillQuantity > 0 && FillUsed(store.log, e.fillId))
      && (error == Some(PublishFailed) && !faulted ==> ApplyReport(store.orders[id], ev.report, ev.fill).Err?)
  }

  lemma HandledAsUnknown(store: Store, e: BrokerEventRecord, receivedAt: Instant)
    requires forall o <- store.orders :: store.orders[o].clientId != e.clientId
    ensures Handled(store, store, e, receivedAt)
  {
  }

  lemma HandledAsKnown(store: Store, e: BrokerEventRecord, receivedAt: Instant, id: OrderId)
    requires id in store.orders && store.orders[id].clientId == e.clientId
    requires ReportUsed(store.log, BrokerEvent(e.event))
    ensures Handled(store, store, e, receivedAt)
  {
    assert Carries(Carried(e, id, receivedAt), e, id, receivedAt);
  }

  lemma HandledAsReused(store: Store, e: BrokerEventRecord, receivedAt: Instant, id: OrderId)
    requires id in store.orders && store.orders[id].clientId == e.clientId
    requires ReportUsed(store.log, BrokerEvent(e.event)) || (e.fillQuantity > 0 && FillUsed(store.log, e.fillId))
    ensures Handled(store, store, e, receivedAt)
  {
    assert Carries(Carried(e, id, receivedAt), e, id, receivedAt);
  }

  /** What the test for events that the order has moved past may drop. */
  lemma HandledAsStale(store: Store, e: BrokerEventRecord, receivedAt: Instant, id: OrderId, ev: Event)
    requires id in store.orders && store.orders[id].clientId == e.clientId && Sound(store.orders[id])
    requires Carries(ev, e, id, receivedAt) && StaleBrokerEvent(store.orders[id], e)
    ensures Handled(store, store, e, receivedAt)
  {
    assert WithoutEffect(store.orders[id], ev);
  }

  lemma HandledAsNew(before: Store, after: Store, e: BrokerEventRecord, receivedAt: Instant, id: OrderId, ev: Event)
    requires id in before.orders && before.orders[id].clientId == e.clientId && Carries(ev, e, id, receivedAt)
    requires after.log == before.log + [ev] && id in after.orders
    requires ApplyReport(before.orders[id], ev.report, ev.fill) == Ok(after.orders[id])
    ensures Handled(before, after, e, receivedAt)
  {
    hide ApplyReport;
  }

  /** The store grew by reports about one order and by nothing else. */
  predicate Appended(before: Store, after: Store, id: OrderId) {
    && |before.log| <= |after.log| && PublishAll(before, after.log[|before.log|..]) == Some(after)
    && forall e <- after.log[|before.log|..] :: e.report.order == id && PositiveFill(e)
  }

  lemma AppendedNothing(store: Store, id: OrderId)
    ensures Appended(store, store, id)
  {
    assert store.log[|store.log|..] == [];
  }

  lemma AppendedOne(before: Store, e: Event)
    requires OrderStore.Publish(before, e).Ok? && PositiveFill(e)
    ensures Appended(before, OrderStore.Publish(before, e).value, e.report.order)
  {
    if Replays(before, e) {
      AppendedNothing(before, e.report.order);
    } else {
      var after := OrderStore.Publish(before, e).value;
      assert after.log[|before.log|..] == [e] && [e][..0] == [];
      assert PublishAll(before, [e][..0]) == Some(before);
    }
  }

  lemma AppendedThen(a: Store, b: Store, c: Store, id: OrderId)
    requires Appended(a, b, id) && Appended(b, c, id) && a.log <= b.log <= c.log
    ensures Appended(a, c, id)
  {
    var x, y := b.log[|a.log|..], c.log[|b.log|..];
    assert c.log[|a.log|..] == x + y;
    PublishTwice(a, x, y);
  }

  lemma {:induction false} PublishTwice(store: Store, a: seq<Event>, b: seq<Event>)
    requires PublishAll(store, a).Some?
    ensures PublishAll(store, a + b) == PublishAll(PublishAll(store, a).value, b)
  {
    hide OrderStore.Publish;
    if b == [] {
      assert a + b == a;
    } else {
      assert (a + b)[..|a + b| - 1] == a + b[..|b| - 1];
      PublishTwice(store, a, b[..|b| - 1]);
    }
  }

  lemma AnnouncedMeans(store: Store, id: OrderId, attempt: Attempt)
    requires PastPlanned(store, id) && Released(store, id) && attempt.order == id && PendingLogged(store.log, attempt)
    ensures AnnouncedOne(store, Submission(id, attempt))
  {
  }

  lemma OneMoreCopy(asked: seq<Submission>, id: OrderId, attempt: Attempt, n: nat)
    ensures asked + Copies(id, attempt, n + 1) == asked + Copies(id, attempt, n) + [Submission(id, attempt)]
    ensures asked + Copies(id, attempt, 0) == asked
    ensures forall i :: |asked| <= i < |asked + Copies(id, attempt, n)| ==>
              (asked + Copies(id, attempt, n))[i] == Submission(id, attempt)
  {
  }

  lemma NoEffect(store: Store, asked: seq<Submission>, id: OrderId, at: Instant)
    requires id in store.orders
    ensures SubmitEffect(store, asked, store, asked, id, at)
  {
  }

  lemma SubmitHadEffect(before: Store, asked: seq<Submission>, announced: Store, after: Store, id: OrderId, at: Instant,
                        calls: nat)
    requires id in before.orders && before.orders[id].state == Planned
    requires |before.log| < |announced.log| && before.log <= announced.log <= after.log
    requires Appended(before, announced, id) && Appended(announced, after, id)
    requires PendingReport(announced.log[|before.log|], before.orders[id], AttemptAt(before, id, at))
    ensures SubmitEffect(before, asked, after, asked + Copies(id, AttemptAt(before, id, at), calls), id, at)
  {
    hide PendingReport;
    AppendedThen(before, announced, after, id);
    assert after.log[|before.log|] == announced.log[|before.log|];
  }

  /** A report may name the order's broker identity, or the first one, or none. */
  predicate Compatible(reported: string, known: string) {
    reported == "" || known == "" || reported == known
  }

  /** The order carries a broker identity under which it was recovered by lookup. */
  predicate RecoveredBefore(store: Store, id: OrderId) {
    && id in store.orders && store.orders[id].brokerId != ""
    && ReportUsed(store.log, Recovered(id, store.orders[id].brokerId))
  }

  /** A report of the coordinator's own about an order. */
  function Own(o: Order, kind: ReportType, at: Instant, key: ReportId, brokerId: string): (e: Event)
    ensures e.fill.None? && e.report.id == key && e.report.order == o.id && e.report.clientId == o.clientId
    ensures e.report.brokerId == brokerId && e.report.kind == kind && e.report.cumulative == o.filled
    ensures e.report.occurredAt == at && e.report.receivedAt == at
  {
    Event(Report(key, o.id, o.clientId, brokerId, kind, o.filled, at, at), None)
  }

  /** Why an order refuses a report of the coordinator's own in a state that admits it:
      its revisions are used up, or the report's identity is, or it is known under another
      identity of the broker. */
  predicate Obstructed(store: Store, o: Order, key: ReportId, brokerId: string) {
    o.revision >= MAX_UINT64 || ReportUsed(store.log, key) || !Compatible(brokerId, o.brokerId)
  }

  lemma RefusedIsObstructed(registered: map<OrderId, Order>, store: Store, o: Order, kind: ReportType, at: Instant,
                            key: ReportId, brokerId: string)
    requires Registered(registered) && Explained(registered, store) && o.id in store.orders && o == store.orders[o.id]
    requires o.state in MovesFrom(kind) + LeavesIn(kind) && kind !in {ReportPartialFill, ReportFill}
    requires OrderStore.Publish(store, Own(o, kind, at, key, brokerId)).Err?
    ensures Obstructed(store, o, key, brokerId)
  {
    hide Explained, ApplyReport, Registered, ReportUsed, Replays, MovesFrom, LeavesIn;
    OrdersAreSound(registered, store, o.id);
    if o.revision < MAX_UINT64 {
      PlainReportAcceptedExactly(o, Own(o, kind, at, key, brokerId).report);
    }
  }

  lemma PlannedMayBePending()
    ensures Planned in MovesFrom(ReportSubmissionPending)
    ensures NextState(Planned, SubmissionPending) == Some(SubmissionPending)
  {
  }

  lemma PendingMayBeUnknown()
    ensures SubmissionPending in MovesFrom(ReportUnknown)
  {
  }

  lemma CancelMayBePending(store: Store, o: Order, key: ReportId)
    requires o.state in {Submitted, Acknowledged, PartiallyFilled} && !ReportUsed(store.log, key)
    ensures o.state in MovesFrom(ReportCancelPending)
    ensures Obstructed(store, o, key, o.brokerId) ==> o.revision >= MAX_UINT64
  {
  }

  /** The obstacle to recording the broker's reply to a submission. */
  predicate ReplyObstructed(store: Store, pending: Order, attempt: Attempt, reply: SubmitReply) {
    match reply
    case Accepted(b) => Obstructed(store, pending, AttemptSubmitted(attempt), b)
    case Declined(b) => Obstructed(store, pending, AttemptRejected(attempt), b)
    case _ => Obstructed(store, pending, AttemptUnknown(attempt), pending.brokerId)
  }

  /** The report of a lookup that found the order at the broker. */
  function RecoveryOf(o: Order, at: Instant, brokerId: string): Event {
    Own(o, ReportSubmitted, at, Recovered(o.id, brokerId), brokerId)
  }

  /** Exactly what a lookup does to an UNKNOWN order. It resolves the order when no
      earlier recovery used the identity that the broker gives and that is not another
      than the order's. It is answered with success and resolves nothing when the very
      same recovery was restored. Otherwise it is refused. */
  lemma RecoveryExactly(registered: map<OrderId, Order>, store: Store, id: OrderId, at: Instant, brokerId: string)
    requires Registered(registered) && Explained(registered, store) && id in store.orders
    requires store.orders[id].state == Unknown && store.orders[id].revision < MAX_UINT64
    ensures var e := RecoveryOf(store.orders[id], at, brokerId);
            var result := OrderStore.Publish(store, e);
            && (result.Ok? && result.value != store <==>
                  !ReportUsed(store.log, Recovered(id, brokerId)) && Compatible(brokerId, store.orders[id].brokerId))
            && (result == Ok(store) <==> Replays(store, e))
            && (result.Ok? && result.value != store ==> result.value.orders[id].state == Submitted)
  {
    hide Explained, ApplyReport, Registered, ReportUsed;
    var o, e := store.orders[id], RecoveryOf(store.orders[id], at, brokerId);
    OrdersAreSound(registered, store, id);
    PlainReportAcceptedExactly(o, e.report);
    ReplayedIsCompatible(registered, store, e);
    if Replays(store, e) { ReplayedIsUsed(store, e); }
    if ApplyReport(o, e.report, None).Ok? {
      ReportStep(o, e);
      UnknownSubmits(o, e.report);
      assert store.log + [e] != store.log;
    }
  }

  lemma UnknownSubmits(o: Order, report: Report)
    requires o.state == Unknown && report.kind == ReportSubmitted && ApplyReport(o, report, None).Ok?
    ensures ApplyReport(o, report, None).value.state == Submitted
  {
  }

  lemma ReplayedIsUsed(store: Store, e: Event)
    requires Replays(store, e)
    ensures ReportUsed(store.log, e.report.id)
  {
  }

  lemma ReplayedIsCompatible(registered: map<OrderId, Order>, store: Store, e: Event)
    requires Registered(registered) && Explained(registered, store) && e.report.order in store.orders
    ensures Replays(store, e) ==> Compatible(e.report.brokerId, store.orders[e.report.order].brokerId)
  {
    hide Explained, Registered;
    if Replays(store, e) {
      var i :| 0 <= i < |store.log| && i < store.restored && store.log[i].report == e.report;
      LoggedMark(registered, store, i);
    }
  }

  /** What the coordinator itself reports about an UNKNOWN order: that a lookup found
      it under an identity of the broker, or that it is still UNKNOWN. */
  predicate Resolving(e: Event) {
    || e.report.kind == ReportUnknown
    || (&& e.report.kind == ReportSubmitted && e.report.brokerId != ""
        && e.report.id == Recovered(e.report.order, e.report.brokerId))
  }

  lemma UnknownStays(store: Store, e: Event, id: OrderId)
    requires RecoveredBefore(store, id) && store.orders[id].state == Unknown && (e.report.order == id ==> Resolving(e))
    requires OrderStore.Publish(store, e).Ok?
    ensures var next := OrderStore.Publish(store, e).value;
            RecoveredBefore(next, id) && next.orders[id] == store.orders[id]
  {
    hide OrderModel.Acceptable;
    var next := OrderStore.Publish(store, e).value;
    var i :| 0 <= i < |store.log| && store.log[i].report.id == Recovered(id, store.orders[id].brokerId);
    assert next.log[i] == store.log[i];
  }

  /** Recovered once, never again: an order that was recovered by lookup under its
      broker identity and is UNKNOWN once more, as after a cancel whose answer was
      lost, stays exactly as it is in every continuation in which the broker sends no
      event about it. The recovery report's identity is used up. */
  lemma {:induction false} RecoveredOnceIsStuck(store: Store, events: seq<Event>, id: OrderId)
    requires RecoveredBefore(store, id) && store.orders[id].state == Unknown
    requires (forall e <- events :: e.report.order == id ==> Resolving(e)) && PublishAll(store, events).Some?
    ensures var after := PublishAll(store, events).value;
            RecoveredBefore(after, id) && after.orders[id] == store.orders[id]
  {
    hide OrderStore.Publish, Resolving;
    if events != [] {
      var n := |events| - 1;
      assert events[n] in events && forall e <- events[..n] :: e in events;
      RecoveredOnceIsStuck(store, events[..n], id);
      UnknownStays(PublishAll(store, events[..n]).value, events[n], id);
    }
  }

  /** What the broker has been asked so far: every submission was announced in the
      log, of an order past PLANNED with everything it waits for FILLED, and all
      submissions of an order carry one attempt. */
  predicate SubmissionsOk(store: Store, submissions: seq<Submission>) {
    && (forall i :: 0 <= i < |submissions| ==> AnnouncedOne(store, submissions[i]))
    && forall i, j :: 0 <= i < |submissions| && 0 <= j < |submissions| ==>
         (submissions[i].order == submissions[j].order ==> submissions[i].attempt == submissions[j].attempt)
  }

  lemma ForwardKeepsSubmissions(before: Store, after: Store, submissions: seq<Submission>)
    requires SubmissionsOk(before, submissions) && Forward(before, after)
    ensures SubmissionsOk(after, submissions)
  {
    hide Forward;
    forall i | 0 <= i < |submissions| ensures AnnouncedOne(after, submissions[i]) {
      assert AnnouncedOne(before, submissions[i]);
      ForwardKeeps(before, after, submissions[i].order, submissions[i].attempt);
    }
  }

  /** An order that is PLANNED has never been submitted. */
  lemma PlannedIsUnsubmitted(store: Store, submissions: seq<Submission>, id: OrderId)
    requires SubmissionsOk(store, submissions) && id in store.orders && store.orders[id].state == Planned
    ensures forall i :: 0 <= i < |submissions| ==> submissions[i].order != id
  {
    assert forall i :: 0 <= i < |submissions| ==> AnnouncedOne(store, submissions[i]);
  }

  lemma SubmissionAppended(store: Store, submissions: seq<Submission>, next: Submission)
    requires SubmissionsOk(store, submissions) && AnnouncedOne(store, next)
    requires forall i :: 0 <= i < |submissions| && submissions[i].order == next.order ==> submissions[i] == next
    ensures SubmissionsOk(store, submissions + [next])
  {
    hide AnnouncedOne;
  }

  /** Cancellation reports are named by the revision that they were made at. */
  predicate Keyed(store: Store) {
    forall i :: 0 <= i < |store.log| ==> KeyBefore(store, store.log[i].report.id)
  }

  predicate KeyBefore(store: Store, key: ReportId) {
    key.CancelRequested? || key.CancelUnknown? ==>
      key.order in store.orders && key.revision < store.orders[key.order].revision
  }

  predicate KeyOk(store: Store, order: OrderId, key: ReportId) {
    key.CancelRequested? || key.CancelUnknown? ==>
      key.order == order && (order in store.orders ==> key.revision <= store.orders[order].revision)
  }

  lemma PublishKeepsKeyed(registered: map<OrderId, Order>, store: Store, e: Event)
    requires Registered(registered) && Explained(registered, store) && PositiveFill(e)
    requires Keyed(store) && OrderStore.Publish(store, e).Ok? && KeyOk(store, e.report.order, e.report.id)
    ensures Keyed(OrderStore.Publish(store, e).value)
  {
    hide Explained, ApplyReport, ReportUsed, FillUsed, Replays, Registered;
    OrdersAreSound(registered, store, e.report.order);
    ReportStep(store.orders[e.report.order], e);
  }

  /** A cancellation at the order's current revision is a new one. */
  lemma CancelKeyIsNew(store: Store, key: ReportId)
    requires Keyed(store) && (key.CancelRequested? || key.CancelUnknown?) && key.order in store.orders
    requires key.revision >= store.orders[key.order].revision
    ensures !ReportUsed(store.log, key)
  {
  }

  lemma UnusedIsNotReplayed(store: Store, e: Event)
    requires !ReportUsed(store.log, e.report.id)
    ensures !Replays(store, e)
  {
  }

  /** The coordinator object. `restored` is how much of the log the store was given
      when it was restored; a fresh store was given nothing. `submissions`, `lookups`,
      `cancellations` and `polls` are what the broker was asked, and `faults` counts the
      times the repository failed for its own reasons. */
  class Coordinator {
    ghost const registered: map<OrderId, Order>
    const retries: nat
    const restored: nat
    var store: Store
    var reserved: set<OrderId>
    var plans: map<nat, Instant>
    var closed: bool
    var cursor: nat
    var submissions: seq<Submission>
    ghost var lookups: seq<OrderId>
    ghost var cancellations: seq<OrderId>
    ghost var polls: nat
    ghost var faults: nat

    ghost predicate Valid()
      reads this
    {
      && Registered(registered) && Explained(registered, store) && OrderId(0, 0) !in reserved
      && SubmissionsOk(store, submissions) && Keyed(store) && store.restored == restored <= |store.log|
    }

    constructor (registered: map<OrderId, Order>, retries: nat)
      requires Registered(registered)
      ensures Valid() && this.registered == registered && store == Store(registered, [], 0) && reserved == {} && !closed
    {
      this.registered, this.retries, this.restored := registered, retries, 0;
      store, reserved, plans, closed, cursor, submissions := Store(registered, [], 0), {}, map[], false, 0, [];
      lookups, cancellations, polls, faults := [], [], 0, 0;
    }

    /** A restart: a new coordinator on a store restored from the old one's orders and
        reports. What the broker was asked before is history that it keeps. */
    constructor Restored(before: Coordinator, cursor: nat)
      requires before.Valid()
      ensures Valid() && registered == before.registered && reserved == {} && !closed && plans == map[]
      ensures store == before.store.(restored := |before.store.log|) && submissions == before.submissions
    {
      registered, retries, restored := before.registered, before.retries, |before.store.log|;
      store := before.store.(restored := |before.store.log|);
      reserved, plans, closed, this.cursor, submissions := {}, map[], false, cursor, before.submissions;
      lookups, cancellations, polls, faults := before.lookups, before.cancellations, before.polls, before.faults;
      new;
      RestoredIsExplained(registered, before.store);
    }

    method ReserveOrder(id: OrderId) returns (ok: bool)
      modifies this`reserved
      ensures ok <==> !closed && id !in old(reserved)
      ensures reserved == if ok then old(reserved) + {id} else old(reserved)
    {
      ok := !closed && id !in reserved;
      if ok {
        reserved := reserved + {id};
      }
    }

    method ReleaseOrder(id: OrderId)
      modifies this`reserved
      ensures reserved == old(reserved) - {id}
    {
      reserved := reserved - {id};
    }

    /** Publishes one report. The repository may also fail for its own reasons;
        `collision` tells a report or fill identity used before from other failures, and
        `replayed` a success that changed nothing. */
    method PublishEvent(e: Event) returns (next: Option<Order>, collision: bool, ghost replayed: bool)
      requires Valid() && PositiveFill(e) && KeyOk(store, e.report.order, e.report.id)
      modifies this`store, this`faults
      ensures Valid() && Forward(old(store), store)
      ensures next.None? || replayed ==> store == old(store)
      ensures replayed <==> next.Some? && Replays(old(store), e)
      ensures next.Some? ==>
                && e.report.order in store.orders
                && ApplyReport(old(store).orders[e.report.order], e.report, e.fill) == Ok(next.value)
      ensures next.Some? && !replayed ==>
                && store.log == old(store).log + [e] && !ReportUsed(old(store).log, e.report.id)
                && next == Some(store.orders[e.report.order])
      ensures collision ==>
                && next.None? && e.report.order in store.orders
                && (ReportUsed(store.log, e.report.id) || (e.fill.Some? && FillUsed(store.log, e.fill.value.id)))
      ensures old(faults) <= faults && (next.Some? ==> faults == old(faults))
      ensures next.None? && faults == old(faults) ==> Publish(old(store), e).Err?
      ensures next.None? && faults == old(faults) && !collision && e.report.order in old(store).orders ==>
                ApplyReport(old(store).orders[e.report.order], e.report, e.fill).Err?
      ensures Appended(old(store), store, e.report.order)
      ensures OnlyChanged(old(store), store, e.report.order)
    {
      hide Explained, ApplyReport, ReportUsed, FillUsed, Forward, SubmissionsOk, Appended, Keyed, Replays;
      ForwardIsReflexive(store);
      AppendedNothing(store, e.report.order);
      var repositoryFails: bool := *;
      var result := Publish(store, e);
      if repositoryFails || result.Err? {
        collision := !repositoryFails && result.error in {IdentityCollision, FillReused};
        faults := if repositoryFails then faults + 1 else faults;
        return None, collision, false;
      }
      PublishKeepsExplained(registered, store, e);
      PublishIsForward(registered, store, e);
      AppendedOne(store, e);
      ForwardKeepsSubmissions(store, result.value, submissions);
      PublishKeepsKeyed(registered, store, e);
      replayed := Replays(store, e);
      next := Some(ApplyReport(store.orders[e.report.order], e.report, e.fill).value);
      collision, store := false, result.value;
    }

    /** Publishes a broker event: at most one revision per event identity. A fill
        identity used before is a collision, like a report identity. An event that
        passes without an error was handled: it is in the log, or nothing it says would
        have changed the order. */
    method PublishBrokerEvent(e: BrokerEventRecord, receivedAt: Instant) returns (error: Option<CallError>)
      requires Valid()
      modifies this`store, this`faults, this`reserved
      ensures Valid() && Forward(old(store), store) && reserved == old(reserved)
      ensures ReportUsed(old(store).log, BrokerEvent(e.event)) ==> store == old(store)
      ensures error != Some(UnknownRemains)
      ensures store != old(store) ==>
                && error.None? && |store.log| == |old(store).log| + 1
                && store.log[|old(store).log|].report.id == BrokerEvent(e.event)
      ensures Passes(error) ==> Handled(old(store), store, e, receivedAt)
      ensures !Passes(error) ==> store == old(store)
      ensures error == Some(NoSuchOrder) <==>
                forall o <- old(store).orders :: old(store).orders[o].clientId != e.clientId
      ensures error == Some(NoSuchOrder)
              || exists id <- old(store).orders ::
                   && old(store).orders[id].clientId == e.clientId
                   && if closed || id in old(reserved) then error == Some(OrderBusy)
                      else EventAnswered(old(store), e, receivedAt, id, faults > old(faults), error)
      ensures old(faults) <= faults
    {
      hide Explained, SubmissionsOk, Forward, Keyed, Handled, Registered, EventAnswered, ReportUsed;
      ForwardIsReflexive(store);
      if !exists o <- store.orders :: store.orders[o].clientId == e.clientId {
        HandledAsUnknown(store, e, receivedAt);
        return Some(NoSuchOrder);
      }
      var id :| id in store.orders && store.orders[id].clientId == e.clientId;
      OrdersAreSound(registered, store, id);
      var ok := ReserveOrder(id);
      if !ok {
        return Some(OrderBusy);
      }
      error := RecordBrokerEvent(id, e, receivedAt);
      ReleaseOrder(id);
    }

    /** What is done with a broker event about a reserved order. */
    method RecordBrokerEvent(id: OrderId, e: BrokerEventRecord, receivedAt: Instant) returns (error: Option<CallError>)
      requires Valid() && id in store.orders && store.orders[id].clientId == e.clientId
      modifies this`store, this`faults
      ensures Valid() && Forward(old(store), store) && old(faults) <= faults
      ensures error != Some(UnknownRemains) && error != Some(NoSuchOrder)
      ensures ReportUsed(old(store).log, BrokerEvent(e.event)) ==> store == old(store)
      ensures store != old(store) ==>
                && error.None? && |store.log| == |old(store).log| + 1
                && store.log[|old(store).log|].report.id == BrokerEvent(e.event)
      ensures if Passes(error) then Handled(old(store), store, e, receivedAt) else store == old(store)
      ensures EventAnswered(old(store), e, receivedAt, id, faults > old(faults), error)
    {
      hide Explained, SubmissionsOk, ApplyReport, FillUsed, Forward, StaleBrokerEvent, Keyed, Appended, Handled;
      hide Registered;
      ForwardIsReflexive(store);
      OrdersAreSound(registered, store, id);
      if e.event == "" || e.cumulative < 0 || e.occurredAt == 0 || receivedAt == 0 {
        return Some(EventInvalid);
      }
      var order, event := store.orders[id], Carried(e, id, receivedAt);
      if ReportUsed(store.log, event.report.id) {
        HandledAsKnown(store, e, receivedAt, id);
        var same := exists i :: 0 <= i < |store.log| && store.log[i].report == event.report;
        return if same then None else Some(EventCollision);
      }
      if StaleBrokerEvent(order, e) {
        HandledAsStale(store, e, receivedAt, id, event);
        return None;
      }
      UnusedIsNotReplayed(store, event);
      var next, collision, replayed := PublishEvent(event);
      if next.Some? {
        HandledAsNew(old(store), store, e, receivedAt, id, event);
      } else if collision {
        HandledAsReused(store, e, receivedAt, id);
      }
      return if next.Some? then None else if collision then Some(EventCollision) else Some(PublishFailed);
    }

    /** Drains a batch of broker events. The cursor moves only when the whole batch
        was handled, event by event, so a failed batch is delivered again; `stores` are
        the stores in between. */
    method DrainEvents(receivedAt: Instant)
      returns (error: Option<CallError>, ghost batch: seq<BrokerEventRecord>, ghost next: nat, ghost stores: seq<Store>)
      requires Valid()
      modifies this`store, this`faults, this`reserved, this`cursor, this`polls
      ensures Valid() && Forward(old(store), store) && reserved == old(reserved) && error != Some(UnknownRemains)
      ensures polls == old(polls) + 1
      ensures cursor == if error.Some? then old(cursor) else next
      ensures error.None? || !Passes(error)
      ensures error.None? ==> AllHandled(stores, batch, receivedAt) && stores[0] == old(store)
      ensures error.None? ==> stores[|batch|] == store
    {
      hide Explained, SubmissionsOk, Forward, Keyed, Handled, Registered;
      ForwardIsReflexive(store);
      stores, batch, next, polls := [store], [], 0, polls + 1;
      var unavailable: bool := *;
      if unavailable {
        return Some(BrokerUnavailable), [], 0, stores;
      }
      var events: seq<BrokerEventRecord> := *;
      var nextCursor: nat := *;
      batch, next := events, nextCursor;
      for i := 0 to |events|
        invariant Valid() && Forward(old(store), store) && reserved == old(reserved) && cursor == old(cursor)
        invariant polls == old(polls) + 1
        invariant |stores| == i + 1 && stores[0] == old(store) && stores[i] == store
        invariant forall j :: 0 <= j < i ==> Handled(stores[j], stores[j + 1], events[j], receivedAt)
      {
        ghost var before := store;
        var failed := PublishBrokerEvent(events[i], receivedAt);
        ForwardIsTransitive(old(store), before, store);
        if failed.Some? && failed != Some(EventCollision) && failed != Some(NoSuchOrder) {
          return failed, batch, next, stores;
        }
        stores := stores + [store];
      }
      cursor := nextCursor;
      return None, batch, next, stores;
    }

    /** Publishes a report of the coordinator's own about an order as it was read. */
    method PublishInternal(order: Order, kind: ReportType, at: Instant, key: ReportId, brokerId: string)
      returns (next: Option<Order>, ghost replayed: bool)
      requires Valid() && order.id in store.orders && KeyOk(store, order.id, key)
      modifies this`store, this`faults
      ensures Valid() && Forward(old(store), store)
      ensures next.None? || replayed ==> store == old(store)
      ensures replayed <==> next.Some? && Replays(old(store), Own(order, kind, at, key, brokerId))
      ensures next.Some? ==>
                && NextState(old(store).orders[order.id].state, Target(kind)) == Some(next.value.state)
                && next.value.id == old(store).orders[order.id].id && next.value.leg == old(store).orders[order.id].leg
                && Compatible(brokerId, old(store).orders[order.id].brokerId)
                && next.value.brokerId == (if brokerId != "" then brokerId else old(store).orders[order.id].brokerId)
      ensures next.Some? && !replayed ==>
                && next.value == store.orders[order.id] && !ReportUsed(old(store).log, key)
                && store.log == old(store).log + [Own(order, kind, at, key, brokerId)]
      ensures OnlyChanged(old(store), store, order.id) && Appended(old(store), store, order.id)
      ensures old(faults) <= faults
      ensures next.None? && faults == old(faults) ==> Publish(old(store), Own(order, kind, at, key, brokerId)).Err?
      ensures next.None? && faults == old(faults) && old(store).orders[order.id] == order
              && order.state in MovesFrom(kind) + LeavesIn(kind) && kind !in {ReportPartialFill, ReportFill} ==>
                Obstructed(old(store), order, key, brokerId)
    {
      hide Explained, SubmissionsOk, FillUsed, ReportUsed, Forward, LegalTransition, StaleTransition, Appended, Keyed;
      hide Replays, MovesFrom, LeavesIn, Obstructed, Registered;
      var collision;
      next, collision, replayed := PublishEvent(Own(order, kind, at, key, brokerId));
      if next.None? && faults == old(faults) && order == old(store).orders[order.id]
         && order.state in MovesFrom(kind) + LeavesIn(kind) && kind !in {ReportPartialFill, ReportFill} {
        RefusedIsObstructed(registered, old(store), order, kind, at, key, brokerId);
      }
    }

    /** Asks the broker about an order whose outcome is unknown; never submits. An
        order recovered before under its broker identity is not recovered again, unless
        the broker leaves the identity out; but a restored recovery that comes again in
        every detail is taken for a recovery: `replayed` is then the identity. */
    method RecoverUnknown(order: Order, at: Instant)
      returns (recovered: Option<Order>, ghost replayed: Option<string>, ghost found: Option<LookupReply>)
      requires Valid() && order.id in store.orders
      modifies this`store, this`faults, this`lookups
      ensures Valid() && Forward(old(store), store) && lookups == old(lookups) + [order.id]
      ensures recovered.None? ==> store == old(store) && replayed.None?
      ensures recovered.Some? ==>
                && NextState(old(store).orders[order.id].state, Submitted) == Some(recovered.value.state)
                && recovered.value.id == old(store).orders[order.id].id
                && found.Some? && Describes(found.value, order.leg)
                && (found.value.brokerId != "" ==> recovered.value.brokerId == found.value.brokerId)
      ensures replayed.Some? ==>
                recovered.Some? && store == old(store) && Replays(store, RecoveryOf(order, at, replayed.value))
      ensures recovered.Some? && replayed.None? ==>
                recovered.value == store.orders[order.id] && |store.log| > |old(store).log|
      ensures old(store).log <= store.log
      ensures OnlyChanged(old(store), store, order.id)
      ensures Appended(old(store), store, order.id)
      ensures recovered.Some? && replayed.None? && RecoveredBefore(old(store), order.id) ==>
                !ReportUsed(old(store).log, Recovered(order.id, ""))
      ensures old(faults) <= faults
      ensures recovered.None? && found.Some? && Describes(found.value, order.leg) && faults == old(faults) ==>
                Publish(old(store), RecoveryOf(order, at, found.value.brokerId)).Err?
    {
      hide Explained, SubmissionsOk, Forward, NextState, Keyed, Appended, Replays;
      ForwardIsReflexive(store);
      AppendedNothing(store, order.id);
      lookups := lookups + [order.id];
      var lookupFails: bool := *;
      if lookupFails {
        return None, None, None;
      }
      var answer: LookupReply := *;
      if answer.instrument != order.leg.instrument || answer.side != order.leg.side ||
         answer.quantity != order.leg.quantity || answer.limitPrice != order.leg.limitPrice ||
         answer.currency != order.leg.currency {
        return None, None, Some(answer);
      }
      ghost var same;
      recovered, same :=
        PublishInternal(order, ReportSubmitted, at, Recovered(order.id, answer.brokerId), answer.brokerId);
      replayed, found := if same then Some(answer.brokerId) else None, Some(answer);
    }

    /** Submits an order. Whatever the broker answers, all its calls carry one
        attempt, follow the SUBMISSION_PENDING report of that attempt, and number at
        most one more than the configured retries; an order that is not PLANNED any
        more is left alone. */
    method Submit(id: OrderId, at: Instant) returns (error: Option<CallError>, ghost reply: Option<SubmitReply>)
      requires Valid() && id in store.orders && id != OrderId(0, 0) && Released(store, id)
      modifies this`store, this`faults, this`reserved, this`submissions, this`lookups
      ensures Valid() && Forward(old(store), store) && reserved == old(reserved)
      ensures error != Some(BrokerUnavailable)
      ensures old(store).orders[id].state != Planned ==> store == old(store) && submissions == old(submissions)
      ensures old(store).orders[id].state == Planned && (error.None? || error == Some(UnknownRemains)) ==>
                PastPlanned(store, id)
      ensures old(submissions) <= submissions && |submissions| <= |old(submissions)| + retries + 1
      ensures forall i :: |old(submissions)| <= i < |submissions| ==>
                && submissions[i] == Submission(id, Attempt(id, old(store).orders[id].revision, at))
                && PendingLogged(store.log, submissions[i].attempt)
      ensures SubmitEffect(old(store), old(submissions), store, submissions, id, at)
      ensures lookups == old(lookups) + if reply.Some? then LookedUp(id, reply.value, error) else []
      ensures reply.Some? <==> |submissions| > |old(submissions)|
      ensures reply.Some? ==> id in store.orders && AnswerRecorded(reply.value, store.orders[id], error)
      ensures reply == Some(Unavailable) ==> |submissions| == |old(submissions)| + retries + 1
      ensures old(store).orders[id].state == Planned && (error.None? || error == Some(UnknownRemains)) ==> reply.Some?
      ensures old(faults) <= faults && (error == Some(OrderBusy) <==> closed || id in old(reserved))
      ensures old(store).orders[id].state == Planned && reply.None? && faults == old(faults) ==>
                error == Some(OrderBusy) || Obstructed(old(store), old(store).orders[id],
                AttemptPending(Attempt(id, old(store).orders[id].revision, at)), old(store).orders[id].brokerId)
    {
      hide Explained, SubmissionsOk, Forward, LegalTransition, StaleTransition, Appended, ReportUsed;
      hide Compatible, Registered, SubmitEffect, Copies, AnnouncedOne, Released, AnswerRecorded;
      NoEffect(store, submissions, id, at);
      ForwardIsReflexive(store);
      var ok := ReserveOrder(id);
      if !ok {
        return Some(OrderBusy), None;
      }
      var current := store.orders[id];
      if current.state != Planned {
        ReleaseOrder(id);
        return None, None;
      }
      PlannedIsUnsubmitted(store, submissions, id);
      var attempt := Attempt(id, current.revision, at);
      OrdersAreSound(registered, store, id);
      var pending := AnnounceSubmission(current, attempt, at);
      if pending.None? {
        ReleaseOrder(id);
        return Some(PublishFailed), None;
      }
      ghost var announced := store;
      ForwardKeeps(old(store), announced, id, attempt);
      AnnouncedMeans(announced, id, attempt);
      OneMoreCopy(submissions, id, attempt, 0);
      var answer: SubmitReply := Unavailable;
      var calls := 0;
      while calls <= retries && answer == Unavailable
        invariant calls <= retries + 1 && store == announced && reserved == old(reserved) + {id}
        invariant lookups == old(lookups) && old(faults) <= faults
        invariant submissions == old(submissions) + Copies(id, attempt, calls)
        invariant SubmissionsOk(store, submissions) && (answer != Unavailable ==> calls > 0)
        decreases retries + 1 - calls
      {
        OneMoreCopy(old(submissions), id, attempt, calls);
        SubmissionAppended(store, submissions, Submission(id, attempt));
        submissions := submissions + [Submission(id, attempt)];
        answer := *;
        calls := calls + 1;
      }
      OneMoreCopy(old(submissions), id, attempt, calls);
      error := PublishReply(pending.value, attempt, answer, at);
      reply := Some(answer);
      ForwardIsTransitive(old(store), announced, store);
      SubmitHadEffect(old(store), old(submissions), announced, store, id, at, calls);
      ForwardKeeps(announced, store, id, attempt);
      ReleaseOrder(id);
    }

    /** Records that an attempt to submit the order follows. */
    method AnnounceSubmission(order: Order, attempt: Attempt, at: Instant) returns (pending: Option<Order>)
      requires Valid() && order.id in store.orders && order == store.orders[order.id] && order.state == Planned
      requires attempt.order == order.id
      modifies this`store, this`faults
      ensures Valid() && Forward(old(store), store) && old(faults) <= faults
      ensures Appended(old(store), store, order.id) && old(store).log <= store.log
      ensures pending.None? ==>
                && store == old(store)
                && (faults == old(faults) ==> Obstructed(old(store), order, AttemptPending(attempt), order.brokerId))
      ensures pending.Some? ==>
                && order.id in store.orders && pending.value == store.orders[order.id] && pending.value.id == order.id
                && pending.value.state == SubmissionPending && |store.log| == |old(store).log| + 1
                && PendingReport(store.log[|old(store).log|], order, attempt)
                && PastPlanned(store, order.id) && PendingLogged(store.log, attempt)
    {
      hide Explained, SubmissionsOk, Forward, NextState, Appended, ReportUsed, Compatible;
      hide Registered, Keyed, Replays, Obstructed, MovesFrom, LeavesIn;
      NextStageIsNew(registered, store, Own(order, ReportSubmissionPending, at, AttemptPending(attempt),
                                            order.brokerId));
      PlannedMayBePending();
      ghost var again;
      pending, again :=
        PublishInternal(order, ReportSubmissionPending, at, AttemptPending(attempt), order.brokerId);
      if pending.Some? {
        assert store.log[|old(store).log|].report.id == AttemptPending(attempt);
      }
    }

    /** Records the broker's answer to a submission. */
    method PublishReply(pending: Order, attempt: Attempt, reply: SubmitReply, at: Instant)
      returns (error: Option<CallError>)
      requires Valid() && pending.id in store.orders && pending == store.orders[pending.id]
      requires pending.state == SubmissionPending
      modifies this`store, this`faults, this`lookups
      ensures Valid() && Forward(old(store), store)
      ensures error != Some(BrokerUnavailable)
      ensures Appended(old(store), store, pending.id) && old(store).log <= store.log
      ensures lookups == old(lookups) + LookedUp(pending.id, reply, error)
      ensures pending.id in store.orders && AnswerRecorded(reply, store.orders[pending.id], error)
      ensures old(faults) <= faults && error != Some(OrderBusy)
      ensures error == Some(PublishFailed) && faults == old(faults) ==>
                ReplyObstructed(old(store), pending, attempt, reply)
    {
      hide Explained, SubmissionsOk, Forward, Appended, Keyed, Replays, LegalTransition, StaleTransition, Registered;
      hide OrderModel.Acceptable;
      ForwardIsReflexive(store);
      AppendedNothing(store, pending.id);
      PendingEnds();
      match reply {
        case Accepted(brokerId) =>
          NextStageIsNew(registered, store, Own(pending, ReportSubmitted, at, AttemptSubmitted(attempt), brokerId));
          var next, again := PublishInternal(pending, ReportSubmitted, at, AttemptSubmitted(attempt), brokerId);
          return if next.Some? then None else Some(PublishFailed);
        case Declined(brokerId) =>
          NextStageIsNew(registered, store, Own(pending, ReportRejected, at, AttemptRejected(attempt), brokerId));
          var next, again := PublishInternal(pending, ReportRejected, at, AttemptRejected(attempt), brokerId);
          return if next.Some? then None else Some(PublishFailed);
        case _ =>
          error := PublishLost(pending, attempt, at);
      }
    }

    /** A reply that says nothing: the outcome is UNKNOWN, and the order is looked up. */
    method PublishLost(pending: Order, attempt: Attempt, at: Instant) returns (error: Option<CallError>)
      requires Valid() && pending.id in store.orders && pending == store.orders[pending.id]
      requires pending.state == SubmissionPending
      modifies this`store, this`faults, this`lookups
      ensures Valid() && Forward(old(store), store)
      ensures error != Some(BrokerUnavailable)
      ensures Appended(old(store), store, pending.id) && old(store).log <= store.log
      ensures lookups == old(lookups) + if error == Some(PublishFailed) then [] else [pending.id]
      ensures pending.id in store.orders && AnswerRecorded(OutcomeUnknown, store.orders[pending.id], error)
      ensures old(faults) <= faults
      ensures error == Some(PublishFailed) && faults == old(faults) ==>
                Obstructed(old(store), pending, AttemptUnknown(attempt), pending.brokerId)
    {
      hide Explained, SubmissionsOk, Forward, Appended, Keyed, Replays, LegalTransition, StaleTransition, Registered;
      hide OrderModel.Acceptable;
      ForwardIsReflexive(store);
      AppendedNothing(store, pending.id);
      PendingEnds();
      NextStageIsNew(registered, store, Own(pending, ReportUnknown, at, AttemptUnknown(attempt), pending.brokerId));
      var unknown, again := PublishInternal(pending, ReportUnknown, at, AttemptUnknown(attempt), pending.brokerId);
      if unknown.None? {
        return Some(PublishFailed);
      }
      ghost var mid := store;
      assert unknown.value.id == pending.id by { OrdersAreSound(registered, old(store), pending.id); }
      NoRestoredRecovery(registered, old(store), mid, unknown.value, at);
      var recovered, same, found := RecoverUnknown(unknown.value, at);
      ForwardIsTransitive(old(store), mid, store);
      AppendedThen(old(store), mid, store, pending.id);
      return if recovered.Some? then None else Some(UnknownRemains);
    }

    /** One leg of one pass, given the order as the pass read it and whether its
        dependencies were FILLED then; `latest` is what the pass then takes the order
        for. `drained` records that broker events were drained, after which any order
        may have changed. A failed publish on the restart path releases the zero
        identity instead of the order's, so that the reservation stays: `leaked`.
        `replayed` is the identity of a restored recovery that was taken for progress. */
    method HandleLeg(order: Order, ready: bool, at: Instant)
      returns (progress: bool, latest: Order, ghost drained: bool, ghost leaked: bool, ghost replayed: Option<string>,
               error: Option<CallError>)
      requires Valid() && order.id in store.orders && order.id != OrderId(0, 0) && (ready ==> Released(store, order.id))
      modifies this`store, this`faults, this`reserved, this`submissions, this`cursor, this`lookups, this`polls
      ensures Valid() && Forward(old(store), store)
      ensures error != Some(BrokerUnavailable) && error != Some(UnknownRemains)
      ensures reserved == if leaked then old(reserved) + {order.id} else old(reserved)
      ensures polls >= old(polls)
      ensures leaked ==> error == Some(PublishFailed) && order.state == SubmissionPending
      ensures error.None? && !progress ==>
                && store == old(store) && !drained && order.state !in {Created, SubmissionPending}
                && !(order.state == Planned && ready)
      ensures error.None? && progress && !drained && old(store).orders[order.id] == order ==>
                Advanced(order.state, store.orders[order.id].state) || replayed.Some?
      ensures replayed.Some? ==>
                && error.None? && progress && !drained && store == old(store) && order.state == Unknown
                && Replays(store, RecoveryOf(order, at, replayed.value))
      ensures error.None? && !drained ==> OnlyChanged(old(store), store, order.id)
      ensures error.None? && drained ==>
                && order.state == Planned && ready && progress
                && (old(store).orders[order.id].state == Planned ==> PastPlanned(store, order.id))
      ensures error.None? && order.state in {SubmissionPending, Unknown} ==> lookups == old(lookups) + [order.id]
      ensures error.None? && drained ==> polls == old(polls) + 1
      ensures error.None? && order.state in {SubmissionPending, Unknown} && progress ==>
                latest.state == Filled ==> store.orders[order.id].state == Filled
    {
      hide Explained, SubmissionsOk, Forward, PastPlanned, Keyed, Replays;
      ForwardIsReflexive(store);
      progress, latest, drained, leaked, replayed, error := false, order, false, false, None, None;
      match order.state {
        case SubmissionPending =>
          latest, leaked, error := RestartPending(order, at);
          progress := true;
        case Unknown =>
          progress, latest, replayed, error := RetryUnknown(order, at);
        case Created =>
          error := PlanCreated(order, at);
          progress := true;
        case Planned =>
          if ready {
            error := SubmitAndDrain(order.id, at);
            progress, drained := true, true;
          }
        case _ =>
      }
    }

    /** A pending order found at the start of a pass: its outcome is unknown, and it
        is looked up, not submitted. */
    method RestartPending(order: Order, at: Instant)
      returns (latest: Order, ghost leaked: bool, error: Option<CallError>)
      requires Valid() && order.id in store.orders && order.id != OrderId(0, 0)
      modifies this`store, this`faults, this`reserved, this`lookups
      ensures Valid() && Forward(old(store), store)
      ensures error != Some(BrokerUnavailable) && error != Some(UnknownRemains)
      ensures reserved == if leaked then old(reserved) + {order.id} else old(reserved)
      ensures lookups == old(lookups) + if error.None? then [order.id] else []
      ensures leaked <==> error == Some(PublishFailed)
      ensures error == Some(OrderBusy) <==> closed || order.id in old(reserved)
      ensures error == Some(PublishFailed) && old(store).orders[order.id] == order
              && order.state == SubmissionPending ==>
                faults > old(faults)
                || Obstructed(old(store), order, RestartUnknown(order.id, order.revision), order.brokerId)
      ensures error.None? && old(store).orders[order.id].state == SubmissionPending ==>
                store.orders[order.id].state in {Unknown, Submitted}
      ensures OnlyChanged(old(store), store, order.id)
      ensures error.None? && latest.state == Filled ==> store.orders[order.id].state == Filled
    {
      hide Explained, SubmissionsOk, Forward, NextState, Appended, ReportUsed, Compatible;
      hide Registered, Keyed, Replays, Obstructed, OrderStore.Publish, Describes, RecoveredBefore, RecoveryOf;
      ForwardIsReflexive(store);
      latest := order;
      var ok := ReserveOrder(order.id);
      if !ok {
        return latest, false, Some(OrderBusy);
      }
      var unknown := MarkUnknown(order, at);
      if unknown.None? {
        ReleaseOrder(OrderId(0, 0));
        return latest, true, Some(PublishFailed);
      }
      ghost var mid := store;
      var recovered, same, found := RecoverUnknown(unknown.value, at);
      FilledComesFromFilled(mid.orders[order.id].state, Submitted);
      ForwardIsTransitive(old(store), mid, store);
      ForwardKeepsFilled(old(store), store, order.id);
      ForwardKeepsFilled(mid, store, order.id);
      PendingResolves();
      ReleaseOrder(order.id);
      return if recovered.Some? then recovered.value else unknown.value, false, None;
    }

    /** Records that the outcome of a pending order is unknown after a restart. */
    method MarkUnknown(order: Order, at: Instant) returns (unknown: Option<Order>)
      requires Valid() && order.id in store.orders
      modifies this`store, this`faults
      ensures Valid() && Forward(old(store), store) && old(faults) <= faults
      ensures OnlyChanged(old(store), store, order.id)
      ensures unknown.None? ==> store == old(store)
      ensures unknown.Some? ==> unknown.value.id == order.id
      ensures unknown.Some? && unknown.value.state == Filled ==> old(store).orders[order.id].state == Filled
      ensures unknown.Some? && old(store).orders[order.id].state == SubmissionPending ==>
                unknown.value == store.orders[order.id] && unknown.value.state == Unknown
      ensures unknown.None? && old(store).orders[order.id] == order && order.state == SubmissionPending ==>
                faults > old(faults)
                || Obstructed(old(store), order, RestartUnknown(order.id, order.revision), order.brokerId)
    {
      hide Explained, SubmissionsOk, Forward, NextState, Appended, ReportUsed, Compatible;
      hide Registered, Keyed, Replays, Obstructed, MovesFrom, LeavesIn;
      if store.orders[order.id].state == SubmissionPending {
        NextStageIsNew(registered, store,
                       Own(order, ReportUnknown, at, RestartUnknown(order.id, order.revision), order.brokerId));
      }
      PendingMayBeUnknown();
      PendingResolves();
      OrdersAreSound(registered, store, order.id);
      FilledComesFromFilled(store.orders[order.id].state, Unknown);
      ghost var again;
      unknown, again :=
        PublishInternal(order, ReportUnknown, at, RestartUnknown(order.id, order.revision), order.brokerId);
    }

    method RetryUnknown(order: Order, at: Instant)
      returns (progress: bool, latest: Order, ghost replayed: Option<string>, error: Option<CallError>)
      requires Valid() && order.id in store.orders && order.id != OrderId(0, 0)
      modifies this`store, this`faults, this`reserved, this`lookups
      ensures Valid() && Forward(old(store), store) && reserved == old(reserved)
      ensures error != Some(BrokerUnavailable) && error != Some(UnknownRemains)
      ensures lookups == old(lookups) + if error.None? then [order.id] else []
      ensures !progress || replayed.Some? ==> store == old(store)
      ensures replayed.Some? ==> progress && error.None? && Replays(store, RecoveryOf(order, at, replayed.value))
      ensures progress && replayed.None? && old(store).orders[order.id].state == Unknown ==>
                store.orders[order.id].state == Submitted
      ensures OnlyChanged(old(store), store, order.id)
      ensures progress && latest.state == Filled ==> store.orders[order.id].state == Filled
    {
      hide Explained, SubmissionsOk, Forward, LegalTransition, StaleTransition, Appended, ReportUsed, Compatible;
      hide Registered, Keyed, Replays;
      ForwardIsReflexive(store);
      latest := order;
      var ok := ReserveOrder(order.id);
      if !ok {
        return false, latest, None, Some(OrderBusy);
      }
      var recovered;
      ghost var found;
      recovered, replayed, found := RecoverUnknown(order, at);
      FilledComesFromFilled(old(store).orders[order.id].state, Submitted);
      ForwardKeepsFilled(old(store), store, order.id);
      PendingResolves();
      ReleaseOrder(order.id);
      return recovered.Some?, if recovered.Some? then recovered.value else order, replayed, None;
    }

    method PlanCreated(order: Order, at: Instant) returns (error: Option<CallError>)
      requires Valid() && order.id in store.orders && order.id != OrderId(0, 0)
      modifies this`store, this`faults, this`reserved
      ensures Valid() && Forward(old(store), store) && reserved == old(reserved)
      ensures error != Some(BrokerUnavailable) && error != Some(UnknownRemains)
      ensures error.None? && old(store).orders[order.id].state == Created ==> store.orders[order.id].state == Planned
      ensures error == Some(OrderBusy) <==> closed || order.id in old(reserved)
      ensures error.Some? && old(store).orders[order.id] == order && order.state == Created ==>
                error == Some(OrderBusy) || faults > old(faults)
                || Obstructed(old(store), order, PlanAccepted(order.id), order.brokerId)
      ensures OnlyChanged(old(store), store, order.id)
    {
      hide Explained, SubmissionsOk, Forward, LegalTransition, StaleTransition, Appended, ReportUsed, Compatible;
      hide Registered, Keyed, Replays;
      ForwardIsReflexive(store);
      var ok := ReserveOrder(order.id);
      if !ok {
        return Some(OrderBusy);
      }
      if store.orders[order.id].state == Created {
        NextStageIsNew(registered, store, Own(order, ReportPlanned, at, PlanAccepted(order.id), order.brokerId));
      }
      var next, again := PublishInternal(order, ReportPlanned, at, PlanAccepted(order.id), order.brokerId);
      PendingResolves();
      ReleaseOrder(order.id);
      return if next.Some? then None else Some(PublishFailed);
    }

    method SubmitAndDrain(id: OrderId, at: Instant) returns (error: Option<CallError>)
      requires Valid() && id in store.orders && id != OrderId(0, 0) && Released(store, id)
      modifies this`store, this`faults, this`reserved, this`submissions, this`cursor, this`lookups, this`polls
      ensures Valid() && Forward(old(store), store) && reserved == old(reserved)
      ensures error != Some(BrokerUnavailable) && error != Some(UnknownRemains)
      ensures polls >= old(polls)
      ensures error.None? ==> polls == old(polls) + 1
      ensures error.None? && old(store).orders[id].state == Planned ==> PastPlanned(store, id)
    {
      hide Explained, SubmissionsOk, Forward, PastPlanned, PendingLogged;
      var failed, reply := Submit(id, at);
      if failed.Some? && failed != Some(UnknownRemains) {
        return failed;
      }
      ghost var mid := store;
      ghost var batch, next, stores;
      failed, batch, next, stores := DrainEvents(at);
      ForwardIsTransitive(old(store), mid, store);
      ForwardKeeps(mid, store, id, Attempt(id, 0, at));
      return if failed == Some(BrokerUnavailable) then None else failed;
    }

    /** One pass over the legs of a plan, on a copy of its orders read at the start. A
        pass that reports progress lowers the pair (First, Second), unless it took a
        restored recovery for progress: `replayed`; one that reports none changes
        nothing and finds every leg settled. */
    method RunPass(plan: nat, legs: seq<Leg>, at: Instant)
      returns (progress: bool, ghost leaked: Option<OrderId>, ghost replayed: bool, error: Option<CallError>)
      requires Valid() && Executable(store, plan, legs)
      modifies this`store, this`faults, this`reserved, this`submissions, this`cursor, this`lookups, this`polls
      ensures Valid() && Executable(store, plan, legs) && Forward(old(store), store)
      ensures error != Some(BrokerUnavailable) && error != Some(UnknownRemains)
      ensures reserved == if leaked.Some? then old(reserved) + {leaked.value} else old(reserved)
      ensures leaked.Some? ==> error == Some(PublishFailed)
      ensures error.None? && progress && !replayed ==> Less(store, old(store), plan, legs)
      ensures error.None? && !progress ==> store == old(store) && Settled(store, plan, legs, |legs|)
      ensures polls >= old(polls)
      ensures replayed ==> !Calm(old(store), plan, legs, at)
    {
      hide Explained, SubmissionsOk, Forward, Advanced, PastPlanned, Settled, Registered, Ready, Less, Calm, Replays;
      hide Released, Keyed, PassState, OnlyChanged;
      ghost var start := store;
      ForwardIsReflexive(store);
      PassStart(store, plan, legs, at);
      var seen := store.orders;
      progress, leaked, replayed, error := false, None, false, None;
      ghost var drained := false;
      for i := 0 to |legs|
        invariant error != Some(BrokerUnavailable) && error != Some(UnknownRemains)
        invariant Valid() && Executable(store, plan, legs) && Forward(start, store) && reserved == old(reserved)
        invariant polls >= old(polls)
        invariant leaked == None && error == None && Executable(start, plan, legs)
        invariant PassState(start, store, seen, plan, legs, at, i, drained, progress, replayed)
      {
        PassHere(start, store, seen, plan, legs, at, i, drained, progress, replayed);
        var id := OrderId(plan, legs[i].id);
        var order := seen[id];
        var ready := Ready(seen, plan, legs[i]);
        ghost var before := store;
        var step, latest, moved, lost, same, failure := HandleLeg(order, ready, at);
        error := failure;
        ForwardIsTransitive(start, before, store);
        ForwardKeepsExecutable(before, store, plan, legs);
        if error.Some? {
          PassFailed(start, before, seen, plan, legs, at, i, drained, progress, replayed);
          leaked := if lost then Some(id) else None;
          return progress, leaked, replayed, error;
        }
        if step {
          PassMoved(registered, start, before, store, seen, latest, plan, legs, at, i, drained, progress, replayed,
                    moved, same);
          progress, replayed := true, replayed || (!drained && same.Some?);
          drained := drained || moved;
          if order.state == SubmissionPending || order.state == Unknown {
            seen := seen[id := latest];
          }
        } else {
          PassIdle(start, store, seen, plan, legs, at, i, drained, progress, replayed);
        }
      }
      PassEnds(start, store, seen, plan, legs, at, drained, progress, replayed);
    }

    /** The first `limit` passes: it stops when a pass makes no progress, fails, or the
        orders cannot be read, as when the context ends. Unless a restored recovery can
        be taken for progress it stops against every broker, within a number of passes
        that depends on the number of legs alone; what it then leaves is settled. */
    method RunPasses(plan: nat, legs: seq<Leg>, at: Instant, limit: nat)
      returns (stopped: bool, ghost leaked: Option<OrderId>, error: Option<CallError>)
      requires Valid() && Executable(store, plan, legs)
      modifies this`store, this`faults, this`reserved, this`submissions, this`cursor, this`lookups, this`polls
      ensures Valid() && Executable(store, plan, legs) && Forward(old(store), store)
      ensures error != Some(BrokerUnavailable) && error != Some(UnknownRemains)
      ensures reserved == if leaked.Some? then old(reserved) + {leaked.value} else old(reserved)
      ensures leaked.Some? ==> error == Some(PublishFailed)
      ensures error.Some? ==> stopped
      ensures polls >= old(polls)
      ensures stopped && error.None? ==> Settled(store, plan, legs, |legs|)
      ensures Calm(old(store), plan, legs, at) && MaximumPasses(|legs|) <= limit ==> stopped
    {
      hide Explained, SubmissionsOk, Forward, First, Second, Settled, Registered, Calm, Keyed, Weight, Less;
      hide MaximumPasses;
      ForwardIsReflexive(store);
      ghost var start := store;
      WeightIsBounded(store, plan, legs);
      var passes := 0;
      stopped, leaked, error := false, None, None;
      while !stopped && passes < limit
        invariant error != Some(BrokerUnavailable) && error != Some(UnknownRemains)
        invariant Valid() && Executable(store, plan, legs) && Forward(start, store) && reserved == old(reserved)
        invariant leaked.None? && error.None? && (stopped ==> Settled(store, plan, legs, |legs|))
        invariant Executable(start, plan, legs) && (Calm(start, plan, legs, at) ==> Calm(store, plan, legs, at))
        invariant passes <= limit && polls >= old(polls)
        invariant Calm(start, plan, legs, at) && !stopped ==>
                    passes + Weight(store, plan, legs) <= Weight(start, plan, legs)
        decreases limit - passes, !stopped
      {
        var interrupted: bool := *;
        if interrupted {
          return true, None, Some(Interrupted);
        }
        ghost var before := store;
        var progress;
        ghost var replayed;
        progress, leaked, replayed, error := RunPass(plan, legs, at);
        ForwardIsTransitive(start, before, store);
        CalmStays(before, store, plan, legs, at);
        if error.Some? {
          return true, leaked, error;
        }
        if progress && !replayed { LessIsLighter(store, before, plan, legs); }
        stopped, passes := !progress, passes + 1;
      }
    }

    /** The first `limit` passes of one call to execute or resume a plan. Nothing is
        written unless the plan is current, unfinished and not being executed already;
        the plan's own reservation is given back when the call ends; a call that ends
        with an outcome of its passes leaves every leg settled, with the outcome that
        the states of the orders call for; and every call ends, unless a restored
        recovery can be taken for progress. */
    method Execute(plan: nat, record: Option<PlanRecord>, at: Instant, limit: nat)
      returns (outcome: Outcome, ghost leaked: Option<OrderId>)
      requires Valid() && (plan != 0 && record.Some? ==> Executable(store, plan, record.value.legs))
      modifies this`store, this`faults, this`reserved, this`submissions, this`cursor, this`plans, this`lookups
      modifies this`polls
      ensures Valid() && Forward(old(store), store)
      ensures plans == if outcome.Running? then old(plans)[plan := at] else old(plans)
      ensures reserved == if leaked.Some? then old(reserved) + {leaked.value} else old(reserved)
      ensures Refusal(old(store), old(plans), closed, plan, record, at).Some? ==>
                && outcome == Refusal(old(store), old(plans), closed, plan, record, at).value
                && store == old(store) && submissions == old(submissions) && leaked.None?
      ensures Refusal(old(store), old(plans), closed, plan, record, at).None? && !outcome.Aborted? &&
              !outcome.Running? ==>
                && leaked.None? && Executable(store, plan, record.value.legs)
                && Settled(store, plan, record.value.legs, |record.value.legs|)
                && outcome == FinalOutcome(store, plan, record.value.legs)
      ensures Refusal(old(store), old(plans), closed, plan, record, at).None? && outcome != Aborted(Interrupted) ==>
                polls > old(polls)
      ensures outcome != Aborted(BrokerUnavailable) && outcome != Aborted(UnknownRemains)
      ensures outcome.Running? ==>
                && record.Some? && plan != 0
                && (Calm(old(store), plan, record.value.legs, at) ==> limit < MaximumPasses(|record.value.legs|))
    {
      hide Explained, SubmissionsOk, Forward, Settled, Registered, FinalOutcome, Calm, Keyed, MaximumPasses;
      ForwardIsReflexive(store);
      leaked := None;
      if plan == 0 || at == 0 || record.None? {
        return Invalid, None;
      }
      var legs := record.value.legs;
      if at < record.value.createdAt || at >= record.value.expiresAt {
        return DecisionExpired, None;
      }
      if AllInState(store, plan, legs, Filled) {
        return DuplicateCommitted, None;
      }
      if closed {
        return ShutDown, None;
      }
      if plan in plans {
        return if plans[plan] == at then DuplicateInProgress else Busy, None;
      }
      plans := plans[plan := at];
      var interrupted: bool := *;
      if interrupted {
        plans := plans - {plan};
        return Aborted(Interrupted), None;
      }
      var error, batch, next, stores := DrainEvents(at);
      ForwardKeepsExecutable(old(store), store, plan, legs);
      CalmStays(old(store), store, plan, legs, at);
      var stopped := true;
      if error.None? || error == Some(BrokerUnavailable) {
        ghost var before := store;
        stopped, leaked, error := RunPasses(plan, legs, at, limit);
        ForwardIsTransitive(old(store), before, store);
        if !stopped {
          return Running, leaked;
        }
      }
      plans := plans - {plan};
      outcome := if error.Some? then Aborted(error.value) else FinalOutcome(store, plan, legs);
    }

    /** Records that a cancellation will be asked for. */
    method AnnounceCancel(order: Order, at: Instant) returns (pending: Option<Order>)
      requires Valid() && order.id in store.orders && order == store.orders[order.id]
      requires order.state in {Submitted, Acknowledged, PartiallyFilled}
      modifies this`store, this`faults
      ensures Valid() && Forward(old(store), store) && old(faults) <= faults
      ensures pending.None? ==> store == old(store) && (faults > old(faults) || order.revision >= MAX_UINT64)
      ensures pending.Some? ==>
                && order.id in store.orders && pending.value == store.orders[order.id]
                && pending.value.state == CancelPending && pending.value.id == order.id
                && |store.log| == |old(store).log| + 1 && store.log[|old(store).log|].report.order == order.id
                && store.log[|old(store).log|].report.kind == ReportCancelPending
    {
      hide Explained, SubmissionsOk, Forward, NextState, Appended, ReportUsed, Compatible;
      hide Registered, Keyed, Replays, Obstructed, MovesFrom, LeavesIn;
      CancelKeyIsNew(store, CancelRequested(order.id, order.revision));
      CancelMayBePending(store, order, CancelRequested(order.id, order.revision));
      UnusedIsNotReplayed(store, Own(order, ReportCancelPending, at, CancelRequested(order.id, order.revision),
                                     order.brokerId));
      CancelResolves(order.state);
      ghost var again;
      pending, again :=
        PublishInternal(order, ReportCancelPending, at, CancelRequested(order.id, order.revision), order.brokerId);
    }

    /** Records that the outcome of a cancellation is unknown. */
    method LoseCancel(pending: Order, at: Instant) returns (recorded: bool)
      requires Valid() && pending.id in store.orders && pending == store.orders[pending.id]
      requires pending.state == CancelPending
      modifies this`store, this`faults
      ensures Valid() && Forward(old(store), store) && old(faults) <= faults && old(store).log <= store.log
      ensures recorded ==> pending.id in store.orders && store.orders[pending.id].state == Unknown
      ensures !recorded ==> store == old(store)
    {
      hide Explained, SubmissionsOk, Forward, NextState, Appended, ReportUsed, Compatible;
      hide Registered, Keyed, Replays, Obstructed, MovesFrom, LeavesIn;
      CancelKeyIsNew(store, CancelUnknown(pending.id, pending.revision));
      UnusedIsNotReplayed(store, Own(pending, ReportUnknown, at, CancelUnknown(pending.id, pending.revision),
                                     pending.brokerId));
      CancelResolves(Submitted);
      var unknown, again :=
        PublishInternal(pending, ReportUnknown, at, CancelUnknown(pending.id, pending.revision), pending.brokerId);
      return unknown.Some?;
    }

    /** Asks the broker to cancel an order that is at the broker. An order elsewhere
        is left alone; a request whose outcome is not known leaves the order UNKNOWN;
        nothing is ever submitted. */
    method RequestCancel(id: OrderId, at: Instant) returns (error: Option<CallError>)
      requires Valid() && id != OrderId(0, 0)
      modifies this`store, this`faults, this`reserved, this`cursor, this`cancellations, this`polls
      ensures Valid() && Forward(old(store), store) && reserved == old(reserved)
      ensures id in store.orders && old(store).orders[id].state !in {Submitted, Acknowledged, PartiallyFilled} ==>
                store == old(store) && (error == Some(NotCancellable) || error == Some(OrderBusy))
      ensures cancellations == old(cancellations) || cancellations == old(cancellations) + [id]
      ensures error.None? || error == Some(UnknownRemains) ==> cancellations == old(cancellations) + [id]
      ensures cancellations != old(cancellations) ==>
                id in old(store).orders && |old(store).log| < |store.log| &&
                store.log[|old(store).log|].report.kind == ReportCancelPending
      ensures error.None? ==> polls == old(polls) + 1
      ensures error == Some(NoSuchOrder) ==> id !in old(store).orders || cancellations != old(cancellations)
      ensures id in old(store).orders && old(store).orders[id].state in {Submitted, Acknowledged, PartiallyFilled}
              && !closed && id !in old(reserved) && old(store).orders[id].revision < MAX_UINT64 ==>
                cancellations == old(cancellations) + [id] || faults > old(faults)
      ensures error == Some(UnknownRemains) ==> id in store.orders && store.orders[id].state == Unknown
      ensures error.None? || error == Some(UnknownRemains) ==>
                && id in old(store).orders && |old(store).log| < |store.log|
                && store.log[|old(store).log|].report.kind == ReportCancelPending
                && store.log[|old(store).log|].report.order == id
    {
      hide Explained, SubmissionsOk, Forward, Keyed, Registered;
      ForwardIsReflexive(store);
      if id !in store.orders {
        return Some(NoSuchOrder);
      }
      var order := store.orders[id];
      OrdersAreSound(registered, store, id);
      var ok := ReserveOrder(id);
      if !ok {
        return Some(OrderBusy);
      }
      if order.state !in {Submitted, Acknowledged, PartiallyFilled} {
        ReleaseOrder(id);
        return Some(NotCancellable);
      }
      var pending := AnnounceCancel(order, at);
      if pending.None? {
        ReleaseOrder(id);
        return Some(PublishFailed);
      }
      ghost var requested := store;
      cancellations := cancellations + [id];
      var outcomeUnknown: bool := *;
      if outcomeUnknown {
        var unknown := LoseCancel(pending.value, at);
        ForwardIsTransitive(old(store), requested, store);
        ReleaseOrder(id);
        return if unknown then Some(UnknownRemains) else Some(PublishFailed);
      }
      ReleaseOrder(id);
      ghost var batch, next, stores;
      error, batch, next, stores := DrainEvents(at);
      ForwardKeepsLog(requested, store, |old(store).log|);
      ForwardIsTransitive(old(store), requested, store);
    }
  }

  datatype PlanRecord = PlanRecord(legs: seq<Leg>, createdAt: Instant, expiresAt: Instant)

  datatype Outcome =
    | Invalid | DecisionExpired | DuplicateCommitted | DuplicateInProgress | Busy | ShutDown
    | Completed | UnknownOutcome | Incomplete | Pending | Running
    | Aborted(error: CallError)

  predicate AllInState(store: Store, plan: nat, legs: seq<Leg>, state: OrderState)
    requires HasOrders(store, plan, legs)
  {
    legs != [] && forall i :: 0 <= i < |legs| ==> StateOf(store, plan, legs[i]) == state
  }

  predicate AnyInState(store: Store, plan: nat, legs: seq<Leg>, states: set<OrderState>)
    requires HasOrders(store, plan, legs)
  {
    exists i :: 0 <= i < |legs| && StateOf(store, plan, legs[i]) in states
  }

  /** Why a call does nothing, if it does nothing. */
  function Refusal(store: Store, plans: map<nat, Instant>, closed: bool, plan: nat, record: Option<PlanRecord>,
                   at: Instant):
    Option<Outcome>
    requires plan != 0 && record.Some? ==> HasOrders(store, plan, record.value.legs)
  {
    if plan == 0 || at == 0 || record.None? then Some(Invalid)
    else if !(record.value.createdAt <= at < record.value.expiresAt) then Some(DecisionExpired)
    else if AllInState(store, plan, record.value.legs, Filled) then Some(DuplicateCommitted)
    else if closed then Some(ShutDown)
    else if plan in plans then Some(if plans[plan] == at then DuplicateInProgress else Busy)
    else None
  }

  function FinalOutcome(store: Store, plan: nat, legs: seq<Leg>): (outcome: Outcome)
    requires HasOrders(store, plan, legs)
    ensures outcome in {Completed, UnknownOutcome, Incomplete, Pending}
  {
    if AllInState(store, plan, legs, Filled) then Completed
    else if AnyInState(store, plan, legs, {Unknown}) then UnknownOutcome
    else if AnyInState(store, plan, legs, {Rejected, Cancelled, Expired, Failed}) then Incomplete
    else Pending
  }

  /** Each refusal, by what is asked and what stands. */
  lemma RefusalExactly(store: Store, plans: map<nat, Instant>, closed: bool, plan: nat, record: Option<PlanRecord>,
                       at: Instant)
    requires plan != 0 && record.Some? ==> HasOrders(store, plan, record.value.legs)
    ensures var refusal := Refusal(store, plans, closed, plan, record, at);
            var asked := plan != 0 && at != 0 && record.Some?;
            var current := asked && record.value.createdAt <= at && at < record.value.expiresAt;
            var filled := current && record.value.legs != [] &&
                          forall i :: 0 <= i < |record.value.legs| ==>
                            store.orders[OrderId(plan, record.value.legs[i].id)].state == Filled;
            && (refusal == Some(Invalid) <==> !asked)
            && (refusal == Some(DecisionExpired) <==> asked && !current)
            && (refusal == Some(DuplicateCommitted) <==> filled)
            && (refusal == Some(ShutDown) <==> current && !filled && closed)
            && (refusal == Some(DuplicateInProgress) <==>
                  current && !filled && !closed && plan in plans && plans[plan] == at)
            && (refusal == Some(Busy) <==> current && !filled && !closed && plan in plans && plans[plan] != at)
            && (refusal.None? <==> current && !filled && !closed && plan !in plans)
  {
  }

  /** Each outcome, by the states of the legs. */
  lemma OutcomeExactly(store: Store, plan: nat, legs: seq<Leg>)
    requires HasOrders(store, plan, legs)
    ensures var outcome := FinalOutcome(store, plan, legs);
            var unknown := exists i :: 0 <= i < |legs| && StateOf(store, plan, legs[i]) == Unknown;
            var failed := exists i :: 0 <= i < |legs| &&
                                      StateOf(store, plan, legs[i]) in {Rejected, Cancelled, Expired, Failed};
            var filled := legs != [] && forall i :: 0 <= i < |legs| ==> StateOf(store, plan, legs[i]) == Filled;
            && (outcome == Completed <==> filled)
            && (outcome == UnknownOutcome <==> unknown)
            && (outcome == Incomplete <==> failed && !unknown)
            && (outcome == Pending <==> !filled && !unknown && !failed)
  {
    if i :| 0 <= i < |legs| && StateOf(store, plan, legs[i]) == Unknown {
      assert !AllInState(store, plan, legs, Filled);
    }
    if i :| 0 <= i < |legs| && StateOf(store, plan, legs[i]) in {Rejected, Cancelled, Expired, Failed} {
      assert !AllInState(store, plan, legs, Filled);
    }
  }

  /** A PENDING outcome waits for the broker: of settled legs in topological order, one
      is at the broker and open there. */
  lemma PendingWaits(store: Store, plan: nat, legs: seq<Leg>, order: seq<LegId>) returns (k: nat)
    requires Executable(store, plan, legs) && Settled(store, plan, legs, |legs|) && OrderPlan.Grounded(legs)
    requires Topological(OrderPlan.EdgesOf(legs), order) && OrderPlan.EdgesOf(legs).Keys <= Elements(order)
    requires legs != [] && FinalOutcome(store, plan, legs) == Pending
    ensures k < |legs|
    ensures StateOf(store, plan, legs[k]) in {Submitted, Acknowledged, PartiallyFilled, CancelPending}
  {
    hide OrderPlan.EdgesOf, Topological, Elements, OrderPlan.Grounded, FinalOutcome, Executable;
    ExecutableMeans(store, plan, legs);
    OutcomeExactly(store, plan, legs);
    k :| 0 <= k < |legs| && StateOf(store, plan, legs[k]) != Filled;
    if StateOf(store, plan, legs[k]) == Planned {
      var path;
      k, path := StuckLegBlamesAnother(store, plan, legs, order, k);
    }
  }

  /** The transitions that a pass makes on its own. */
  lemma PendingResolves()
    ensures NextState(SubmissionPending, Unknown) == Some(Unknown)
    ensures NextState(Unknown, Submitted) == Some(Submitted)
    ensures NextState(Created, Planned) == Some(Planned)
  {
  }

  lemma CancelResolves(state: OrderState)
    requires state in {Submitted, Acknowledged, PartiallyFilled}
    ensures NextState(state, CancelPending) == Some(CancelPending)
    ensures NextState(CancelPending, Unknown) == Some(Unknown)
  {
  }

  /** Where a pending submission leads. */
  lemma PendingEnds()
    ensures NextState(SubmissionPending, Submitted) == Some(Submitted)
    ensures NextState(SubmissionPending, Rejected) == Some(Rejected)
    ensures NextState(SubmissionPending, Unknown) == Some(Unknown)
    ensures NextState(Unknown, Submitted) == Some(Submitted)
  {
  }

  /** An order that was pending a moment ago has no recovery to be replayed. */
  lemma NoRestoredRecovery(registered: map<OrderId, Order>, before: Store, after: Store, o: Order, at: Instant)
    requires Registered(registered) && Explained(registered, before) && o.id in before.orders
    requires before.orders[o.id].state == SubmissionPending && before.log <= after.log
    requires before.restored == after.restored <= |before.log|
    ensures forall b :: !Replays(after, RecoveryOf(o, at, b))
  {
    hide Explained, Registered;
    forall b ensures !Replays(after, RecoveryOf(o, at, b)) {
      NextStageIsNew(registered, before, RecoveryOf(o, at, b));
      assert forall i :: 0 <= i < before.restored ==> before.log[i] == after.log[i];
    }
  }

  /** Only a FILLED order is FILLED after a report that is no fill. */
  lemma FilledComesFromFilled(from: OrderState, to: OrderState)
    requires to != Filled
    ensures NextState(from, to) == Some(Filled) ==> from == Filled
  {
  }

  lemma ForwardKeepsLog(before: Store, after: Store, i: nat)
    requires Forward(before, after) && i < |before.log|
    ensures i < |after.log| && after.log[i] == before.log[i]
  {
  }

  lemma ForwardKeepsFilled(before: Store, after: Store, id: OrderId)
    requires Forward(before, after) && id in before.orders
    ensures id in after.orders && (before.orders[id].state == Filled ==> after.orders[id].state == Filled)
  {
  }

  /** The order can be, or come to be, UNKNOWN with this filled quantity. */
  predicate CanReturn(o: Order, filled: int) {
    && filled < o.leg.quantity && !Absorbing(o.state)
    && (o.filled < filled || (o.filled == filled && o.state != Cancelled))
  }

  /** A report by which a call at this time recovered the order. */
  predicate RecoveryAt(r: Report, id: OrderId, at: Instant) {
    && r.id == Recovered(id, r.brokerId) && r.order == id && r.kind == ReportSubmitted
    && r.occurredAt == at && r.receivedAt == at
  }

  /** No restored recovery of an order of the plan bears this time and a filled
      quantity at which the order can be UNKNOWN. */
  predicate Calm(store: Store, plan: nat, legs: seq<Leg>, at: Instant)
    requires HasOrders(store, plan, legs)
  {
    forall k, i :: 0 <= k < |legs| && 0 <= i < |store.log| && i < store.restored &&
                   RecoveryAt(store.log[i].report, OrderId(plan, legs[k].id), at) ==>
      !CanReturn(store.orders[OrderId(plan, legs[k].id)], store.log[i].report.cumulative)
  }

  /** No report, of the coordinator or the broker, ends the calm. */
  lemma CalmStays(before: Store, after: Store, plan: nat, legs: seq<Leg>, at: Instant)
    requires HasOrders(before, plan, legs) && HasOrders(after, plan, legs) && Forward(before, after)
    requires before.restored == after.restored <= |before.log|
    ensures Calm(before, plan, legs, at) ==> Calm(after, plan, legs, at)
  {
    forall k, i | 0 <= k < |legs| && 0 <= i < |after.log| && i < after.restored && Calm(before, plan, legs, at) &&
                  RecoveryAt(after.log[i].report, OrderId(plan, legs[k].id), at)
      ensures !CanReturn(after.orders[OrderId(plan, legs[k].id)], after.log[i].report.cumulative)
    {
      assert before.log[i] == after.log[i];
      var id := OrderId(plan, legs[k].id);
      assert Onward(before.orders[id], after.orders[id]);
      assert !CanReturn(before.orders[id], before.log[i].report.cumulative);
    }
  }

  lemma ReplayIsNotCalm(registered: map<OrderId, Order>, store: Store, plan: nat, legs: seq<Leg>, k: nat, at: Instant,
                        brokerId: string)
    requires Registered(registered) && Explained(registered, store) && HasOrders(store, plan, legs) && k < |legs|
    requires StateOf(store, plan, legs[k]) == Unknown
    requires Replays(store, RecoveryOf(store.orders[OrderId(plan, legs[k].id)], at, brokerId))
    ensures !Calm(store, plan, legs, at)
  {
    hide Explained, Registered;
    var id := OrderId(plan, legs[k].id);
    var e := RecoveryOf(store.orders[id], at, brokerId);
    OrdersAreSound(registered, store, id);
    var i :| 0 <= i < |store.log| && i < store.restored && store.log[i].report == e.report;
    assert RecoveryAt(store.log[i].report, id, at) && CanReturn(store.orders[id], store.log[i].report.cumulative);
  }

  /** A leg came closer to its end without adding to either count. */
  predicate Advanced(from: OrderState, to: OrderState) {
    && Unresolved(to) <= Unresolved(from) && NotSubmitted(to) <= NotSubmitted(from)
    && (NotSubmitted(to) < NotSubmitted(from) || Unresolved(to) < Unresolved(from))
  }

  /** The plan's orders exist, one per leg, each carrying its leg. */
  predicate Executable(store: Store, plan: nat, legs: seq<Leg>) {
    && plan != 0 && HasOrders(store, plan, legs)
    && (forall i :: 0 <= i < |legs| ==>
          && store.orders[OrderId(plan, legs[i].id)].id == OrderId(plan, legs[i].id)
          && store.orders[OrderId(plan, legs[i].id)].leg == legs[i])
    && forall i, j :: 0 <= i < j < |legs| ==> legs[i].id != legs[j].id
  }

  /** The gate on a leg, on a copy of the orders. */
  predicate Ready(seen: map<OrderId, Order>, plan: nat, leg: Leg) {
    forall b <- leg.dependsOn :: OrderId(plan, b) in seen && seen[OrderId(plan, b)].state == Filled
  }

  /** What the copy shows as FILLED is FILLED. */
  predicate SeenFilled(seen: map<OrderId, Order>, store: Store) {
    forall o <- seen :: seen[o].state == Filled ==> o in store.orders && store.orders[o].state == Filled
  }

  lemma ForwardKeepsSeen(seen: map<OrderId, Order>, before: Store, after: Store)
    requires SeenFilled(seen, before) && Forward(before, after)
    ensures SeenFilled(seen, after)
  {
  }

  lemma SeenRefreshed(seen: map<OrderId, Order>, store: Store, id: OrderId, latest: Order)
    requires SeenFilled(seen, store) && id in store.orders
    ensures (latest.state == Filled ==> store.orders[id].state == Filled) ==> SeenFilled(seen[id := latest], store)
  {
  }

  /** A leg that the copy shows as ready is ready: the copy may be old, but FILLED
      orders stay FILLED. */
  lemma ReadyIsReleased(seen: map<OrderId, Order>, store: Store, plan: nat, legs: seq<Leg>, i: nat)
    requires Executable(store, plan, legs) && i < |legs| && SeenFilled(seen, store)
    ensures Ready(seen, plan, legs[i]) ==> Released(store, OrderId(plan, legs[i].id))
  {
  }

  /** From leg i on, a copy of the orders agrees with the orders. */
  predicate Agree(seen: map<OrderId, Order>, orders: map<OrderId, Order>, plan: nat, legs: seq<Leg>, i: nat) {
    forall j :: i <= j < |legs| ==>
      && OrderId(plan, legs[j].id) in seen && OrderId(plan, legs[j].id) in orders
      && seen[OrderId(plan, legs[j].id)] == orders[OrderId(plan, legs[j].id)]
  }

  lemma AgreeHere(seen: map<OrderId, Order>, orders: map<OrderId, Order>, plan: nat, legs: seq<Leg>, i: nat)
    requires i < |legs| && Agree(seen, orders, plan, legs, i)
    ensures OrderId(plan, legs[i].id) in seen && OrderId(plan, legs[i].id) in orders
    ensures seen[OrderId(plan, legs[i].id)] == orders[OrderId(plan, legs[i].id)]
  {
  }

  lemma AgreeNext(seen: map<OrderId, Order>, orders: map<OrderId, Order>, seen': map<OrderId, Order>,
                  orders': map<OrderId, Order>, plan: nat, legs: seq<Leg>, i: nat)
    requires i < |legs| && Agree(seen, orders, plan, legs, i)
    requires SameExcept(seen, seen', OrderId(plan, legs[i].id)) &&
             SameExcept(orders, orders', OrderId(plan, legs[i].id))
    requires forall j, k :: 0 <= j < k < |legs| ==> legs[j].id != legs[k].id
    ensures Agree(seen', orders', plan, legs, i + 1)
  {
  }

  /** Legs that a pass leaves alone: neither CREATED nor SUBMISSION_PENDING, and if
      PLANNED then still waiting for a dependency. */
  predicate Settled(store: Store, plan: nat, legs: seq<Leg>, n: nat)
    requires HasOrders(store, plan, legs) && n <= |legs|
  {
    forall i :: 0 <= i < n ==>
      && StateOf(store, plan, legs[i]) !in {Created, SubmissionPending}
      && (StateOf(store, plan, legs[i]) == Planned ==> !Ready(store.orders, plan, legs[i]))
  }

  /** How far a pass is: what its copy of the orders still agrees with, how the counts
      stand, and what it has to show for the progress that it reports. */
  ghost predicate PassState(start: Store, store: Store, seen: map<OrderId, Order>, plan: nat, legs: seq<Leg>,
                            at: Instant, i: nat, drained: bool, progress: bool, replayed: bool)
    requires HasOrders(start, plan, legs) && HasOrders(store, plan, legs)
  {
    && i <= |legs| && seen.Keys == store.orders.Keys && Agree(seen, start.orders, plan, legs, i)
    && (!drained ==> Agree(seen, store.orders, plan, legs, i))
    && SeenFilled(seen, store) && Lowered(store, start, plan, legs, drained)
    && (progress && !replayed ==> Less(store, start, plan, legs))
    && (replayed ==> !Calm(start, plan, legs, at))
    && (!progress ==> store == start && !drained && seen == start.orders && Settled(start, plan, legs, i))
  }

  lemma PassStart(store: Store, plan: nat, legs: seq<Leg>, at: Instant)
    requires HasOrders(store, plan, legs)
    ensures PassState(store, store, store.orders, plan, legs, at, 0, false, false, false)
  {
  }

  /** What the pass knows of the leg that it comes to. */
  lemma PassHere(start: Store, store: Store, seen: map<OrderId, Order>, plan: nat, legs: seq<Leg>, at: Instant, i: nat,
                 drained: bool, progress: bool, replayed: bool)
    requires Executable(start, plan, legs) && Executable(store, plan, legs) && i < |legs|
    requires PassState(start, store, seen, plan, legs, at, i, drained, progress, replayed)
    ensures var id := OrderId(plan, legs[i].id);
            && id in seen && seen[id].id == id && id != OrderId(0, 0) && id in store.orders
            && (Ready(seen, plan, legs[i]) ==> Released(store, id))
            && (!drained ==> seen[id] == store.orders[id])
  {
    hide Calm, Less, Lowered, Settled, Ready, Released;
    AgreeHere(seen, start.orders, plan, legs, i);
    if !drained { AgreeHere(seen, store.orders, plan, legs, i); }
    ReadyIsReleased(seen, store, plan, legs, i);
  }

  lemma PassFailed(start: Store, store: Store, seen: map<OrderId, Order>, plan: nat, legs: seq<Leg>, at: Instant,
                   i: nat, drained: bool, progress: bool, replayed: bool)
    requires HasOrders(start, plan, legs) && HasOrders(store, plan, legs)
    requires PassState(start, store, seen, plan, legs, at, i, drained, progress, replayed)
    ensures replayed ==> !Calm(start, plan, legs, at)
  {
    hide Calm, Less, Lowered, Settled;
  }

  lemma PassEnds(start: Store, store: Store, seen: map<OrderId, Order>, plan: nat, legs: seq<Leg>, at: Instant,
                 drained: bool, progress: bool, replayed: bool)
    requires HasOrders(start, plan, legs) && HasOrders(store, plan, legs)
    requires PassState(start, store, seen, plan, legs, at, |legs|, drained, progress, replayed)
    ensures progress && !replayed ==> Less(store, start, plan, legs)
    ensures !progress ==> store == start && Settled(store, plan, legs, |legs|)
    ensures replayed ==> !Calm(start, plan, legs, at)
  {
    hide Calm, Less, Lowered, Settled;
  }

  /** A leg that the pass leaves alone. */
  lemma PassIdle(start: Store, store: Store, seen: map<OrderId, Order>, plan: nat, legs: seq<Leg>, at: Instant, i: nat,
                 drained: bool, progress: bool, replayed: bool)
    requires Executable(start, plan, legs) && Executable(store, plan, legs) && i < |legs|
    requires PassState(start, store, seen, plan, legs, at, i, drained, progress, replayed)
    requires var id := OrderId(plan, legs[i].id);
             && id in seen && seen[id].state !in {Created, SubmissionPending}
             && !(seen[id].state == Planned && Ready(seen, plan, legs[i]))
    ensures PassState(start, store, seen, plan, legs, at, i + 1, drained, progress, replayed)
  {
    hide Calm, Less, Lowered, Settled, Ready;
    AgreeNext(seen, start.orders, seen, start.orders, plan, legs, i);
    if !drained { AgreeNext(seen, store.orders, seen, store.orders, plan, legs, i); }
    if !progress { SettledNext(start, plan, legs, i); }
  }

  /** A leg for which the pass reports progress. */
  lemma PassMoved(registered: map<OrderId, Order>, start: Store, before: Store, after: Store,
                  seen: map<OrderId, Order>, latest: Order, plan: nat, legs: seq<Leg>, at: Instant, i: nat,
                  drained: bool, progress: bool, replayed: bool, moved: bool, same: Option<string>)
    requires Registered(registered) && Explained(registered, after) && i < |legs|
    requires Executable(start, plan, legs) && Executable(before, plan, legs) && Executable(after, plan, legs)
    requires Forward(start, after) && Forward(before, after) && start.restored == after.restored <= |start.log|
    requires PassState(start, before, seen, plan, legs, at, i, drained, progress, replayed)
    requires OrderId(plan, legs[i].id) in seen
    requires var id := OrderId(plan, legs[i].id);
             && (same.Some? ==>
                   && after == before && !moved && seen[id].state == Unknown
                   && Replays(after, RecoveryOf(seen[id], at, same.value)))
             && (before.orders[id] == seen[id] && !moved ==>
                   Advanced(seen[id].state, after.orders[id].state) || same.Some?)
             && (!moved ==> OnlyChanged(before, after, id))
             && (moved ==> seen[id].state == Planned && (before.orders[id].state == Planned ==> PastPlanned(after, id)))
             && (seen[id].state in {SubmissionPending, Unknown} ==>
                   (latest.state == Filled ==> after.orders[id].state == Filled))
    ensures var id := OrderId(plan, legs[i].id);
            var seen' := if seen[id].state in {SubmissionPending, Unknown} then seen[id := latest] else seen;
            PassState(start, after, seen', plan, legs, at, i + 1, drained || moved, true,
                      replayed || (!drained && same.Some?))
  {
    hide Explained, Registered, Forward, Advanced, PastPlanned, Settled, Lowered, Less, Calm, Replays, Agree;
    hide SeenFilled;
    var id := OrderId(plan, legs[i].id);
    var order := seen[id];
    var seen' := if order.state in {SubmissionPending, Unknown} then seen[id := latest] else seen;
    if !drained { AgreeHere(seen, before.orders, plan, legs, i); }
    ForwardKeepsExecutable(before, after, plan, legs);
    ForwardKeepsSeen(seen, before, after);
    SeenRefreshed(seen, after, id, latest);
    AgreeNext(seen, start.orders, seen', start.orders, plan, legs, i);
    if !drained && !moved { AgreeNext(seen, before.orders, seen', after.orders, plan, legs, i); }
    if !drained && same.Some? {
      ReplayIsNotCalm(registered, after, plan, legs, i, at, same.value);
      CalmStays(start, after, plan, legs, at);
    } else {
      PassLowers(start, before, after, plan, legs, i, moved, drained);
    }
  }

  lemma SettledNext(store: Store, plan: nat, legs: seq<Leg>, i: nat)
    requires HasOrders(store, plan, legs) && i < |legs| && Settled(store, plan, legs, i)
    requires StateOf(store, plan, legs[i]) !in {Created, SubmissionPending}
    requires StateOf(store, plan, legs[i]) == Planned ==> !Ready(store.orders, plan, legs[i])
    ensures Settled(store, plan, legs, i + 1)
  {
  }

  lemma ForwardKeepsExecutable(before: Store, after: Store, plan: nat, legs: seq<Leg>)
    requires Executable(before, plan, legs) && Forward(before, after)
    ensures Executable(after, plan, legs) && before.orders.Keys == after.orders.Keys
  {
  }

  lemma DrainLowers(before: Store, after: Store, plan: nat, legs: seq<Leg>, i: nat)
    requires Executable(before, plan, legs) && Executable(after, plan, legs) && Forward(before, after) && i < |legs|
    requires StateOf(before, plan, legs[i]) == Planned && PastPlanned(after, OrderId(plan, legs[i].id))
    ensures First(after, plan, legs) < First(before, plan, legs)
  {
    hide First, Forward;
    FirstShrinks(before, after, plan, legs, i);
  }

  /** The counts within a pass: the second may have grown only after a drain, and
      then the first has shrunk. */
  predicate Lowered(after: Store, start: Store, plan: nat, legs: seq<Leg>, drained: bool)
    requires HasOrders(after, plan, legs) && HasOrders(start, plan, legs)
  {
    if drained then First(after, plan, legs) < First(start, plan, legs)
    else First(after, plan, legs) <= First(start, plan, legs) && Second(after, plan, legs) <= Second(start, plan, legs)
  }

  lemma PassLowers(start: Store, before: Store, after: Store, plan: nat, legs: seq<Leg>, i: nat, moved: bool,
                   drained: bool)
    requires Executable(start, plan, legs) && Executable(before, plan, legs) && Executable(after, plan, legs)
    requires Forward(before, after) && i < |legs| && Lowered(before, start, plan, legs, drained)
    requires moved && !drained ==>
               StateOf(before, plan, legs[i]) == Planned && PastPlanned(after, OrderId(plan, legs[i].id))
    requires !moved && !drained ==>
               && OnlyChanged(before, after, OrderId(plan, legs[i].id))
               && Advanced(StateOf(before, plan, legs[i]), StateOf(after, plan, legs[i]))
    ensures Lowered(after, start, plan, legs, drained || moved) && Less(after, start, plan, legs)
  {
    hide First, Second, Forward, Advanced, PastPlanned, OnlyChanged;
    if drained {
      FirstNeverGrows(before, after, plan, legs);
    } else if moved {
      DrainLowers(before, after, plan, legs, i);
    } else {
      LegAdvances(before, after, plan, legs, i);
    }
  }

  lemma LegAdvances(before: Store, after: Store, plan: nat, legs: seq<Leg>, i: nat)
    requires Executable(before, plan, legs) && Executable(after, plan, legs) && Forward(before, after) && i < |legs|
    requires OnlyChanged(before, after, OrderId(plan, legs[i].id))
    requires Advanced(StateOf(before, plan, legs[i]), StateOf(after, plan, legs[i]))
    ensures Less(after, before, plan, legs) && First(after, plan, legs) <= First(before, plan, legs)
    ensures Second(after, plan, legs) <= Second(before, plan, legs)
  {
    hide First, Second, Forward;
    FirstNeverGrows(before, after, plan, legs);
    SecondFollowsOneOrder(before, after, plan, legs, i);
    if NotSubmitted(StateOf(after, plan, legs[i])) < NotSubmitted(StateOf(before, plan, legs[i])) {
      FirstShrinks(before, after, plan, legs, i);
    }
  }

  /** A leg is stuck only because of another. When the passes stop with a leg still
      PLANNED, following its dependencies leads to a leg that is neither PLANNED nor
      FILLED, nor anything that another pass could move. */
  lemma {:induction false} StuckLegBlamesAnother(store: Store, plan: nat, legs: seq<Leg>, order: seq<LegId>, i: nat)
    returns (j: nat, path: seq<LegId>)
    requires Executable(store, plan, legs) && Settled(store, plan, legs, |legs|) && OrderPlan.Grounded(legs)
    requires Topological(OrderPlan.EdgesOf(legs), order) && OrderPlan.EdgesOf(legs).Keys <= Elements(order)
    requires i < |legs| && StateOf(store, plan, legs[i]) == Planned
    ensures j < |legs| && StateOf(store, plan, legs[j]) !in {Planned, Filled, Created, SubmissionPending}
    ensures Walk(OrderPlan.EdgesOf(legs), path) && path[0] == legs[i].id && path[|path| - 1] == legs[j].id
    decreases Position(order, legs[i].id)
  {
    hide OrderPlan.EdgesOf, Topological, Elements, Executable;
    ExecutableMeans(store, plan, legs);
    OrderPlan.EdgesOfLeg(legs, i);
    var b :| b in legs[i].dependsOn &&
             !(OrderId(plan, b) in store.orders && store.orders[OrderId(plan, b)].state == Filled);
    assert Edge(OrderPlan.EdgesOf(legs), legs[i].id, b);
    var k :| 0 <= k < |legs| && legs[k].id == b;
    OrderPlan.EdgesOfLeg(legs, k);
    DependencyIsEarlier(OrderPlan.EdgesOf(legs), order, legs[i].id, b);
    if StateOf(store, plan, legs[k]) == Planned {
      var rest;
      j, rest := StuckLegBlamesAnother(store, plan, legs, order, k);
      path := [legs[i].id] + rest;
    } else {
      j, path := k, [legs[i].id, b];
    }
  }

  lemma ExecutableMeans(store: Store, plan: nat, legs: seq<Leg>)
    requires Executable(store, plan, legs)
    ensures HasOrders(store, plan, legs) && forall j, k :: 0 <= j < k < |legs| ==> legs[j].id != legs[k].id
  {
  }

  function Position(order: seq<LegId>, id: LegId): nat {
    if order == [] || order[0] == id then 0 else 1 + Position(order[1..], id)
  }

  lemma {:induction false} PositionFinds(order: seq<LegId>, id: LegId, i: nat)
    requires i < |order| && order[i] == id && forall j, k :: 0 <= j < k < |order| ==> order[j] != order[k]
    ensures Position(order, id) == i
  {
    if i > 0 {
      PositionFinds(order[1..], id, i - 1);
    }
  }

  lemma DependencyIsEarlier(edges: Edges, order: seq<LegId>, a: LegId, b: LegId)
    requires Topological(edges, order) && a in Elements(order) && Edge(edges, a, b)
    ensures Position(order, b) < Position(order, a)
  {
    var i :| 0 <= i < |order| && order[i] == a;
    var j :| 0 <= j < i && order[..i][j] == b;
    PositionFinds(order, a, i);
    PositionFinds(order, b, j);
  }

  /** Protection before exposure, of the coordinator object: once a sale that adds
      exposure has been submitted, every protective leg of its plan is FILLED. */
  lemma SubmittedSaleIsProtected(store: Store, submissions: seq<Submission>, intent: OrderPlan.Intent, plan: nat,
                                 legs: seq<Leg>, i: nat, k: nat)
    requires SubmissionsOk(store, submissions) && Executable(store, plan, legs) && OrderPlan.SafeLegs(intent, legs)
    requires i < |submissions| && k < |legs| && OrderPlan.AddsExposure(legs[k])
    requires submissions[i].order == OrderId(plan, legs[k].id)
    ensures exists j :: 0 <= j < |legs| && legs[j].protective && legs[j].side.Buy?
    ensures forall j :: 0 <= j < |legs| && legs[j].protective ==> StateOf(store, plan, legs[j]) == Filled
  {
    assert AnnouncedOne(store, submissions[i]);
    assert Released(store, OrderId(plan, legs[k].id)) && OrderPlan.Guarded(legs);
  }
}
