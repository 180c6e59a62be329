/** One order and the execution reports that move it. */
module OrderModel {
  import opened Wrappers
  import opened Int64
  import opened AccountingModel

  type LegId = nat
  type InstrumentId = nat

  datatype OrderState =
    | Created | Planned | SubmissionPending | Submitted | Acknowledged | PartiallyFilled | Filled | CancelPending
    | Cancelled | Rejected | Expired | Failed | Unknown

  datatype ReportType =
    | ReportPlanned | ReportSubmissionPending | ReportSubmitted | ReportAcknowledged | ReportPartialFill | ReportFill
    | ReportCancelPending | ReportCancelled | ReportRejected | ReportExpired | ReportFailed | ReportUnknown

  datatype Leg = Leg(id: LegId, instrument: InstrumentId, side: Side, quantity: int64, limitPrice: int64,
                     currency: string, protective: bool, dependsOn: seq<LegId>, reducing: bool)

  /** An order identity is derived, injectively, from its plan and its leg. */
  datatype OrderId = OrderId(plan: nat, leg: LegId) {
    predicate Unset() {
      plan == 0 || leg == 0
    }
  }

  /** The broker order identity is "" until the broker has given one. */
  datatype Order = Order(id: OrderId, clientId: nat, leg: Leg, state: OrderState, revision: int,
                         filled: int64, brokerId: string, createdAt: Instant, updatedAt: Instant)

  /** A submission attempt is identified by order, order revision and time. */
  datatype Attempt = Attempt(order: OrderId, revision: int, at: Instant)

  /** Report identities: the broker's own event identity, or the key under which
      the coordinator reports what it does itself. */
  datatype ReportId =
    | BrokerEvent(event: string)
    | PlanAccepted(order: OrderId)
    | AttemptPending(attempt: Attempt)
    | AttemptUnknown(attempt: Attempt)
    | AttemptRejected(attempt: Attempt)
    | AttemptSubmitted(attempt: Attempt)
    | RestartUnknown(order: OrderId, revision: int)
    | Recovered(order: OrderId, brokerId: string)
    | CancelRequested(order: OrderId, revision: int)
    | CancelUnknown(order: OrderId, revision: int)

  datatype Report = Report(id: ReportId, order: OrderId, clientId: nat, brokerId: string, kind: ReportType,
                           cumulative: int64, occurredAt: Instant, receivedAt: Instant)

  datatype ExecutionFill = ExecutionFill(id: nat, order: OrderId, report: ReportId, quantity: int64, currency: string)

  datatype OrderError = InvalidOrder | InvalidTransition | Overfill | NonMonotonicFill | ReportOrderMismatch

  function Target(kind: ReportType): OrderState {
    match kind
    case ReportPlanned => Planned
    case ReportSubmissionPending => SubmissionPending
    case ReportSubmitted => Submitted
    case ReportAcknowledged => Acknowledged
    case ReportPartialFill => PartiallyFilled
    case ReportFill => Filled
    case ReportCancelPending => CancelPending
    case ReportCancelled => Cancelled
    case ReportRejected => Rejected
    case ReportExpired => Expired
    case ReportFailed => Failed
    case ReportUnknown => Unknown
  }

  predicate LegalTransition(from: OrderState, to: OrderState) {
    match from
    case Created => to in {Planned, Expired, Failed}
    case Planned => to in {SubmissionPending, Expired, Cancelled, Failed}
    case SubmissionPending => to in {Submitted, Acknowledged, PartiallyFilled, Filled, Rejected, Unknown}
    case Submitted => to in {Acknowledged, PartiallyFilled, Filled, CancelPending, Rejected, Unknown}
    case Acknowledged => to in {PartiallyFilled, Filled, CancelPending, Rejected, Unknown}
    case PartiallyFilled => to in {PartiallyFilled, Filled, CancelPending, Rejected, Unknown}
    case CancelPending => to in {Cancelled, PartiallyFilled, Filled, Rejected, Unknown}
    case Cancelled => to in {PartiallyFilled, Filled}
    case Unknown => to in {Submitted, Acknowledged, PartiallyFilled, Filled, CancelPending, Cancelled, Rejected}
    case _ => false
  }

  /** Progress rank of a state; Unknown has none. */
  function Rank(state: OrderState): nat {
    match state
    case Created => 1
    case Planned => 2
    case SubmissionPending => 3
    case Submitted => 4
    case Acknowledged => 5
    case PartiallyFilled => 6
    case CancelPending => 7
    case Cancelled => 8
    case Rejected => 8
    case Expired => 8
    case Failed => 8
    case Filled => 9
    case Unknown => 0
  }

  /** A report that arrives after the order has moved past it: accepted, and the
      state stays. */
  predicate StaleTransition(from: OrderState, to: OrderState) {
    to != PartiallyFilled && to != Filled && Rank(to) > 0 && Rank(to) <= Rank(from)
  }

  /** The conditions that every stored order meets. */
  predicate Acceptable(o: Order) {
    && !o.id.Unset() && o.clientId != 0 && o.leg.id != 0 && 0 < o.revision <= MAX_UINT64
    && 0 <= o.filled <= o.leg.quantity && o.createdAt != 0 && o.updatedAt >= o.createdAt
    && (o.state == Filled ==> o.filled == o.leg.quantity)
    && (o.state == PartiallyFilled ==> o.filled != 0 && o.filled != o.leg.quantity)
  }

  function NewOrder(plan: nat, clientId: nat, leg: Leg, createdAt: Instant): Order {
    Order(OrderId(plan, leg.id), clientId, leg, Created, 1, 0, "", createdAt, createdAt)
  }

  /** The state the report asks for, when the order can take it. */
  function NextState(from: OrderState, to: OrderState): Option<OrderState> {
    if LegalTransition(from, to) then Some(to) else if StaleTransition(from, to) then Some(from) else None
  }

  /** The tests that relate a report's cumulative fill to the order and the fill
      that comes with it. */
  function FillError(o: Order, report: Report, fill: Option<ExecutionFill>): Option<OrderError> {
    var to := Target(report.kind);
    if report.cumulative < o.filled then Some(NonMonotonicFill)
    else if report.cumulative > o.leg.quantity then Some(Overfill)
    else if fill.Some? && (fill.value.order != o.id || fill.value.report != report.id ||
                           fill.value.currency != o.leg.currency) then Some(ReportOrderMismatch)
    else if to == PartiallyFilled || to == Filled then
      if fill.None? || fill.value.quantity > MAX - o.filled || o.filled + fill.value.quantity != report.cumulative then
        Some(NonMonotonicFill)
      else if to == PartiallyFilled && report.cumulative == o.leg.quantity then Some(InvalidTransition)
      else if to == Filled && report.cumulative != o.leg.quantity then Some(InvalidTransition)
      else None
    else if fill.Some? || report.cumulative != o.filled then Some(NonMonotonicFill)
    else None
  }

  function ApplyReport(o: Order, report: Report, fill: Option<ExecutionFill>): Result<Order, OrderError> {
    if o.id.Unset() || report.order != o.id || report.clientId != o.clientId then Err(ReportOrderMismatch) else
    match FillError(o, report, fill)
    case Some(e) => Err(e)
    case None =>
      match NextState(o.state, Target(report.kind))
      case None => Err(InvalidTransition)
      case Some(state) =>
        if report.brokerId != "" && o.brokerId != "" && o.brokerId != report.brokerId then Err(ReportOrderMismatch) else
        var next := o.(state := state, revision := (o.revision + 1) % (MAX_UINT64 + 1), filled := report.cumulative,
                       updatedAt := if report.receivedAt > o.updatedAt then report.receivedAt else o.updatedAt,
                       brokerId := if report.brokerId != "" then report.brokerId else o.brokerId);
        if Acceptable(next) then Ok(next) else Err(InvalidOrder)
  }

  /** An accepted report with the fill that came with it. */
  datatype Event = Event(report: Report, fill: Option<ExecutionFill>)

  function FillQuantity(e: Event): int {
    if e.fill.Some? then e.fill.value.quantity else 0
  }

  function FillTotal(events: seq<Event>): int {
    if events == [] then 0 else FillTotal(events[..|events| - 1]) + FillQuantity(events[|events| - 1])
  }

  /** The order after a list of reports that were all accepted. */
  function After(o: Order, events: seq<Event>): Option<Order> {
    if events == [] then Some(o) else
    match After(o, events[..|events| - 1])
    case None => None
    case Some(mid) =>
      match ApplyReport(mid, events[|events| - 1].report, events[|events| - 1].fill)
      case Ok(next) => Some(next)
      case Err(_) => None
  }

  /** States that nothing leaves. */
  predicate Absorbing(state: OrderState) {
    state in {Filled, Rejected, Expired, Failed}
  }

  /** The invariant of a stored order: Acceptable, and complete exactly when
      Filled. Fills carry positive quantities, as their constructor demands. */
  predicate Sound(o: Order) {
    Acceptable(o) && o.leg.id == o.id.leg && o.leg.quantity > 0 && (o.state == Filled <==> o.filled == o.leg.quantity)
  }

  predicate PositiveFill(e: Event) {
    e.fill.Some? ==> e.fill.value.quantity > 0
  }

  /** How far an order is on its way to the broker. */
  function Stage(state: OrderState): nat {
    match state
    case Created => 0
    case Planned => 1
    case SubmissionPending => 2
    case _ => 3
  }

  /** What no accepted report undoes. */
  predicate Onward(o: Order, next: Order) {
    && next.id == o.id && next.leg == o.leg && next.clientId == o.clientId
    && o.filled <= next.filled && o.revision <= next.revision && Stage(o.state) <= Stage(next.state)
    && (Absorbing(o.state) ==> next.state == o.state && next.filled == o.filled)
    && (o.state == Cancelled && next.filled == o.filled ==> next.state == Cancelled)
    && (o.brokerId != "" ==> next.brokerId == o.brokerId)
  }

  /** The trace that an accepted report leaves on the order for good. */
  predicate Marked(o: Order, report: Report) {
    && Stage(Target(report.kind)) <= Stage(o.state) && report.clientId == o.clientId && report.cumulative <= o.filled
    && (report.brokerId != "" ==> o.brokerId == report.brokerId)
  }

  /** The state that bears the name of the report. */
  predicate NamedAlike(kind: ReportType, state: OrderState) {
    || (kind == ReportPlanned && state == Planned)
    || (kind == ReportSubmissionPending && state == SubmissionPending)
    || (kind == ReportSubmitted && state == Submitted)
    || (kind == ReportAcknowledged && state == Acknowledged)
    || (kind == ReportPartialFill && state == PartiallyFilled)
    || (kind == ReportFill && state == Filled)
    || (kind == ReportCancelPending && state == CancelPending)
    || (kind == ReportCancelled && state == Cancelled)
    || (kind == ReportRejected && state == Rejected)
    || (kind == ReportExpired && state == Expired)
    || (kind == ReportFailed && state == Failed)
    || (kind == ReportUnknown && state == Unknown)
  }

  /** The states of an order whose outcome at the broker is open. */
  const Open := {SubmissionPending, Submitted, Acknowledged, PartiallyFilled, CancelPending}
  const Ended := {Cancelled, Rejected, Expired, Failed, Filled}

  /** The states that a report takes an order from. */
  function MovesFrom(kind: ReportType): set<OrderState> {
    match kind
    case ReportPlanned => {Created}
    case ReportSubmissionPending => {Planned}
    case ReportSubmitted => {SubmissionPending, Unknown}
    case ReportAcknowledged => {SubmissionPending, Submitted, Unknown}
    case ReportPartialFill => Open + {Unknown, Cancelled}
    case ReportFill => Open + {Unknown, Cancelled}
    case ReportCancelPending => {Submitted, Acknowledged, PartiallyFilled, Unknown}
    case ReportCancelled => {Planned, CancelPending, Unknown}
    case ReportRejected => Open + {Unknown}
    case ReportExpired => {Created, Planned}
    case ReportFailed => {Created, Planned}
    case ReportUnknown => Open
  }

  /** The states in which a report is accepted and leaves the state as it is. */
  function LeavesIn(kind: ReportType): set<OrderState> {
    match kind
    case ReportPlanned => {Planned} + Open + Ended
    case ReportSubmissionPending => Open + Ended
    case ReportSubmitted => Open - {SubmissionPending} + Ended
    case ReportAcknowledged => {Acknowledged, PartiallyFilled, CancelPending} + Ended
    case ReportPartialFill => {}
    case ReportFill => {}
    case ReportCancelPending => {CancelPending} + Ended
    case ReportCancelled => Ended
    case ReportRejected => Ended
    case ReportExpired => Ended
    case ReportFailed => Ended
    case ReportUnknown => {}
  }

  /** The whole table of states and reports: which pairs are accepted, and where each
      leads. */
  lemma ReportTable(from: OrderState, kind: ReportType)
    ensures NextState(from, Target(kind)).Some? <==> from in MovesFrom(kind) + LeavesIn(kind)
    ensures from in MovesFrom(kind) ==> NamedAlike(kind, NextState(from, Target(kind)).value)
    ensures from in LeavesIn(kind) ==> NextState(from, Target(kind)) == Some(from)
  {
    MovesAreLegal(from, kind);
    LeavesAreStale(from, kind);
    hide LegalTransition, StaleTransition, MovesFrom, LeavesIn;
  }

  lemma MovesAreLegal(from: OrderState, kind: ReportType)
    ensures from in MovesFrom(kind) <==> LegalTransition(from, Target(kind))
  {
  }

  lemma LeavesAreStale(from: OrderState, kind: ReportType)
    ensures from in LeavesIn(kind) <==>
              !LegalTransition(from, Target(kind)) && StaleTransition(from, Target(kind))
  {
  }

  /** What one accepted report can change. */
  lemma ReportStep(o: Order, e: Event)
    requires Sound(o) && PositiveFill(e) && ApplyReport(o, e.report, e.fill).Ok?
    ensures var next := ApplyReport(o, e.report, e.fill).value;
            && Sound(next) && next.id == o.id && next.leg == o.leg && next.clientId == o.clientId
            && next.filled == o.filled + FillQuantity(e) && next.filled >= o.filled && next.revision == o.revision + 1
            && (Absorbing(o.state) ==> next.state == o.state && next.filled == o.filled)
            && (o.state == Cancelled && next.state != Cancelled ==> e.fill.Some?)
            && (next.state == Planned ==> o.state in {Created, Planned})
            && (next.state == Created ==> o.state == Created)
            && (next.state == SubmissionPending ==> o.state in {Planned, SubmissionPending})
            && (o.brokerId != "" ==> next.brokerId == o.brokerId)
            && Onward(o, next) && Marked(next, e.report)
            && (next.state != o.state ==> NamedAlike(e.report.kind, next.state))
            && (if o.state in MovesFrom(e.report.kind) then NamedAlike(e.report.kind, next.state)
                else o.state in LeavesIn(e.report.kind) && next.state == o.state)
            && next.brokerId == (if e.report.brokerId != "" then e.report.brokerId else o.brokerId)
            && next.updatedAt == (if e.report.receivedAt > o.updatedAt then e.report.receivedAt else o.updatedAt)
            && next.createdAt == o.createdAt
  {
    ReportTable(o.state, e.report.kind);
  }

  /** Over every sequence of accepted reports: the filled quantity is the sum of
      the fills that came with them, it is complete exactly when the order is
      Filled, every report adds one revision, and a broker identity once set never
      changes. */
  lemma {:induction false} OrderRun(o: Order, events: seq<Event>)
    requires Sound(o) && (forall e <- events :: PositiveFill(e)) && After(o, events).Some?
    ensures var next := After(o, events).value;
            && Sound(next) && next.id == o.id && next.leg == o.leg
            && next.filled == o.filled + FillTotal(events) && o.filled <= next.filled <= o.leg.quantity
            && (next.state == Filled <==> next.filled == o.leg.quantity)
            && next.revision == o.revision + |events|
            && (Absorbing(o.state) ==> next.state == o.state && next.filled == o.filled)
            && (next.state == Planned ==> o.state in {Created, Planned})
            && (next.state == Created ==> o.state == Created)
            && (o.brokerId != "" ==> next.brokerId == o.brokerId)
  {
    if events != [] {
      var n := |events| - 1;
      OrderRun(o, events[..n]);
      ReportStep(After(o, events[..n]).value, events[n]);
    }
  }

  lemma {:induction false} EventsLeaveMarks(o: Order, events: seq<Event>, k: nat)
    requires Sound(o) && (forall e <- events :: PositiveFill(e)) && After(o, events).Some? && k < |events|
    ensures Marked(After(o, events).value, events[k].report)
  {
    hide ApplyReport, Sound;
    var n := |events| - 1;
    assert events[n] in events && forall e <- events[..n] :: e in events;
    OrderRun(o, events[..n]);
    ReportStep(After(o, events[..n]).value, events[n]);
    if k < n {
      EventsLeaveMarks(o, events[..n], k);
    }
  }

  /** A cancelled order that is found in another state received a fill in
      between. */
  lemma {:induction false} CancelledIsLeftOnlyByFill(o: Order, events: seq<Event>)
    requires Sound(o) && (forall e <- events :: PositiveFill(e)) && After(o, events).Some?
    requires o.state == Cancelled && After(o, events).value.state != Cancelled
    ensures FillTotal(events) > 0 && After(o, events).value.filled > o.filled
  {
    var n := |events| - 1;
    OrderRun(o, events);
    OrderRun(o, events[..n]);
    ReportStep(After(o, events[..n]).value, events[n]);
    if After(o, events[..n]).value.state != Cancelled {
      CancelledIsLeftOnlyByFill(o, events[..n]);
    }
  }

  /** Exactly when a report is accepted by a stored order, for reports that carry
      no fill: the order's own identities, an unchanged cumulative quantity, a
      state it may move to or has passed, and no contradicting broker identity. */
  lemma PlainReportAcceptedExactly(o: Order, report: Report)
    requires Sound(o) && o.revision < MAX_UINT64
    requires report.kind !in {ReportPartialFill, ReportFill}
    ensures ApplyReport(o, report, None).Ok? <==>
              && report.order == o.id && report.clientId == o.clientId && report.cumulative == o.filled
              && o.state in MovesFrom(report.kind) + LeavesIn(report.kind)
              && (report.brokerId == "" || o.brokerId == "" || report.brokerId == o.brokerId)
  {
    hide LegalTransition, StaleTransition, MovesFrom, LeavesIn;
    ReportTable(o.state, report.kind);
  }

  /** The same for reports that carry a fill: the cumulative quantity is the old
      one plus the fill, and the report says Filled exactly when that completes the
      leg. */
  lemma FillReportAcceptedExactly(o: Order, report: Report, fill: ExecutionFill)
    requires Sound(o) && o.revision < MAX_UINT64 && fill.quantity > 0
    requires report.kind in {ReportPartialFill, ReportFill}
    ensures ApplyReport(o, report, Some(fill)).Ok? <==>
              && report.order == o.id == fill.order && report.clientId == o.clientId && fill.report == report.id
              && fill.currency == o.leg.currency && report.cumulative == o.filled + fill.quantity
              && report.cumulative <= o.leg.quantity
              && (report.kind == ReportFill <==> report.cumulative == o.leg.quantity)
              && o.state !in {Created, Planned, Filled, Rejected, Expired, Failed}
              && (report.brokerId == "" || o.brokerId == "" || report.brokerId == o.brokerId)
  {
  }

  /** Which refusal a report meets: it is about another order or another identity of the
      broker; it exceeds the leg; it does not add up with what was filled; the order
      cannot take it in its state. */
  lemma RefusalExactly(o: Order, e: Event)
    requires Sound(o) && o.revision < MAX_UINT64 && PositiveFill(e)
    ensures var r, refused := e.report, ApplyReport(o, e.report, e.fill);
            var own := r.order == o.id && r.clientId == o.clientId;
            var ownFill := e.fill.Some? ==>
                             e.fill.value.order == o.id && e.fill.value.report == r.id &&
                             e.fill.value.currency == o.leg.currency;
            var adds := r.cumulative == o.filled + FillQuantity(e) &&
                        (e.fill.Some? <==> r.kind in {ReportPartialFill, ReportFill});
            && (refused == Err(Overfill) <==> own && r.cumulative > o.leg.quantity)
            && (refused == Err(NonMonotonicFill) <==>
                  own && r.cumulative <= o.leg.quantity && (r.cumulative < o.filled || (ownFill && !adds)))
            && (refused == Err(InvalidTransition) ==>
                  && own && ownFill && adds
                  && (|| o.state !in MovesFrom(r.kind) + LeavesIn(r.kind)
                      || (e.fill.Some? && !(r.kind == ReportFill <==> r.cumulative == o.leg.quantity))))
            && refused != Err(InvalidOrder)
  {
    hide LegalTransition, MovesFrom, LeavesIn;
    ReportTable(o.state, e.report.kind);
  }
}
