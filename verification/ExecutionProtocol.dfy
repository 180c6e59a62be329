/** The order store: an append-only log of accepted reports and the orders that
    they produce. */
module OrderStore {
  import opened Wrappers
  import opened OrderModel

  /** `restored` counts the log entries that this instance of the store did not
      append itself but was given when it was restored. */
  datatype Store = Store(orders: map<OrderId, Order>, log: seq<Event>, restored: nat)

  datatype PublishError = NotFound | IdentityCollision | FillReused | Refused(error: OrderError)

  predicate ReportUsed(log: seq<Event>, id: ReportId) {
    exists i :: 0 <= i < |log| && log[i].report.id == id
  }

  predicate FillUsed(log: seq<Event>, id: nat) {
    exists i :: 0 <= i < |log| && log[i].fill.Some? && log[i].fill.value.id == id
  }

  /** The very same report was restored. The store that appended it would refuse it,
      since the publication differs; a restored store has no publications, and answers
      that all is well. */
  predicate Replays(store: Store, e: Event) {
    e.fill.None? && exists i :: 0 <= i < |store.log| && i < store.restored && store.log[i].report == e.report
  }

  /** The atomic append of one report. Reading the current checkpoint and appending
      over it is one step, because an append over anything else is refused. A report
      identity is used once, for any order; but a restored report that comes again is
      answered with success and changes nothing. */
  function Publish(store: Store, e: Event): Result<Store, PublishError> {
    var id := e.report.order;
    if id !in store.orders then Err(NotFound)
    else
      match ApplyReport(store.orders[id], e.report, e.fill)
      case Err(error) => Err(Refused(error))
      case Ok(next) =>
        if Replays(store, e) then Ok(store)
        else if ReportUsed(store.log, e.report.id) then Err(IdentityCollision)
        else if e.fill.Some? && FillUsed(store.log, e.fill.value.id) then Err(FillReused)
        else Ok(store.(orders := store.orders[id := next], log := store.log + [e]))
  }

  /** A list of reports appended one after the other, all accepted. */
  function PublishAll(store: Store, events: seq<Event>): Option<Store> {
    if events == [] then Some(store) else
    match PublishAll(store, events[..|events| - 1])
    case None => None
    case Some(mid) =>
      match Publish(mid, events[|events| - 1])
      case Ok(next) => Some(next)
      case Err(_) => None
  }

  /** The reports of one order, in the order of acceptance. */
  function EventsOf(log: seq<Event>, id: OrderId): seq<Event> {
    if log == [] then [] else
    var before := EventsOf(log[..|log| - 1], id);
    if log[|log| - 1].report.order == id then before + [log[|log| - 1]] else before
  }

  predicate DistinctReports(log: seq<Event>) {
    forall i, j :: 0 <= i < j < |log| ==> log[i].report.id != log[j].report.id
  }

  predicate DistinctFills(log: seq<Event>) {
    forall i, j :: 0 <= i < j < |log| && log[i].fill.Some? && log[j].fill.Some? ==>
      log[i].fill.value.id != log[j].fill.value.id
  }

  /** Every order is what its logged reports make of the order that was registered,
      and no report or fill is logged twice. */
  predicate Explained(registered: map<OrderId, Order>, store: Store) {
    && store.orders.Keys == registered.Keys
    && (forall id <- store.orders :: After(registered[id], EventsOf(store.log, id)) == Some(store.orders[id]))
    && DistinctReports(store.log) && DistinctFills(store.log)
    && (forall i :: 0 <= i < |store.log| ==> PositiveFill(store.log[i]))
  }

  predicate Registered(registered: map<OrderId, Order>) {
    forall id <- registered :: registered[id].id == id && Sound(registered[id]) && registered[id].state == Created
  }

  lemma {:induction false} EventsArePositive(log: seq<Event>, id: OrderId)
    requires forall i :: 0 <= i < |log| ==> PositiveFill(log[i])
    ensures forall e <- EventsOf(log, id) :: PositiveFill(e)
  {
    if log != [] {
      EventsArePositive(log[..|log| - 1], id);
    }
  }

  /** In an explained store every order is sound and keeps its identity and leg. */
  lemma OrdersAreSound(registered: map<OrderId, Order>, store: Store, id: OrderId)
    requires Registered(registered) && Explained(registered, store) && id in store.orders
    ensures Sound(store.orders[id]) && store.orders[id].id == id && store.orders[id].leg == registered[id].leg
  {
    EventsArePositive(store.log, id);
    OrderRun(registered[id], EventsOf(store.log, id));
  }

  lemma AppendKeepsDistinct(log: seq<Event>, e: Event)
    requires DistinctReports(log) && DistinctFills(log) && !ReportUsed(log, e.report.id)
    requires e.fill.Some? ==> !FillUsed(log, e.fill.value.id)
    ensures DistinctReports(log + [e]) && DistinctFills(log + [e])
  {
  }

  lemma AppendEvent(o: Order, log: seq<Event>, e: Event, id: OrderId, before: Order)
    requires After(o, EventsOf(log, id)) == Some(before)
    ensures id != e.report.order ==> EventsOf(log + [e], id) == EventsOf(log, id)
    ensures id == e.report.order && ApplyReport(before, e.report, e.fill).Ok? ==>
              After(o, EventsOf(log + [e], id)) == Some(ApplyReport(before, e.report, e.fill).value)
  {
    hide ApplyReport;
    assert (log + [e])[..|log|] == log;
    var events := EventsOf(log, id);
    assert (events + [e])[..|events|] == events;
  }

  lemma PublishKeepsExplained(registered: map<OrderId, Order>, store: Store, e: Event)
    requires Explained(registered, store) && PositiveFill(e) && Publish(store, e).Ok?
    ensures Explained(registered, Publish(store, e).value)
  {
    hide ApplyReport, After, EventsOf, DistinctReports, DistinctFills, ReportUsed, FillUsed, Replays;
    var next := Publish(store, e).value;
    if !Replays(store, e) {
      AppendKeepsDistinct(store.log, e);
      forall id | id in next.orders
        ensures After(registered[id], EventsOf(next.log, id)) == Some(next.orders[id])
      {
        AppendEvent(registered[id], store.log, e, id, store.orders[id]);
      }
    }
  }

  lemma RestoredIsExplained(registered: map<OrderId, Order>, store: Store)
    requires Explained(registered, store)
    ensures Explained(registered, store.(restored := |store.log|))
  {
  }

  /** How a report changes one order, and that it changes no other. */
  lemma PublishStep(registered: map<OrderId, Order>, store: Store, e: Event, id: OrderId)
    requires Registered(registered) && Explained(registered, store) && PositiveFill(e) && Publish(store, e).Ok?
    requires id in store.orders
    ensures id in Publish(store, e).value.orders && Onward(store.orders[id], Publish(store, e).value.orders[id])
    ensures id != e.report.order ==> Publish(store, e).value.orders[id] == store.orders[id]
  {
    OrdersAreSound(registered, store, id);
    if id == e.report.order {
      hide ApplyReport;
      ReportStep(store.orders[id], e);
    }
  }

  lemma {:induction false} LoggedIsEvent(log: seq<Event>, i: nat)
    requires i < |log|
    ensures log[i] in EventsOf(log, log[i].report.order)
  {
    var n := |log| - 1;
    if i < n {
      LoggedIsEvent(log[..n], i);
    }
  }

  /** A logged report has left its mark on the order. */
  lemma LoggedMark(registered: map<OrderId, Order>, store: Store, i: nat)
    requires Registered(registered) && Explained(registered, store) && i < |store.log|
    requires store.log[i].report.order in store.orders
    ensures Marked(store.orders[store.log[i].report.order], store.log[i].report)
  {
    hide ApplyReport;
    var id := store.log[i].report.order;
    LoggedIsEvent(store.log, i);
    EventsArePositive(store.log, id);
    var events := EventsOf(store.log, id);
    var k :| 0 <= k < |events| && events[k] == store.log[i];
    EventsLeaveMarks(registered[id], events, k);
  }

  /** A report that would take the order on a stage is new: had it been logged, the
      order would be there. */
  lemma NextStageIsNew(registered: map<OrderId, Order>, store: Store, e: Event)
    requires Registered(registered) && Explained(registered, store) && e.report.order in store.orders
    requires Stage(store.orders[e.report.order].state) < Stage(Target(e.report.kind))
    ensures !Replays(store, e)
  {
    hide Explained, Registered;
    if Replays(store, e) {
      var i :| 0 <= i < |store.log| && i < store.restored && store.log[i].report == e.report;
      LoggedMark(registered, store, i);
    }
  }
}

/** The order coordinator against an unreliable broker, as a step machine. A task
    is any call in progress: executing a plan, publishing a broker event, cancelling.
    The machine lets a task do more than the source would, never less: whoever holds
    an order's reservation may publish any report about it, in any order, or fail. */
module ExecutionProtocol {
  import opened Wrappers
  import opened AccountingModel
  import opened OrderModel
  import opened OrderStore
  import Int64
  import OrderPlan

  type TaskId = nat

  /** What a task is doing. Checked: it holds the reservation and has read the order
      as PLANNED. Sending: it has published SUBMISSION_PENDING and may call the
      broker, once or in retries. */
  datatype Job =
    | Idle
    | Wanting(order: OrderId)
    | Holding(order: OrderId)
    | Checked(order: OrderId, attempt: Attempt)
    | Sending(order: OrderId, attempt: Attempt)

  /** `seen` is a task's own copy of order states; it may be out of date. */
  datatype Task = Task(seen: map<OrderId, OrderState>, job: Job) {
    predicate Holds() {
      job.Holding? || job.Checked? || job.Sending?
    }
  }

  datatype Submission = Submission(order: OrderId, attempt: Attempt)

  datatype State = State(store: Store, reserved: set<OrderId>, closed: bool, tasks: map<TaskId, Task>,
                         submissions: seq<Submission>)

  datatype Step =
    | Enter(id: TaskId)
    | ReadOrders(id: TaskId, plan: nat)
    | Refresh(id: TaskId, order: OrderId)
    | Want(id: TaskId, order: OrderId)
    | Reserve(id: TaskId)
    | PublishReport(id: TaskId, event: Event)
    | CheckPlanned(id: TaskId, at: Instant)
    | PublishPending(id: TaskId, event: Event)
    | Send(id: TaskId)
    | StopSending(id: TaskId)
    | Release(id: TaskId)
    | AbandonReservation(id: TaskId)
    | Leave(id: TaskId)
    | Shutdown
    | Restart
    | Restore

  function Init(registered: map<OrderId, Order>): State {
    State(Store(registered, [], 0), {}, false, map[], [])
  }

  function WithJob(s: State, id: TaskId, job: Job): State
    requires id in s.tasks
  {
    s.(tasks := s.tasks[id := s.tasks[id].(job := job)])
  }

  function StatesOf(store: Store, plan: nat): map<OrderId, OrderState> {
    map o | o in store.orders && o.plan == plan :: store.orders[o].state
  }

  /** The coordinator's gate on a leg, evaluated on a task's own copy. */
  predicate DependenciesFilled(o: Order, seen: map<OrderId, OrderState>) {
    forall b <- o.leg.dependsOn :: OrderId(o.id.plan, b) in seen && seen[OrderId(o.id.plan, b)] == Filled
  }

  /** The SUBMISSION_PENDING report of an attempt. */
  predicate PendingReport(e: Event, o: Order, attempt: Attempt) {
    && e.report.id == AttemptPending(attempt) && e.report.order == o.id && e.report.kind == ReportSubmissionPending
    && e.fill.None?
  }

  function Do(s: State, step: Step): Option<State> {
    if step.Shutdown? then Some(s.(closed := true))
    else if step.Restart? then Some(State(s.store, {}, false, map[], s.submissions))
    else if step.Restore? then
      Some(State(s.store.(restored := |s.store.log|), {}, false, map[], s.submissions))
    else if step.Enter? then
      if step.id in s.tasks then None else Some(s.(tasks := s.tasks[step.id := Task(map[], Idle)]))
    else if step.id !in s.tasks then None
    else
      var task := s.tasks[step.id];
      match step
      case ReadOrders(id, plan) =>
        if task.job.Idle? then Some(s.(tasks := s.tasks[id := Task(StatesOf(s.store, plan), Idle)])) else None
      case Refresh(id, order) =>
        if order in s.store.orders then
          Some(s.(tasks := s.tasks[id := task.(seen := task.seen[order := s.store.orders[order].state])]))
        else None
      case Want(id, order) => if task.job.Idle? then Some(WithJob(s, id, Wanting(order))) else None
      case Reserve(id) =>
        if !task.job.Wanting? then None
        else if s.closed || task.job.order in s.reserved then Some(WithJob(s, id, Idle))
        else Some(WithJob(s, id, Holding(task.job.order)).(reserved := s.reserved + {task.job.order}))
      case PublishReport(id, e) =>
        if !task.job.Holding? || e.report.order != task.job.order || !PositiveFill(e) then None else
        (match Publish(s.store, e)
         case Ok(store) => Some(s.(store := store))
         case Err(_) => Some(s))
      case CheckPlanned(id, at) =>
        if !task.job.Holding? || task.job.order !in s.store.orders then None else
        var o := s.store.orders[task.job.order];
        if o.state == Planned && DependenciesFilled(o, task.seen) then
          Some(WithJob(s, id, Checked(task.job.order, Attempt(task.job.order, o.revision, at))))
        else None
      case PublishPending(id, e) =>
        if !task.job.Checked? || task.job.order !in s.store.orders then None
        else if !PendingReport(e, s.store.orders[task.job.order], task.job.attempt) then None else
        (match Publish(s.store, e)
         case Ok(store) => Some(WithJob(s, id, Sending(task.job.order, task.job.attempt)).(store := store))
         case Err(_) => Some(WithJob(s, id, Holding(task.job.order))))
      case Send(id) =>
        if task.job.Sending? then
          Some(s.(submissions := s.submissions + [Submission(task.job.order, task.job.attempt)]))
        else None
      case StopSending(id) => if task.job.Sending? then Some(WithJob(s, id, Holding(task.job.order))) else None
      case Release(id) =>
        if task.Holds() then
          Some(WithJob(s, id, Idle).(reserved := s.reserved - {task.job.order}))
        else None
      case AbandonReservation(id) => if task.job.Holding? then Some(WithJob(s, id, Idle)) else None
      case Leave(id) => if task.job.Idle? then Some(s.(tasks := s.tasks - {id})) else None
  }

  function Run(s: State, steps: seq<Step>): Option<State> {
    if steps == [] then Some(s) else
    match Run(s, steps[..|steps| - 1])
    case None => None
    case Some(mid) => Do(mid, steps[|steps| - 1])
  }

  /** The order's SUBMISSION_PENDING report for this attempt is in the log. */
  predicate PendingLogged(log: seq<Event>, attempt: Attempt) {
    exists i :: 0 <= i < |log| && log[i].report.id == AttemptPending(attempt) &&
                log[i].report.kind == ReportSubmissionPending && log[i].report.order == attempt.order
  }

  /** Reservations exclude: a holder's order is reserved and has one holder. */
  predicate Exclusive(s: State) {
    && (forall t <- s.tasks :: s.tasks[t].Holds() ==> s.tasks[t].job.order in s.reserved)
    && (forall t, u {:trigger s.tasks[t], s.tasks[u]} :: t in s.tasks && u in s.tasks && t != u ==>
          s.tasks[t].Holds() && s.tasks[u].Holds() ==> s.tasks[t].job.order != s.tasks[u].job.order)
  }

  /** What a task has seen as FILLED is FILLED. */
  predicate SeenFilledIsFilled(s: State) {
    forall t, o :: t in s.tasks && o in s.tasks[t].seen && s.tasks[t].seen[o] == Filled ==>
      o in s.store.orders && s.store.orders[o].state == Filled
  }

  predicate PastPlanned(store: Store, id: OrderId) {
    id in store.orders && store.orders[id].state !in {Created, Planned}
  }

  /** Everything the leg waits for is FILLED in the store. */
  predicate Released(store: Store, id: OrderId) {
    && id in store.orders
    && forall b <- store.orders[id].leg.dependsOn ::
         OrderId(id.plan, b) in store.orders && store.orders[OrderId(id.plan, b)].state == Filled
  }

  /** The submission invariant of tasks. */
  predicate Submitting(s: State) {
    forall t <- s.tasks :: CheckedOk(s, s.tasks[t]) && SendingOk(s, s.tasks[t])
  }

  /** Every submission made so far was of an order past PLANNED, announced in the
      log, with everything it waits for FILLED; all submissions of an order carry
      one attempt, the attempt of any task still sending it included. */
  predicate SubmittedOnce(s: State) {
    Announced(s) && Agreeing(s)
  }

  predicate Announced(s: State) {
    forall i :: 0 <= i < |s.submissions| ==> AnnouncedOne(s.store, s.submissions[i])
  }

  predicate AnnouncedOne(store: Store, sub: Submission) {
    && PastPlanned(store, sub.order) && Released(store, sub.order) && sub.attempt.order == sub.order
    && PendingLogged(store.log, sub.attempt)
  }

  predicate Agreeing(s: State) {
    && (forall i, j :: 0 <= i < |s.submissions| && 0 <= j < |s.submissions| &&
                       s.submissions[i].order == s.submissions[j].order ==>
          s.submissions[i].attempt == s.submissions[j].attempt)
    && (forall i, t :: 0 <= i < |s.submissions| && t in s.tasks && s.tasks[t].job.Sending? &&
                       s.tasks[t].job.order == s.submissions[i].order ==>
          s.tasks[t].job.attempt == s.submissions[i].attempt)
  }

  predicate Inv(registered: map<OrderId, Order>, s: State) {
    Explained(registered, s.store) && Exclusive(s) && SeenFilledIsFilled(s) && Submitting(s) && SubmittedOnce(s)
  }

  /** What stays true of the store across any step. */
  predicate Forward(before: Store, after: Store) {
    && before.orders.Keys == after.orders.Keys && before.log <= after.log
    && forall id <- before.orders :: Onward(before.orders[id], after.orders[id])
  }

  lemma ForwardIsTransitive(a: Store, b: Store, c: Store)
    requires Forward(a, b) && Forward(b, c)
    ensures Forward(a, c)
  {
  }

  lemma PublishIsForward(registered: map<OrderId, Order>, store: Store, e: Event)
    requires Registered(registered) && Explained(registered, store) && PositiveFill(e) && Publish(store, e).Ok?
    ensures Forward(store, Publish(store, e).value)
    ensures forall id <- store.orders :: id != e.report.order ==> Publish(store, e).value.orders[id] == store.orders[id]
  {
    hide Explained, ApplyReport, ReportUsed, FillUsed, Onward, Replays;
    forall id | id in store.orders
      ensures Onward(store.orders[id], Publish(store, e).value.orders[id])
      ensures id != e.report.order ==> Publish(store, e).value.orders[id] == store.orders[id]
    {
      PublishStep(registered, store, e, id);
    }
  }

  /** Facts that a forward move of the store preserves. */
  lemma ForwardKeeps(before: Store, after: Store, id: OrderId, attempt: Attempt)
    requires Forward(before, after)
    ensures PastPlanned(before, id) ==> PastPlanned(after, id)
    ensures Released(before, id) ==> Released(after, id)
    ensures PendingLogged(before.log, attempt) ==> PendingLogged(after.log, attempt)
  {
    if PendingLogged(before.log, attempt) {
      var i :| 0 <= i < |before.log| && before.log[i].report.id == AttemptPending(attempt) &&
               before.log[i].report.kind == ReportSubmissionPending && before.log[i].report.order == attempt.order;
      assert after.log[i] == before.log[i];
    }
  }

  lemma StepIsForward(registered: map<OrderId, Order>, s: State, step: Step)
    requires Registered(registered) && Explained(registered, s.store) && Do(s, step).Some?
    ensures Explained(registered, Do(s, step).value.store) && Forward(s.store, Do(s, step).value.store)
  {
    hide Explained, Publish, DependenciesFilled, StatesOf;
    if step.PublishReport? && Publish(s.store, step.event).Ok? {
      PublishKeepsExplained(registered, s.store, step.event);
      PublishIsForward(registered, s.store, step.event);
    } else if step.PublishPending? && Publish(s.store, step.event).Ok? {
      PublishKeepsExplained(registered, s.store, step.event);
      PublishIsForward(registered, s.store, step.event);
    } else if step.Restore? {
      RestoredIsExplained(registered, s.store);
    }
  }

  lemma StepKeepsExclusive(s: State, step: Step)
    requires Exclusive(s) && Do(s, step).Some?
    ensures Exclusive(Do(s, step).value)
  {
    hide Publish, DependenciesFilled, StatesOf, PendingReport;
  }

  lemma StepKeepsSeen(s: State, step: Step)
    requires SeenFilledIsFilled(s) && Do(s, step).Some? && Forward(s.store, Do(s, step).value.store)
    ensures SeenFilledIsFilled(Do(s, step).value)
  {
    hide Publish, DependenciesFilled, PendingReport;
  }

  /** Orders are changed only by whichever task holds them. */
  lemma OnlyTheHolderChanges(registered: map<OrderId, Order>, s: State, step: Step, t: TaskId)
    requires Registered(registered) && Explained(registered, s.store) && Exclusive(s) && Do(s, step).Some?
    requires t in s.tasks && s.tasks[t].Holds() && s.tasks[t].job.order in s.store.orders
    requires step.PublishReport? || step.PublishPending? ==> step.id != t
    ensures Do(s, step).value.store.orders.Keys == s.store.orders.Keys
    ensures Do(s, step).value.store.orders[s.tasks[t].job.order] == s.store.orders[s.tasks[t].job.order]
  {
    hide Explained, Publish, DependenciesFilled, StatesOf;
    OrdersAreSound'(registered, s.store);
    if (step.PublishReport? || step.PublishPending?) && Publish(s.store, step.event).Ok? {
      PublishIsForward(registered, s.store, step.event);
      assert s.tasks[step.id].Holds();
    }
  }

  lemma OrdersAreSound'(registered: map<OrderId, Order>, store: Store)
    requires Registered(registered) && Explained(registered, store)
    ensures forall id <- store.orders :: store.orders[id].id == id
  {
    forall id | id in store.orders ensures store.orders[id].id == id {
      OrdersAreSound(registered, store, id);
    }
  }

  predicate CheckedOk(s: State, task: Task) {
    task.job.Checked? ==>
      && task.job.order in s.store.orders && s.store.orders[task.job.order].state == Planned
      && task.job.attempt.order == task.job.order && Released(s.store, task.job.order)
  }

  predicate SendingOk(s: State, task: Task) {
    task.job.Sending? ==>
      && PastPlanned(s.store, task.job.order) && Released(s.store, task.job.order)
      && task.job.attempt.order == task.job.order && PendingLogged(s.store.log, task.job.attempt)
  }

  /** A task that starts to check or to send is entitled to it. */
  lemma StepEntitles(registered: map<OrderId, Order>, s: State, step: Step)
    requires Registered(registered) && Inv(registered, s) && Do(s, step).Some?
    requires step.CheckPlanned? || step.PublishPending?
    ensures var s' := Do(s, step).value;
            step.id in s'.tasks && CheckedOk(s', s'.tasks[step.id]) && SendingOk(s', s'.tasks[step.id])
  {
    hide Explained, Publish, StatesOf, SubmittedOnce, Exclusive;
    var s' := Do(s, step).value;
    OrdersAreSound'(registered, s.store);
    StepIsForward(registered, s, step);
    var task := s.tasks[step.id];
    if step.PublishPending? && s'.tasks[step.id].job.Sending? {
      ForwardKeeps(s.store, s'.store, task.job.order, task.job.attempt);
      PendingLeavesPlanned(registered, s.store, step.event, task.job.attempt);
    }
  }

  lemma PendingLeavesPlanned(registered: map<OrderId, Order>, store: Store, e: Event, attempt: Attempt)
    requires Registered(registered) && Explained(registered, store) && Publish(store, e).Ok?
    requires attempt.order in store.orders && store.orders[attempt.order].state == Planned
    requires PendingReport(e, store.orders[attempt.order], attempt) && e.report.order == attempt.order
    ensures PastPlanned(Publish(store, e).value, attempt.order) && PendingLogged(Publish(store, e).value.log, attempt)
  {
    hide Explained, ReportUsed, FillUsed, Replays;
    NextStageIsNew(registered, store, e);
    assert store.log + [e] == Publish(store, e).value.log;
    assert (store.log + [e])[|store.log|] == e;
  }

  lemma StepKeepsSubmitting(registered: map<OrderId, Order>, s: State, step: Step)
    requires Registered(registered) && Inv(registered, s) && Do(s, step).Some?
    ensures Submitting(Do(s, step).value)
  {
    hide Explained, Publish, StatesOf, SubmittedOnce, DependenciesFilled, PendingReport, Exclusive;
    hide SeenFilledIsFilled;
    hide Released, PendingLogged, Forward;
    var s' := Do(s, step).value;
    StepIsForward(registered, s, step);
    if step.CheckPlanned? || step.PublishPending? {
      StepEntitles(registered, s, step);
    }
    forall t | t in s'.tasks ensures CheckedOk(s', s'.tasks[t]) && SendingOk(s', s'.tasks[t]) {
      if t in s.tasks && s'.tasks[t].job == s.tasks[t].job && (s.tasks[t].job.Checked? || s.tasks[t].job.Sending?) {
        assert CheckedOk(s, s.tasks[t]) && SendingOk(s, s.tasks[t]);
        ForwardKeeps(s.store, s'.store, s.tasks[t].job.order, s.tasks[t].job.attempt);
        OnlyTheHolderChanges(registered, s, step, t);
      }
    }
  }

  lemma StepKeepsAnnounced(s: State, step: Step)
    requires Submitting(s) && Announced(s) && Do(s, step).Some? && Forward(s.store, Do(s, step).value.store)
    ensures Announced(Do(s, step).value)
  {
    hide Publish, StatesOf, DependenciesFilled, PendingReport, Released, PendingLogged, PastPlanned, Forward;
    var s' := Do(s, step).value;
    forall i | 0 <= i < |s'.submissions| ensures AnnouncedOne(s'.store, s'.submissions[i]) {
      if i < |s.submissions| {
        ForwardKeeps(s.store, s'.store, s.submissions[i].order, s.submissions[i].attempt);
      } else {
        assert SendingOk(s, s.tasks[step.id]);
      }
    }
  }

  lemma StepKeepsAgreeing(s: State, step: Step)
    requires Exclusive(s) && Submitting(s) && Announced(s) && Agreeing(s) && Do(s, step).Some?
    ensures Agreeing(Do(s, step).value)
  {
    hide Publish, StatesOf, DependenciesFilled, PendingReport, Released, PendingLogged;
    if step.Send? {
      assert SendingOk(s, s.tasks[step.id]) && s.tasks[step.id].Holds();
    } else if step.PublishPending? {
      assert CheckedOk(s, s.tasks[step.id]);
    }
  }

  lemma StepKeepsSubmittedOnce(s: State, step: Step)
    requires Exclusive(s) && Submitting(s) && SubmittedOnce(s) && Do(s, step).Some?
    requires Forward(s.store, Do(s, step).value.store)
    ensures SubmittedOnce(Do(s, step).value)
  {
    hide Do, Exclusive, Submitting, Announced, Agreeing, Forward;
    StepKeepsAnnounced(s, step);
    StepKeepsAgreeing(s, step);
  }

  lemma StepKeepsInv(registered: map<OrderId, Order>, s: State, step: Step)
    requires Registered(registered) && Inv(registered, s) && Do(s, step).Some?
    ensures Inv(registered, Do(s, step).value)
  {
    hide Do, Explained, Exclusive, SeenFilledIsFilled, Submitting, SubmittedOnce, Forward;
    StepIsForward(registered, s, step);
    StepKeepsExclusive(s, step);
    StepKeepsSeen(s, step);
    StepKeepsSubmitting(registered, s, step);
    StepKeepsSubmittedOnce(s, step);
  }

  lemma {:induction false} RunKeepsInv(registered: map<OrderId, Order>, steps: seq<Step>)
    requires Registered(registered) && Run(Init(registered), steps).Some?
    ensures Inv(registered, Run(Init(registered), steps).value)
  {
    hide Do;
    if steps != [] {
      RunKeepsInv(registered, steps[..|steps| - 1]);
      StepKeepsInv(registered, Run(Init(registered), steps[..|steps| - 1]).value, steps[|steps| - 1]);
    }
  }

  /** In every run, with any interleaving of tasks, any broker replies, failures,
      abandoned reservations and restarts: all broker submissions of an order carry
      the same attempt, and each was announced by a SUBMISSION_PENDING report of
      that attempt in the log. */
  lemma OneAttemptPerOrder(registered: map<OrderId, Order>, steps: seq<Step>, i: nat, j: nat)
    requires Registered(registered) && Run(Init(registered), steps).Some?
    requires var s := Run(Init(registered), steps).value;
             i < |s.submissions| && j < |s.submissions| && s.submissions[i].order == s.submissions[j].order
    ensures var s := Run(Init(registered), steps).value;
            s.submissions[i].attempt == s.submissions[j].attempt && PendingLogged(s.store.log, s.submissions[i].attempt)
  {
    RunKeepsInv(registered, steps);
  }

  /** A restarted order is only looked up. Once an order is past PLANNED in some
      state of a run and no task is sending it, as after a restart, no continuation
      submits it again. */
  lemma {:induction false} PendingIsNeverResubmitted(registered: map<OrderId, Order>, s: State, steps: seq<Step>,
                                                     id: OrderId)
    requires Registered(registered) && Inv(registered, s) && Run(s, steps).Some?
    requires PastPlanned(s.store, id)
    requires forall t <- s.tasks :: s.tasks[t].job.Sending? ==> s.tasks[t].job.order != id
    ensures Inv(registered, Run(s, steps).value) && PastPlanned(Run(s, steps).value.store, id)
    ensures forall t <- Run(s, steps).value.tasks :: Run(s, steps).value.tasks[t].job.Sending? ==>
              Run(s, steps).value.tasks[t].job.order != id
    ensures SubmissionsOf(Run(s, steps).value, id) == SubmissionsOf(s, id)
  {
    if steps != [] {
      var n := |steps| - 1;
      PendingIsNeverResubmitted(registered, s, steps[..n], id);
      NoNewSubmission(registered, Run(s, steps[..n]).value, steps[n], id);
    }
  }

  function SubmissionsOf(s: State, id: OrderId): multiset<Submission> {
    CountOf(s.submissions, id)
  }

  function CountOf(submissions: seq<Submission>, id: OrderId): multiset<Submission> {
    if submissions == [] then multiset{} else
    var last := submissions[|submissions| - 1];
    CountOf(submissions[..|submissions| - 1], id) + if last.order == id then multiset{last} else multiset{}
  }

  lemma NoNewSubmission(registered: map<OrderId, Order>, s: State, step: Step, id: OrderId)
    requires Registered(registered) && Inv(registered, s) && Do(s, step).Some? && PastPlanned(s.store, id)
    requires forall t <- s.tasks :: s.tasks[t].job.Sending? ==> s.tasks[t].job.order != id
    ensures Inv(registered, Do(s, step).value) && PastPlanned(Do(s, step).value.store, id)
    ensures forall t <- Do(s, step).value.tasks :: Do(s, step).value.tasks[t].job.Sending? ==>
              Do(s, step).value.tasks[t].job.order != id
    ensures SubmissionsOf(Do(s, step).value, id) == SubmissionsOf(s, id)
  {
    hide Do, Explained, Released, PendingLogged, Exclusive, SeenFilledIsFilled, Submitting, SubmittedOnce;
    StepKeepsInv(registered, s, step);
    StepIsForward(registered, s, step);
    NoNewSending(s, step, id);
  }

  lemma NoNewSending(s: State, step: Step, id: OrderId)
    requires Submitting(s) && Do(s, step).Some? && PastPlanned(s.store, id)
    requires forall t <- s.tasks :: s.tasks[t].job.Sending? ==> s.tasks[t].job.order != id
    ensures forall t <- Do(s, step).value.tasks :: Do(s, step).value.tasks[t].job.Sending? ==>
              Do(s, step).value.tasks[t].job.order != id
    ensures SubmissionsOf(Do(s, step).value, id) == SubmissionsOf(s, id)
  {
    hide Publish, StatesOf, DependenciesFilled, PendingReport, Released, PendingLogged;
    if step.Send? {
      assert Do(s, step).value.submissions[..|s.submissions|] == s.submissions;
    } else if step.PublishPending? {
      assert CheckedOk(s, s.tasks[step.id]);
    }
  }

  /** The plan that the registered orders came from. */
  predicate FromPlan(registered: map<OrderId, Order>, plan: nat, legs: seq<Leg>) {
    forall i :: 0 <= i < |legs| ==> OrderId(plan, legs[i].id) in registered &&
                                    registered[OrderId(plan, legs[i].id)].leg == legs[i]
  }

  /** Protection before exposure. In every run, when the broker has been asked to
      submit a sale that adds exposure, every protective purchase of the plan is
      FILLED and at least one exists; although the gate reads a task's own copy of
      the orders, which may be out of date. */
  lemma ProtectionPrecedesExposure(registered: map<OrderId, Order>, steps: seq<Step>, intent: OrderPlan.Intent,
                                   plan: nat, legs: seq<Leg>, i: nat, k: nat)
    requires Registered(registered) && Run(Init(registered), steps).Some?
    requires OrderPlan.SafeLegs(intent, legs) && FromPlan(registered, plan, legs)
    requires i < |Run(Init(registered), steps).value.submissions| && k < |legs| && OrderPlan.AddsExposure(legs[k])
    requires Run(Init(registered), steps).value.submissions[i].order == OrderId(plan, legs[k].id)
    ensures exists j :: 0 <= j < |legs| && legs[j].protective && legs[j].side.Buy?
    ensures forall j :: 0 <= j < |legs| && legs[j].protective ==>
              var orders := Run(Init(registered), steps).value.store.orders;
              OrderId(plan, legs[j].id) in orders && orders[OrderId(plan, legs[j].id)].state == Filled
  {
    hide Run, Exclusive, SeenFilledIsFilled, Submitting;
    RunKeepsInv(registered, steps);
    var s := Run(Init(registered), steps).value;
    OrdersAreSound(registered, s.store, OrderId(plan, legs[k].id));
    assert OrderPlan.Guarded(legs);
    assert Released(s.store, OrderId(plan, legs[k].id));
  }

  /** FILLED is for ever: whatever a run does next, it stays. */
  lemma {:induction false} FilledStaysFilled(registered: map<OrderId, Order>, s: State, steps: seq<Step>, id: OrderId)
    requires Registered(registered) && Inv(registered, s) && Run(s, steps).Some?
    requires id in s.store.orders && s.store.orders[id].state == Filled
    ensures Inv(registered, Run(s, steps).value)
    ensures id in Run(s, steps).value.store.orders && Run(s, steps).value.store.orders[id].state == Filled
  {
    hide Do;
    if steps != [] {
      var n := |steps| - 1;
      FilledStaysFilled(registered, s, steps[..n], id);
      StepKeepsInv(registered, Run(s, steps[..n]).value, steps[n]);
      StepIsForward(registered, Run(s, steps[..n]).value, steps[n]);
    }
  }

  /** Broker events are counted once. In every run, however event batches are
      redelivered, partly failed and drained again with other receive times: no
      event identity is logged twice, no fill identity is logged twice, an order's
      revision is one plus the number of its logged reports, and its filled
      quantity is the sum of their fills. */
  lemma EventsCountOnce(registered: map<OrderId, Order>, steps: seq<Step>, id: OrderId)
    requires Registered(registered) && Run(Init(registered), steps).Some? && id in registered
    ensures var store := Run(Init(registered), steps).value.store;
            && DistinctReports(store.log) && DistinctFills(store.log) && id in store.orders
            && store.orders[id].revision == registered[id].revision + |EventsOf(store.log, id)|
            && store.orders[id].filled == registered[id].filled + FillTotal(EventsOf(store.log, id))
            && store.orders[id].filled <= store.orders[id].leg.quantity
  {
    hide Run, Exclusive, SeenFilledIsFilled, Submitting, SubmittedOnce;
    RunKeepsInv(registered, steps);
    var store := Run(Init(registered), steps).value.store;
    EventsArePositive(store.log, id);
    OrderRun(registered[id], EventsOf(store.log, id));
  }

  /** The transition table alone does not exclude a second submission: an order that
      is already SUBMISSION_PENDING accepts another such report and merely gains a
      revision. Exclusion comes from the reservation. */
  lemma SecondPendingIsAccepted(o: Order, report: Report)
    requires Sound(o) && o.state == SubmissionPending && o.revision < Int64.MAX_UINT64
    requires report.order == o.id && report.clientId == o.clientId && report.cumulative == o.filled
    requires report.brokerId == o.brokerId && report.kind == ReportSubmissionPending
    ensures ApplyReport(o, report, None).Ok?
    ensures var next := ApplyReport(o, report, None).value;
            next.state == SubmissionPending && next.revision == o.revision + 1 && next.filled == o.filled
  {
    PlainReportAcceptedExactly(o, report);
  }

  /** The order is reserved and no task holds it: its reservation was leaked. */
  predicate Abandoned(s: State, id: OrderId) {
    id in s.reserved && forall t <- s.tasks :: s.tasks[t].Holds() ==> s.tasks[t].job.order != id
  }

  lemma AbandonedStep(s: State, step: Step, id: OrderId)
    requires Abandoned(s, id) && !step.Restart? && !step.Restore? && Do(s, step).Some?
    requires forall o <- s.store.orders :: s.store.orders[o].id == o
    ensures Abandoned(Do(s, step).value, id) && SubmissionsOf(Do(s, step).value, id) == SubmissionsOf(s, id)
    ensures id in s.store.orders ==>
              id in Do(s, step).value.store.orders && Do(s, step).value.store.orders[id] == s.store.orders[id]
  {
    hide Publish, StatesOf, DependenciesFilled;
    if step.Send? {
      assert Do(s, step).value.submissions[..|s.submissions|] == s.submissions;
    } else if step.PublishReport? || step.PublishPending? {
      PublishLeavesOthers(s.store, step.event);
    }
  }

  lemma PublishLeavesOthers(store: Store, e: Event)
    ensures Publish(store, e).Ok? ==>
              forall o <- store.orders :: o != e.report.order ==>
                o in Publish(store, e).value.orders && Publish(store, e).value.orders[o] == store.orders[o]
  {
    hide ApplyReport, ReportUsed, FillUsed, Replays;
  }

  /** A leaked reservation is for ever: in every continuation without a restart the
      order stays reserved and unheld, is never changed, by the broker's events
      neither, and never submitted. */
  lemma {:induction false} AbandonedForEver(registered: map<OrderId, Order>, s: State, steps: seq<Step>, id: OrderId)
    requires Registered(registered) && Inv(registered, s) && Abandoned(s, id) && Run(s, steps).Some?
    requires forall step <- steps :: !step.Restart? && !step.Restore?
    ensures Inv(registered, Run(s, steps).value) && Abandoned(Run(s, steps).value, id)
    ensures SubmissionsOf(Run(s, steps).value, id) == SubmissionsOf(s, id)
    ensures id in s.store.orders ==>
              && id in Run(s, steps).value.store.orders
              && Run(s, steps).value.store.orders[id] == s.store.orders[id]
  {
    hide Do, Inv, Abandoned, SubmissionsOf;
    if steps != [] {
      var n := |steps| - 1;
      assert steps[n] in steps && forall step <- steps[..n] :: step in steps;
      AbandonedForEver(registered, s, steps[..n], id);
      var mid := Run(s, steps[..n]).value;
      StepKeepsInv(registered, mid, steps[n]);
      InvMeansOwnIds(registered, mid);
      AbandonedStep(mid, steps[n], id);
    }
  }

  lemma InvMeansOwnIds(registered: map<OrderId, Order>, s: State)
    requires Registered(registered) && Inv(registered, s)
    ensures forall o <- s.store.orders :: s.store.orders[o].id == o
  {
    hide Explained, Registered;
    forall o | o in s.store.orders ensures s.store.orders[o].id == o {
      OrdersAreSound(registered, s.store, o);
    }
  }
}
