/** How much an intent can lead to be traded, over all the plans made under it. */
module IntentTotals {
  import opened Wrappers
  import opened Int64
  import opened AccountingModel
  import opened OrderModel
  import opened OrderStore
  import opened ExecutionProtocol
  import opened ExecutionRuns
  import opened LegGraph
  import opened OrderPlan
  import Products

  /** A plan that the store has registered, the intent it was made under, and its
      legs. */
  datatype Registration = Registration(plan: nat, intent: Intent, legs: seq<Leg>)

  /** What accepting the plan has established. */
  ghost predicate RegistrationOk(r: Registration) {
    r.plan != 0 && SafeLegs(r.intent, r.legs) && HasOrder(EdgesOf(r.legs))
  }

  predicate DistinctPlans(rs: seq<Registration>) {
    forall i, j :: 0 <= i < j < |rs| ==> rs[i].plan != rs[j].plan
  }

  /** The registered orders are those of the plans, one for each leg, as new: the
      store refuses a plan identity that it has, and nothing else. */
  ghost predicate RegisteredFrom(registered: map<OrderId, Order>, rs: seq<Registration>) {
    && Registered(registered) && DistinctPlans(rs) && (forall i :: 0 <= i < |rs| ==> RegistrationOk(rs[i]))
    && (forall i, k :: 0 <= i < |rs| && 0 <= k < |rs[i].legs| ==> IsRegistered(registered, rs[i].plan, rs[i].legs[k]))
    && forall id <- registered :: exists i, k :: 0 <= i < |rs| && 0 <= k < |rs[i].legs| &&
                                                 id == OrderId(rs[i].plan, rs[i].legs[k].id)
  }

  predicate IsRegistered(registered: map<OrderId, Order>, plan: nat, leg: Leg) {
    && OrderId(plan, leg.id) in registered && registered[OrderId(plan, leg.id)].leg == leg
    && registered[OrderId(plan, leg.id)].revision == 1 && registered[OrderId(plan, leg.id)].filled == 0
  }

  function FilledOf(store: Store, id: OrderId): int {
    if id in store.orders then store.orders[id].filled else 0
  }

  /** What a plan has filled on an instrument. */
  function FilledOn(store: Store, plan: nat, legs: seq<Leg>, x: InstrumentId): int {
    if legs == [] then 0 else
    var n := |legs| - 1;
    FilledOn(store, plan, legs[..n], x) + if legs[n].instrument == x then
      FilledOf(store, OrderId(plan, legs[n].id)) else 0
  }

  /** What all the plans of an intent have filled on an instrument. */
  function Total(store: Store, rs: seq<Registration>, intent: Intent, x: InstrumentId): int {
    if rs == [] then 0 else
    var n := |rs| - 1;
    Total(store, rs[..n], intent, x) + if rs[n].intent == intent then FilledOn(store, rs[n].plan, rs[n].legs, x) else 0
  }

  predicate Trades(legs: seq<Leg>, x: InstrumentId) {
    exists k :: 0 <= k < |legs| && legs[k].instrument == x
  }

  /** How many plans of the intent trade the instrument. */
  function Plans(rs: seq<Registration>, intent: Intent, x: InstrumentId): nat {
    if rs == [] then 0 else
    var n := |rs| - 1;
    Plans(rs[..n], intent, x) + if rs[n].intent == intent && Trades(rs[n].legs, x) then 1 else 0
  }

  /** The quantity of the intent on an instrument, 0 when it has none. */
  function Units(legs: seq<IntentLeg>, x: InstrumentId): int {
    if legs == [] then 0
    else if legs[|legs| - 1].instrument == x then legs[|legs| - 1].quantity
    else Units(legs[..|legs| - 1], x)
  }

  lemma {:induction false} UnitsOfLeg(legs: seq<IntentLeg>, k: nat)
    requires k < |legs| && DistinctInstruments(legs)
    ensures Units(legs, legs[k].instrument) == legs[k].quantity
  {
    var n := |legs| - 1;
    if k < n {
      assert legs[k].instrument != legs[n].instrument;
      UnitsOfLeg(legs[..n], k);
    }
  }

  lemma {:induction false} FilledOnNone(store: Store, plan: nat, legs: seq<Leg>, x: InstrumentId)
    requires !Trades(legs, x)
    ensures FilledOn(store, plan, legs, x) == 0
  {
    if legs != [] {
      var n := |legs| - 1;
      assert legs[n].instrument != x;
      assert !Trades(legs[..n], x) by { assert forall k :: 0 <= k < n ==> legs[..n][k] == legs[k]; }
      FilledOnNone(store, plan, legs[..n], x);
    }
  }

  /** A plan trades an instrument in one order at most. */
  lemma {:induction false} FilledOnOne(store: Store, plan: nat, legs: seq<Leg>, k: nat)
    requires DistinctLegs(legs) && k < |legs|
    ensures FilledOn(store, plan, legs, legs[k].instrument) == FilledOf(store, OrderId(plan, legs[k].id))
  {
    var n := |legs| - 1;
    if k == n {
      assert !Trades(legs[..n], legs[n].instrument) by {
        assert forall j :: 0 <= j < n ==> legs[..n][j] == legs[j] && legs[j].instrument != legs[n].instrument;
      }
      FilledOnNone(store, plan, legs[..n], legs[n].instrument);
    } else {
      assert legs[k].instrument != legs[n].instrument;
      FilledOnOne(store, plan, legs[..n], k);
    }
  }

  /** The quantity of a plan's leg is the intent's. */
  lemma LegHasUnits(intent: Intent, legs: seq<Leg>, k: nat)
    requires SafeLegs(intent, legs) && DistinctInstruments(intent.legs) && k < |legs|
    ensures legs[k].quantity == Units(intent.legs, legs[k].instrument)
  {
    hide Grounded, Guarded;
    assert LegAuthorised(intent, legs[k]);
    var j :| 0 <= j < |intent.legs| && intent.legs[j].instrument == legs[k].instrument &&
             intent.legs[j].side == legs[k].side && intent.legs[j].quantity == legs[k].quantity;
    UnitsOfLeg(intent.legs, j);
  }

  /** Every order of the plans is in the store with its leg, and not overfilled. */
  predicate Stored(store: Store, rs: seq<Registration>) {
    forall i, k :: 0 <= i < |rs| && 0 <= k < |rs[i].legs| ==> StoredOne(store, rs[i].plan, rs[i].legs[k])
  }

  predicate StoredOne(store: Store, plan: nat, leg: Leg) {
    OrderId(plan, leg.id) in store.orders && 0 <= store.orders[OrderId(plan, leg.id)].filled <= leg.quantity
  }

  predicate FilledOne(store: Store, plan: nat, leg: Leg) {
    OrderId(plan, leg.id) in store.orders && store.orders[OrderId(plan, leg.id)].filled == leg.quantity
  }

  predicate AllFilled(store: Store, rs: seq<Registration>) {
    forall i, k :: 0 <= i < |rs| && 0 <= k < |rs[i].legs| ==> FilledOne(store, rs[i].plan, rs[i].legs[k])
  }

  lemma PlanWithinUnits(store: Store, r: Registration, x: InstrumentId)
    requires RegistrationOk(r) && DistinctInstruments(r.intent.legs)
    requires forall k :: 0 <= k < |r.legs| ==> StoredOne(store, r.plan, r.legs[k])
    ensures FilledOn(store, r.plan, r.legs, x) <= if Trades(r.legs, x) then Units(r.intent.legs, x) else 0
    ensures (forall k :: 0 <= k < |r.legs| ==> FilledOne(store, r.plan, r.legs[k])) ==>
              FilledOn(store, r.plan, r.legs, x) == if Trades(r.legs, x) then Units(r.intent.legs, x) else 0
  {
    hide Grounded, Guarded, HasOrder, FilledOn, Units, LegsAuthorised;
    if Trades(r.legs, x) {
      var k :| 0 <= k < |r.legs| && r.legs[k].instrument == x;
      FilledOnOne(store, r.plan, r.legs, k);
      LegHasUnits(r.intent, r.legs, k);
      assert StoredOne(store, r.plan, r.legs[k]);
    } else {
      FilledOnNone(store, r.plan, r.legs, x);
    }
  }

  /** The total is at most the plans times the units, and equal once all is filled. */
  lemma {:induction false} TotalWithinPlans(store: Store, rs: seq<Registration>, intent: Intent, x: InstrumentId)
    requires (forall i :: 0 <= i < |rs| ==> RegistrationOk(rs[i])) && DistinctInstruments(intent.legs) &&
             Stored(store, rs)
    ensures Total(store, rs, intent, x) <= Plans(rs, intent, x) * Units(intent.legs, x)
    ensures AllFilled(store, rs) ==> Total(store, rs, intent, x) == Plans(rs, intent, x) * Units(intent.legs, x)
  {
    hide RegistrationOk, StoredOne, FilledOne, DistinctInstruments, Units, FilledOn, Trades;
    if rs != [] {
      var n := |rs| - 1;
      TotalWithinPlans(store, rs[..n], intent, x);
      if rs[n].intent == intent {
        PlanWithinUnits(store, rs[n], x);
      }
      Products.Distributes(Plans(rs[..n], intent, x), 1, Units(intent.legs, x));
    }
  }

  /** The reports that take an order from CREATED to FILLED, as the coordinator and
      the broker word them. */
  function Plain(o: Order, key: ReportId, kind: ReportType): Event {
    Event(Report(key, o.id, o.clientId, o.brokerId, kind, o.filled, 1, 1), None)
  }

  function PlannedEvent(o: Order): Event {
    Plain(o, PlanAccepted(o.id), ReportPlanned)
  }

  function PendingEvent(o: Order, attempt: Attempt): Event {
    Plain(o, AttemptPending(attempt), ReportSubmissionPending)
  }

  function SubmittedEvent(o: Order, attempt: Attempt): Event {
    Plain(o, AttemptSubmitted(attempt), ReportSubmitted)
  }

  function FilledEvent(o: Order, event: string, fill: nat): Event {
    Event(Report(BrokerEvent(event), o.id, o.clientId, o.brokerId, ReportFill, o.leg.quantity, 1, 1),
          Some(ExecutionFill(fill, o.id, BrokerEvent(event), o.leg.quantity, o.leg.currency)))
  }

  /** What a plain report makes of an order that may follow it. */
  function Moved(o: Order, state: OrderState): Order {
    o.(state := state, revision := o.revision + 1, updatedAt := if 1 > o.updatedAt then 1 else o.updatedAt)
  }

  lemma PlainMoves(o: Order, key: ReportId, kind: ReportType)
    requires Sound(o) && o.revision < 10 && LegalTransition(o.state, Target(kind))
    requires Target(kind) !in {PartiallyFilled, Filled}
    ensures ApplyReport(o, Plain(o, key, kind).report, None) == Ok(Moved(o, Target(kind)))
    ensures Sound(Moved(o, Target(kind)))
  {
  }

  lemma FillMoves(o: Order, event: string, fill: nat)
    requires Sound(o) && o.revision < 10 && o.state == Submitted && o.filled == 0
    ensures ApplyReport(o, FilledEvent(o, event, fill).report, FilledEvent(o, event, fill).fill) ==
            Ok(Moved(o, Filled).(filled := o.leg.quantity))
  {
  }

  /** Nothing in the log is about the order. */
  predicate Untouched(log: seq<Event>, id: OrderId) {
    forall i :: 0 <= i < |log| ==> !About(log[i].report.id, id)
  }

  /** The identities under which the order's plan and attempts are reported. */
  predicate About(key: ReportId, id: OrderId) {
    || key == PlanAccepted(id)
    || (key.AttemptPending? && key.attempt.order == id)
    || (key.AttemptSubmitted? && key.attempt.order == id)
  }

  /** The machine between calls of task 0. */
  predicate Between(s: State) {
    0 in s.tasks && s.tasks[0].job.Idle? && !s.closed && s.reserved == {}
  }

  /** The same, with one order replaced and reports about it added. */
  ghost predicate Completes(s: State, s': State, id: OrderId) {
    && Between(s') && s'.store.orders.Keys == s.store.orders.Keys && id in s.store.orders
    && (forall o <- s.store.orders :: o != id ==> s'.store.orders[o] == s.store.orders[o])
    && s'.store.orders[id].state == OrderState.Filled && s'.store.orders[id].leg == s.store.orders[id].leg
    && s'.store.orders[id].filled == s.store.orders[id].leg.quantity
    && (forall o :: o != id && Untouched(s.store.log, o) ==> Untouched(s'.store.log, o))
  }

  predicate NoAttempts(log: seq<Event>, id: OrderId) {
    forall i :: 0 <= i < |log| ==>
      !(log[i].report.id.AttemptPending? && log[i].report.id.attempt.order == id) &&
      !(log[i].report.id.AttemptSubmitted? && log[i].report.id.attempt.order == id)
  }

  /** The order is in the store as it was registered but for its state. */
  predicate Stands(store: Store, id: OrderId, state: OrderState) {
    && id in store.orders && store.orders[id].id == id && Sound(store.orders[id])
    && store.orders[id].state == state && store.orders[id].filled == 0
    && store.orders[id].revision == if state == Created then 1 else 2
  }

  function With(store: Store, o: Order, events: seq<Event>): Store {
    store.(orders := store.orders[o.id := o], log := store.log + events)
  }

  /** The coordinator plans the order. */
  lemma PlanPhase(s: State, id: OrderId)
    requires Between(s) && Stands(s.store, id, Created) && Untouched(s.store.log, id)
    ensures var o := s.store.orders[id];
            && Run(s, ReportSteps(0, id, [PlannedEvent(o)])) ==
               Some(s.(store := With(s.store, Moved(o, Planned), [PlannedEvent(o)])))
            && Stands(With(s.store, Moved(o, Planned), [PlannedEvent(o)]), id, Planned)
            && NoAttempts(With(s.store, Moved(o, Planned), [PlannedEvent(o)]).log, id)
  {
    hide Run, Publish, ApplyReport, PublishAll, ReportSteps;
    var o := s.store.orders[id];
    PlainMoves(o, PlanAccepted(id), ReportPlanned);
    PublishAccepts(s.store, PlannedEvent(o), Moved(o, Planned));
    PublishOne(s.store, PlannedEvent(o));
    ReportRun(s, 0, id, [PlannedEvent(o)]);
  }

  /** The coordinator submits it, once, and the broker accepts. */
  lemma SubmitPhase(s: State, id: OrderId)
    requires Between(s) && Stands(s.store, id, Planned) && NoAttempts(s.store.log, id)
    requires DependenciesFilled(s.store.orders[id], s.tasks[0].seen)
    ensures var o := s.store.orders[id];
            var attempt := AttemptAt(s.store, id, 1);
            var events := [PendingEvent(o, attempt)] + [SubmittedEvent(Moved(o, SubmissionPending), attempt)];
            var next := With(s.store, Moved(Moved(o, SubmissionPending), Submitted), events);
            && Run(s, SubmitSteps(0, id, 1, events[0], 1, events[1..])) ==
               Some(s.(store := next, submissions := s.submissions + Copies(id, attempt, 1)))
            && next.orders[id].state == Submitted && next.orders[id].filled == 0 && Sound(next.orders[id])
            && next.orders[id].id == id && next.orders[id].revision < 10
  {
    hide Run, Publish, ApplyReport, PublishAll, SubmitSteps, DependenciesFilled, Copies;
    var o := s.store.orders[id];
    var attempt := AttemptAt(s.store, id, 1);
    var o2 := Moved(o, SubmissionPending);
    var pending, submitted := PendingEvent(o, attempt), SubmittedEvent(o2, attempt);
    PlainMoves(o, AttemptPending(attempt), ReportSubmissionPending);
    PlainMoves(o2, AttemptSubmitted(attempt), ReportSubmitted);
    PublishAccepts(s.store, pending, o2);
    var mid := Publish(s.store, pending).value;
    assert !ReportUsed(mid.log, AttemptSubmitted(attempt));
    PublishAccepts(mid, submitted, Moved(o2, Submitted));
    PublishTwo(s.store, pending, submitted);
    assert mid.orders[id := Moved(o2, Submitted)] == s.store.orders[id := Moved(o2, Submitted)];
    assert s.store.log + [pending] + [submitted] == s.store.log + ([pending] + [submitted]);
    assert ([pending] + [submitted])[1..] == [submitted];
    SubmitRun(s, 0, id, 1, pending, 1, [submitted]);
  }

  /** The broker reports it filled. */
  lemma FillPhase(s: State, id: OrderId) returns (steps: seq<Step>, e: Event)
    requires Between(s) && id in s.store.orders && s.store.orders[id].id == id && Sound(s.store.orders[id])
    requires s.store.orders[id].state == Submitted && s.store.orders[id].filled == 0 && s.store.orders[id].revision < 10
    ensures var o := s.store.orders[id];
            Run(s, steps) == Some(s.(store := With(s.store, Moved(o, OrderState.Filled).(filled := o.leg.quantity),
                                                   [e])))
    ensures e.report.id.BrokerEvent?
  {
    hide Run, Publish, ApplyReport, PublishAll, ReportSteps;
    var o := s.store.orders[id];
    var event, fill := FreshNames(s.store.log);
    e := FilledEvent(o, event, fill);
    FillMoves(o, event, fill);
    PublishAccepts(s.store, e, Moved(o, OrderState.Filled).(filled := o.leg.quantity));
    PublishOne(s.store, e);
    ReportRun(s, 0, id, [e]);
    steps := ReportSteps(0, id, [e]);
  }

  lemma ReadPhase(s: State, plan: nat)
    requires Between(s)
    ensures Do(s, ReadOrders(0, plan)) == Some(s.(tasks := s.tasks[0 := Task(StatesOf(s.store, plan), Idle)]))
  {
  }

  /** An order whose dependencies are FILLED can be taken from CREATED to FILLED. */
  lemma OrderCanFill(s: State, id: OrderId) returns (steps: seq<Step>)
    requires Between(s) && Stands(s.store, id, Created) && Untouched(s.store.log, id) && Released(s.store, id)
    ensures Run(s, steps).Some? && Completes(s, Run(s, steps).value, id)
  {
    hide Run, Do, Untouched, NoAttempts, Sound, ReportSteps, SubmitSteps, Copies, StatesOf;
    hide DependenciesFilled, Released;
    var o := s.store.orders[id];
    PlanPhase(s, id);
    var planned := s.(store := With(s.store, Moved(o, Planned), [PlannedEvent(o)]));
    steps := ReportSteps(0, id, [PlannedEvent(o)]);
    ReadPhase(planned, id.plan);
    RunThen(s, steps, ReadOrders(0, id.plan));
    steps := steps + [ReadOrders(0, id.plan)];
    var read := planned.(tasks := planned.tasks[0 := Task(StatesOf(planned.store, id.plan), Idle)]);
    ReleasedIsSeen(s.store, planned.store, id);
    SubmitPhase(read, id);
    var attempt := AttemptAt(read.store, id, 1);
    var o1 := read.store.orders[id];
    var events := [PendingEvent(o1, attempt)] + [SubmittedEvent(Moved(o1, SubmissionPending), attempt)];
    RunAppend(s, steps, SubmitSteps(0, id, 1, events[0], 1, events[1..]));
    steps := steps + SubmitSteps(0, id, 1, events[0], 1, events[1..]);
    var submitted := Run(s, steps).value;
    var last, e := FillPhase(submitted, id);
    RunAppend(s, steps, last);
    steps := steps + last;
    OthersUntouched(s.store.log, [PlannedEvent(o)] + events + [e], id);
    assert Run(s, steps).value.store.log == s.store.log + ([PlannedEvent(o)] + events + [e]);
  }

  lemma OthersUntouched(log: seq<Event>, events: seq<Event>, id: OrderId)
    requires forall i :: 0 <= i < |events| ==> About(events[i].report.id, id) || events[i].report.id.BrokerEvent?
    ensures forall o :: o != id && Untouched(log, o) ==> Untouched(log + events, o)
  {
  }

  lemma ReleasedIsSeen(before: Store, store: Store, id: OrderId)
    requires Released(before, id) && id in before.orders && before.orders[id].id == id &&
             before.orders[id].state == Created
    requires store.orders == before.orders[id := Moved(before.orders[id], Planned)]
    ensures DependenciesFilled(store.orders[id], StatesOf(store, id.plan))
  {
  }

  /** The leg's order is as registered and nothing was reported about it. */
  predicate Waiting(s: State, registered: map<OrderId, Order>, plan: nat, leg: Leg) {
    var id := OrderId(plan, leg.id);
    id in s.store.orders && id in registered && s.store.orders[id] == registered[id] && Untouched(s.store.log, id)
  }

  predicate Done(s: State, plan: nat, leg: Leg) {
    var id := OrderId(plan, leg.id);
    && id in s.store.orders && s.store.orders[id].state == OrderState.Filled && s.store.orders[id].leg == leg
    && s.store.orders[id].filled == leg.quantity
  }

  /** The legs listed so far are FILLED and the others wait. */
  predicate PartDone(s: State, registered: map<OrderId, Order>, r: Registration, listed: seq<LegId>) {
    forall k :: 0 <= k < |r.legs| ==>
      if r.legs[k].id in listed then Done(s, r.plan, r.legs[k]) else Waiting(s, registered, r.plan, r.legs[k])
  }

  /** Between the two states only orders of the plan have changed. */
  ghost predicate Elsewhere(s: State, s': State, plan: nat) {
    && s'.store.orders.Keys == s.store.orders.Keys
    && (forall o <- s.store.orders :: o.plan != plan ==> s'.store.orders[o] == s.store.orders[o])
    && forall o: OrderId :: o.plan != plan && Untouched(s.store.log, o) ==> Untouched(s'.store.log, o)
  }

  predicate LegsRegistered(registered: map<OrderId, Order>, r: Registration) {
    && Registered(registered)
    && forall k :: 0 <= k < |r.legs| ==> IsRegistered(registered, r.plan, r.legs[k])
  }

  lemma WaitingStands(s: State, registered: map<OrderId, Order>, r: Registration, k: nat)
    requires LegsRegistered(registered, r) && k < |r.legs| && Waiting(s, registered, r.plan, r.legs[k])
    ensures Stands(s.store, OrderId(r.plan, r.legs[k].id), Created)
    ensures s.store.orders[OrderId(r.plan, r.legs[k].id)].leg == r.legs[k]
  {
    assert IsRegistered(registered, r.plan, r.legs[k]);
  }

  /** The next leg in topological order waits for nothing any more. */
  lemma NextIsReleased(s: State, registered: map<OrderId, Order>, r: Registration, order: seq<LegId>, i: nat, k: nat)
    requires SafeLegs(r.intent, r.legs) && LegsRegistered(registered, r) && Topological(EdgesOf(r.legs), order)
    requires i < |order| && k < |r.legs| && r.legs[k].id == order[i] && PartDone(s, registered, r, order[..i])
    ensures Waiting(s, registered, r.plan, r.legs[k]) && Released(s.store, OrderId(r.plan, r.legs[k].id))
  {
    hide EdgesOf, Guarded, LegsAuthorised, Done;
    EdgesOfLeg(r.legs, k);
    assert order[i] !in order[..i];
    assert Waiting(s, registered, r.plan, r.legs[k]);
    WaitingStands(s, registered, r, k);
    forall b | b in r.legs[k].dependsOn
      ensures OrderId(r.plan, b) in s.store.orders && s.store.orders[OrderId(r.plan, b)].state == OrderState.Filled
    {
      assert b in order[..i];
      var j :| 0 <= j < |r.legs| && r.legs[j].id == b;
      DoneIsFilled(s, r.plan, r.legs[j]);
    }
  }

  lemma DoneIsFilled(s: State, plan: nat, leg: Leg)
    ensures Done(s, plan, leg) ==>
              OrderId(plan, leg.id) in s.store.orders &&
                s.store.orders[OrderId(plan, leg.id)].state == OrderState.Filled
  {
  }

  lemma PartDoneNext(s: State, s': State, registered: map<OrderId, Order>, r: Registration, listed: seq<LegId>, k: nat)
    requires DistinctLegs(r.legs) && k < |r.legs| && PartDone(s, registered, r, listed)
    requires Completes(s, s', OrderId(r.plan, r.legs[k].id))
    requires s.store.orders[OrderId(r.plan, r.legs[k].id)].leg == r.legs[k]
    ensures PartDone(s', registered, r, listed + [r.legs[k].id]) && Elsewhere(s, s', r.plan)
  {
    hide Untouched;
    forall j | 0 <= j < |r.legs|
      ensures if r.legs[j].id in listed + [r.legs[k].id] then Done(s', r.plan, r.legs[j])
              else Waiting(s', registered, r.plan, r.legs[j])
    {
      if j != k {
        assert r.legs[j].id != r.legs[k].id;
        assert if r.legs[j].id in listed then Done(s, r.plan, r.legs[j]) else Waiting(s, registered, r.plan, r.legs[j]);
      }
    }
  }

  lemma ElsewhereIsTransitive(a: State, b: State, c: State, plan: nat)
    requires Elsewhere(a, b, plan) && Elsewhere(b, c, plan)
    ensures Elsewhere(a, c, plan)
  {
    hide Untouched;
  }

  lemma NotALeg(s: State, registered: map<OrderId, Order>, r: Registration, listed: seq<LegId>, id: LegId)
    requires PartDone(s, registered, r, listed) && forall k :: 0 <= k < |r.legs| ==> r.legs[k].id != id
    ensures PartDone(s, registered, r, listed + [id])
  {
    hide Done, Waiting;
  }

  /** The legs of a plan can be filled one by one in topological order. */
  lemma {:induction false} LegsCanFill(s: State, registered: map<OrderId, Order>, r: Registration, order: seq<LegId>,
                                       i: nat)
    returns (steps: seq<Step>)
    requires Between(s) && SafeLegs(r.intent, r.legs) && LegsRegistered(registered, r)
    requires Topological(EdgesOf(r.legs), order) && PartDone(s, registered, r, []) && i <= |order|
    ensures Run(s, steps).Some? && Between(Run(s, steps).value)
    ensures PartDone(Run(s, steps).value, registered, r, order[..i]) && Elsewhere(s, Run(s, steps).value, r.plan)
  {
    if i == 0 {
      assert order[..0] == [];
      return [];
    }
    hide Run, EdgesOf, Topological, PartDone, Elsewhere, SafeLegs, LegsRegistered, Untouched;
    steps := LegsCanFill(s, registered, r, order, i - 1);
    var mid := Run(s, steps).value;
    assert order[..i] == order[..i - 1] + [order[i - 1]];
    if k :| 0 <= k < |r.legs| && r.legs[k].id == order[i - 1] {
      NextIsReleased(mid, registered, r, order, i - 1, k);
      WaitingStands(mid, registered, r, k);
      var more := OrderCanFill(mid, OrderId(r.plan, r.legs[k].id));
      RunAppend(s, steps, more);
      SafeIsDistinct(r.intent, r.legs);
      PartDoneNext(mid, Run(mid, more).value, registered, r, order[..i - 1], k);
      ElsewhereIsTransitive(s, mid, Run(mid, more).value, r.plan);
      steps := steps + more;
    } else {
      NotALeg(mid, registered, r, order[..i - 1], order[i - 1]);
    }
  }

  lemma SafeIsDistinct(intent: Intent, legs: seq<Leg>)
    requires SafeLegs(intent, legs)
    ensures DistinctLegs(legs)
  {
  }

  predicate PlanWaits(s: State, registered: map<OrderId, Order>, r: Registration) {
    forall k :: 0 <= k < |r.legs| ==> Waiting(s, registered, r.plan, r.legs[k])
  }

  predicate PlanDone(s: State, r: Registration) {
    forall k :: 0 <= k < |r.legs| ==> Done(s, r.plan, r.legs[k])
  }

  lemma WholeIsDone(s: State, registered: map<OrderId, Order>, r: Registration, order: seq<LegId>)
    requires SafeLegs(r.intent, r.legs) && EdgesOf(r.legs).Keys <= Elements(order) && PartDone(s, registered, r, order)
    ensures PlanDone(s, r)
  {
    hide EdgesOf, Done, Waiting, Grounded, Guarded, LegsAuthorised;
    forall k | 0 <= k < |r.legs| ensures Done(s, r.plan, r.legs[k]) {
      EdgesOfLeg(r.legs, k);
      assert r.legs[k].id in Elements(order);
    }
  }

  /** A plan as a whole can be filled, leaving the others alone. */
  lemma PlanCanFill(s: State, registered: map<OrderId, Order>, r: Registration) returns (steps: seq<Step>)
    requires Between(s) && RegistrationOk(r) && LegsRegistered(registered, r) && PlanWaits(s, registered, r)
    ensures Run(s, steps).Some? && Between(Run(s, steps).value)
    ensures PlanDone(Run(s, steps).value, r) && Elsewhere(s, Run(s, steps).value, r.plan)
  {
    hide Run, EdgesOf, Topological, Elsewhere, SafeLegs, LegsRegistered, Waiting, Done;
    var order :| Topological(EdgesOf(r.legs), order) && EdgesOf(r.legs).Keys <= Elements(order);
    assert PartDone(s, registered, r, []);
    steps := LegsCanFill(s, registered, r, order, |order|);
    assert order[..|order|] == order;
    WholeIsDone(Run(s, steps).value, registered, r, order);
  }

  lemma OtherPlansStay(s: State, s': State, registered: map<OrderId, Order>, r: Registration, plan: nat)
    requires Elsewhere(s, s', plan) && r.plan != plan
    ensures PlanWaits(s, registered, r) ==> PlanWaits(s', registered, r)
    ensures PlanDone(s, r) ==> PlanDone(s', r)
  {
    hide Untouched;
  }

  /** The first n plans are filled and the others wait. */
  predicate PlansDone(s: State, registered: map<OrderId, Order>, rs: seq<Registration>, n: nat) {
    forall i :: 0 <= i < |rs| ==> if i < n then PlanDone(s, rs[i]) else PlanWaits(s, registered, rs[i])
  }

  lemma PlansDoneNext(s: State, s': State, registered: map<OrderId, Order>, rs: seq<Registration>, n: nat)
    requires DistinctPlans(rs) && n < |rs| && PlansDone(s, registered, rs, n)
    requires Elsewhere(s, s', rs[n].plan) && PlanDone(s', rs[n])
    ensures PlansDone(s', registered, rs, n + 1)
  {
    hide PlanDone, PlanWaits, Elsewhere;
    forall i | 0 <= i < |rs|
      ensures if i < n + 1 then PlanDone(s', rs[i]) else PlanWaits(s', registered, rs[i])
    {
      if i != n {
        assert rs[i].plan != rs[n].plan;
        OtherPlansStay(s, s', registered, rs[i], rs[n].plan);
      }
    }
  }

  predicate AllRegistered(registered: map<OrderId, Order>, rs: seq<Registration>) {
    forall i :: 0 <= i < |rs| ==> LegsRegistered(registered, rs[i])
  }

  lemma NextWaits(s: State, registered: map<OrderId, Order>, rs: seq<Registration>, n: nat)
    requires AllRegistered(registered, rs) && n < |rs| && PlansDone(s, registered, rs, n)
    ensures LegsRegistered(registered, rs[n]) && PlanWaits(s, registered, rs[n])
  {
    hide PlanDone, PlanWaits, LegsRegistered;
  }

  /** The plans can be filled one after the other. */
  lemma {:induction false} PlansCanFill(s: State, registered: map<OrderId, Order>, rs: seq<Registration>, n: nat)
    returns (steps: seq<Step>)
    requires Between(s) && DistinctPlans(rs) && n <= |rs| && AllRegistered(registered, rs)
    requires (forall i :: 0 <= i < |rs| ==> RegistrationOk(rs[i])) && PlansDone(s, registered, rs, 0)
    ensures Run(s, steps).Some? && Between(Run(s, steps).value)
    ensures PlansDone(Run(s, steps).value, registered, rs, n)
  {
    hide Between, RegistrationOk, LegsRegistered, PlansDone, PlanDone, Elsewhere, Do, DistinctPlans, AllRegistered;
    if n == 0 {
      steps := [];
    } else {
      steps := PlansCanFill(s, registered, rs, n - 1);
      var mid := Run(s, steps).value;
      NextWaits(mid, registered, rs, n - 1);
      var more := PlanCanFill(mid, registered, rs[n - 1]);
      RunAppend(s, steps, more);
      PlansDoneNext(mid, Run(mid, more).value, registered, rs, n - 1);
      steps := steps + more;
    }
  }

  lemma StartWaits(registered: map<OrderId, Order>, rs: seq<Registration>)
    requires RegisteredFrom(registered, rs)
    ensures Do(Init(registered), Enter(0)).Some? && Between(Do(Init(registered), Enter(0)).value)
    ensures AllRegistered(registered, rs) && PlansDone(Do(Init(registered), Enter(0)).value, registered, rs, 0)
  {
    hide RegistrationOk;
    var s := Do(Init(registered), Enter(0)).value;
    forall i, k | 0 <= i < |rs| && 0 <= k < |rs[i].legs| ensures Waiting(s, registered, rs[i].plan, rs[i].legs[k]) {
      assert IsRegistered(registered, rs[i].plan, rs[i].legs[k]);
    }
  }

  /** There is a run of the coordinator in which every plan is filled completely. */
  lemma EverythingCanFill(registered: map<OrderId, Order>, rs: seq<Registration>) returns (steps: seq<Step>)
    requires RegisteredFrom(registered, rs)
    ensures Run(Init(registered), steps).Some? && AllFilled(Run(Init(registered), steps).value.store, rs)
  {
    hide Run, Do, RegistrationOk, LegsRegistered, PlanWaits, AllRegistered;
    StartWaits(registered, rs);
    RunOne(Init(registered), Enter(0));
    var s := Do(Init(registered), Enter(0)).value;
    var more := PlansCanFill(s, registered, rs, |rs|);
    RunAppend(Init(registered), [Enter(0)], more);
    steps := [Enter(0)] + more;
    var final := Run(Init(registered), steps).value;
    forall i, k | 0 <= i < |rs| && 0 <= k < |rs[i].legs| ensures FilledOne(final.store, rs[i].plan, rs[i].legs[k]) {
      assert PlanDone(final, rs[i]);
      assert Done(final, rs[i].plan, rs[i].legs[k]);
    }
  }

  /** In every run every order of the plans is stored and not overfilled. */
  lemma RunsStore(registered: map<OrderId, Order>, rs: seq<Registration>, steps: seq<Step>)
    requires RegisteredFrom(registered, rs) && Run(Init(registered), steps).Some?
    ensures Stored(Run(Init(registered), steps).value.store, rs)
  {
    hide Run, RegistrationOk, Explained, Exclusive, SeenFilledIsFilled, Submitting, SubmittedOnce;
    RunKeepsInv(registered, steps);
    var store := Run(Init(registered), steps).value.store;
    forall i, k | 0 <= i < |rs| && 0 <= k < |rs[i].legs| ensures StoredOne(store, rs[i].plan, rs[i].legs[k]) {
      assert IsRegistered(registered, rs[i].plan, rs[i].legs[k]);
      ExplainedKeys(registered, store);
      OrdersAreSound(registered, store, OrderId(rs[i].plan, rs[i].legs[k].id));
    }
  }

  lemma ExplainedKeys(registered: map<OrderId, Order>, store: Store)
    requires Explained(registered, store)
    ensures store.orders.Keys == registered.Keys
  {
  }

  /** In every run, with restarts anywhere, the fills on an instrument under one
      intent are at most the intent's quantity times the plans of the intent that
      trade it; the quantity itself is within the approval. */
  lemma FillsWithinPlans(registered: map<OrderId, Order>, rs: seq<Registration>, steps: seq<Step>, intent: Intent,
                         bounds: seq<Bound>, x: InstrumentId)
    requires RegisteredFrom(registered, rs) && Run(Init(registered), steps).Some? && Authorised(intent.legs, bounds)
    ensures var total := Total(Run(Init(registered), steps).value.store, rs, intent, x);
            && total <= Plans(rs, intent, x) * Units(intent.legs, x)
            && (Plans(rs, intent, x) > 0 ==>
                  && BoundFor(bounds, x).Some? && 0 < Units(intent.legs, x) <= BoundFor(bounds, x).value.maximumUnits
                  && total <= Plans(rs, intent, x) * BoundFor(bounds, x).value.maximumUnits)
  {
    hide Run, RegisteredFrom, RegistrationOk, Stored, Within, Total, Plans, Units, BoundFor, AllFilled;
    hide DistinctInstruments;
    RegistrationsAreOk(registered, rs);
    RunsStore(registered, rs, steps);
    TotalWithinPlans(Run(Init(registered), steps).value.store, rs, intent, x);
    var k, q := Plans(rs, intent, x), Units(intent.legs, x);
    if k > 0 {
      PlansHaveUnits(rs, intent, bounds, x);
      var m := BoundFor(bounds, x).value.maximumUnits;
      Products.Grows(q, m, k);
      assert k * q == q * k && k * m == m * k;
    }
  }

  lemma {:induction false} PlansHaveUnits(rs: seq<Registration>, intent: Intent, bounds: seq<Bound>, x: InstrumentId)
    requires (forall i :: 0 <= i < |rs| ==> RegistrationOk(rs[i])) && Authorised(intent.legs, bounds)
    requires Plans(rs, intent, x) > 0
    ensures BoundFor(bounds, x).Some? && 0 < Units(intent.legs, x) <= BoundFor(bounds, x).value.maximumUnits
  {
    hide HasOrder, Grounded, Guarded, BoundFor, Units;
    var n := |rs| - 1;
    if rs[n].intent == intent && Trades(rs[n].legs, x) {
      var k :| 0 <= k < |rs[n].legs| && rs[n].legs[k].instrument == x;
      assert RegistrationOk(rs[n]) && LegAuthorised(intent, rs[n].legs[k]);
      var j :| 0 <= j < |intent.legs| && intent.legs[j].instrument == x &&
        intent.legs[j].quantity == rs[n].legs[k].quantity;
      UnitsOfLeg(intent.legs, j);
      assert Within(intent.legs[j], bounds);
    } else {
      PlansHaveUnits(rs[..n], intent, bounds, x);
    }
  }

  /** No run fills more than the limit on the instrument under the intent. */
  ghost predicate NeverExceeds(registered: map<OrderId, Order>, rs: seq<Registration>, intent: Intent, x: InstrumentId,
                               limit: int)
  {
    forall steps :: Run(Init(registered), steps).Some? ==>
      Total(Run(Init(registered), steps).value.store, rs, intent, x) <= limit
  }

  /** The approval is enforced plan by plan. A limit on the fills of an intent holds in
      every run if and only if the plans of the intent that trade the instrument,
      times the intent's quantity, are within it; so the intent's own quantity is
      never exceeded exactly when at most one plan trades the instrument. */
  lemma ApprovalHoldsExactly(registered: map<OrderId, Order>, rs: seq<Registration>, intent: Intent, bounds: seq<Bound>,
                             x: InstrumentId, limit: int)
    requires RegisteredFrom(registered, rs) && Authorised(intent.legs, bounds)
    ensures NeverExceeds(registered, rs, intent, x, limit) <==> Plans(rs, intent, x) * Units(intent.legs, x) <= limit
    ensures NeverExceeds(registered, rs, intent, x, Units(intent.legs, x)) <==> Plans(rs, intent, x) <= 1
    ensures Plans(rs, intent, x) == 1 ==>
              && BoundFor(bounds, x).Some?
              && NeverExceeds(registered, rs, intent, x, BoundFor(bounds, x).value.maximumUnits)
  {
    hide Run, RegisteredFrom, Total, Plans, Units, BoundFor, NeverExceeds, Authorised;
    LimitHoldsExactly(registered, rs, intent, bounds, x, limit);
    LimitHoldsExactly(registered, rs, intent, bounds, x, Units(intent.legs, x));
    RegistrationsAreOk(registered, rs);
    if Plans(rs, intent, x) > 0 {
      PlansHaveUnits(rs, intent, bounds, x);
      LimitHoldsExactly(registered, rs, intent, bounds, x, BoundFor(bounds, x).value.maximumUnits);
      if Plans(rs, intent, x) > 1 {
        Products.Grows(2, Plans(rs, intent, x), Units(intent.legs, x));
      }
    } else {
      UnitsAreNatural(intent.legs, bounds, x);
    }
  }

  lemma RegistrationsAreOk(registered: map<OrderId, Order>, rs: seq<Registration>)
    requires RegisteredFrom(registered, rs)
    ensures forall i :: 0 <= i < |rs| ==> RegistrationOk(rs[i])
  {
  }

  lemma UnitsAreNatural(legs: seq<IntentLeg>, bounds: seq<Bound>, x: InstrumentId)
    requires Authorised(legs, bounds)
    ensures Units(legs, x) >= 0
  {
    if k :| 0 <= k < |legs| && legs[k].instrument == x {
      UnitsOfLeg(legs, k);
      assert Within(legs[k], bounds);
    } else {
      UnitsOfNone(legs, x);
    }
  }

  lemma {:induction false} UnitsOfNone(legs: seq<IntentLeg>, x: InstrumentId)
    requires forall k :: 0 <= k < |legs| ==> legs[k].instrument != x
    ensures Units(legs, x) == 0
  {
    if legs != [] {
      UnitsOfNone(legs[..|legs| - 1], x);
    }
  }

  lemma LimitHoldsExactly(registered: map<OrderId, Order>, rs: seq<Registration>, intent: Intent, bounds: seq<Bound>,
                          x: InstrumentId, limit: int)
    requires RegisteredFrom(registered, rs) && Authorised(intent.legs, bounds)
    ensures NeverExceeds(registered, rs, intent, x, limit) <==> Plans(rs, intent, x) * Units(intent.legs, x) <= limit
  {
    hide Run, RegistrationOk, Total, Plans, Units, AllFilled, StoredOne;
    forall steps | Run(Init(registered), steps).Some?
      ensures Total(Run(Init(registered), steps).value.store, rs, intent, x) <=
              Plans(rs, intent, x) * Units(intent.legs, x)
    {
      FillsWithinPlans(registered, rs, steps, intent, bounds, x);
    }
    var all := EverythingCanFill(registered, rs);
    RunsStore(registered, rs, all);
    TotalWithinPlans(Run(Init(registered), all).value.store, rs, intent, x);
  }

  /** A plan as the plan constructor answers it can be registered. */
  lemma AcceptedIsRegistrable(intent: Intent, ordered: seq<Draft>, createdAt: Instant, expiresAt: Instant, plan: nat)
    requires Arranged(ordered, ordered) && Accepts(intent, ordered, createdAt, expiresAt) && plan != 0
    requires HasOrder(EdgesOf(LegsOf(ordered)))
    ensures RegistrationOk(Registration(plan, intent, LegsOf(ordered)))
  {
    hide Accepts, SafeLegs, HasOrder;
    AcceptedPlanIsSafe(intent, ordered, createdAt, expiresAt);
  }

  const SampleIntent := Intent([IntentLeg(1, Buy, 1, 10, 1, false)], "INR", 1, 100)
  const SampleBounds := [Bound(1, Buy, 1, 10, 1)]
  const SampleDrafts := [Draft(1, Buy, 10, 5, "INR", false, [], false)]
  const SampleLeg := Leg(3, 1, Buy, 10, 5, "INR", false, [], false)

  lemma SampleEdges()
    ensures LegsOf(SampleDrafts) == [SampleLeg] && HasOrder(EdgesOf([SampleLeg])) && !Cyclic(EdgesOf([SampleLeg]))
  {
    assert LegOf(SampleDrafts, SampleDrafts[0]) == SampleLeg;
    EdgesOfLeg([SampleLeg], 0);
    assert [SampleLeg][..0] == [];
    var edges := EdgesOf([SampleLeg]);
    assert edges == map[3 := []];
    assert Topological(edges, [3]) && edges.Keys <= Elements([3]) by { assert 3 in [3]; }
    TopologicalIsAcyclic(edges, [3]);
  }

  lemma SampleIsAccepted(createdAt: Instant)
    requires 1 <= createdAt < 50
    ensures Authorised(SampleIntent.legs, SampleBounds) && Accepts(SampleIntent, SampleDrafts, createdAt, 50)
    ensures BoundFor(SampleBounds, 1) == Some(Bound(1, Buy, 1, 10, 1))
  {
    SampleEdges();
    assert BoundFor(SampleBounds, 1) == Some(SampleBounds[0]);
    assert SampleIntent.legs[0].instrument == 1;
    assert Approved(SampleIntent, SampleDrafts[0]);
  }

  /** An intent for 10 units that leads to 20: two plans that differ only in when
      they were made are both accepted and both registered, and each fills 10. */
  lemma TwoPlansExceed() returns (registered: map<OrderId, Order>, rs: seq<Registration>)
    ensures Authorised(SampleIntent.legs, SampleBounds) && BoundFor(SampleBounds, 1) == Some(Bound(1, Buy, 1, 10, 1))
    ensures Accepts(SampleIntent, SampleDrafts, 1, 50) && Accepts(SampleIntent, SampleDrafts, 2, 50)
    ensures RegisteredFrom(registered, rs) && |rs| == 2
    ensures forall i :: 0 <= i < 2 ==> rs[i] == Registration(i + 1, SampleIntent, LegsOf(SampleDrafts))
    ensures exists steps :: Run(Init(registered), steps).Some? &&
                            Total(Run(Init(registered), steps).value.store, rs, SampleIntent, 1) == 20
    ensures !NeverExceeds(registered, rs, SampleIntent, 1, 10)
  {
    hide Accepts, RegisteredFrom, Authorised, Run, Total, LegsOf, HasOrder, Cyclic, BoundFor, NeverExceeds, EdgesOf;
    SampleIsAccepted(1);
    SampleIsAccepted(2);
    SampleEdges();
    rs := [Registration(1, SampleIntent, [SampleLeg]), Registration(2, SampleIntent, [SampleLeg])];
    registered := map[OrderId(1, 3) := NewOrder(1, 1, SampleLeg, 1), OrderId(2, 3) := NewOrder(2, 2, SampleLeg, 2)];
    SampleIsRegistered(registered, rs);
    SampleTotals(registered, rs);
  }

  lemma SampleIsRegistered(registered: map<OrderId, Order>, rs: seq<Registration>)
    requires rs == [Registration(1, SampleIntent, [SampleLeg]), Registration(2, SampleIntent, [SampleLeg])]
    requires registered ==
             map[OrderId(1, 3) := NewOrder(1, 1, SampleLeg, 1), OrderId(2, 3) := NewOrder(2, 2, SampleLeg, 2)]
    ensures RegisteredFrom(registered, rs)
  {
    hide HasOrder, Cyclic, RegistrationOk, Accepts, LegsOf, EdgesOf, Authorised, BoundFor;
    SampleEdges();
    SampleIsAccepted(1);
    assert Arranged(SampleDrafts, SampleDrafts);
    AcceptedIsRegistrable(SampleIntent, SampleDrafts, 1, 50, 1);
    AcceptedIsRegistrable(SampleIntent, SampleDrafts, 1, 50, 2);
    assert rs[0].legs[0] == SampleLeg && rs[1].legs[0] == SampleLeg;
    assert OrderId(1, 3) == OrderId(rs[0].plan, rs[0].legs[0].id);
    assert OrderId(2, 3) == OrderId(rs[1].plan, rs[1].legs[0].id);
  }

  lemma SampleTotals(registered: map<OrderId, Order>, rs: seq<Registration>)
    requires rs == [Registration(1, SampleIntent, [SampleLeg]), Registration(2, SampleIntent, [SampleLeg])]
    requires RegisteredFrom(registered, rs) && Authorised(SampleIntent.legs, SampleBounds)
    ensures exists steps :: Run(Init(registered), steps).Some? &&
                            Total(Run(Init(registered), steps).value.store, rs, SampleIntent, 1) == 20
    ensures !NeverExceeds(registered, rs, SampleIntent, 1, 10)
  {
    hide Run, RegisteredFrom, Total, Authorised;
    SamplePlans(rs);
    RegistrationsAreOk(registered, rs);
    var steps := EverythingCanFill(registered, rs);
    RunsStore(registered, rs, steps);
    TotalWithinPlans(Run(Init(registered), steps).value.store, rs, SampleIntent, 1);
  }

  /** Two plans need not exceed the approved maximum: with 20 units approved, the same
      intent for 10 and the same two plans never fill more than 20. So the number of
      plans alone does not decide; plans times quantity does. */
  lemma TwoPlansMayFit(registered: map<OrderId, Order>, rs: seq<Registration>)
    requires rs == [Registration(1, SampleIntent, [SampleLeg]), Registration(2, SampleIntent, [SampleLeg])]
    requires RegisteredFrom(registered, rs)
    ensures var bounds := [Bound(1, Buy, 1, 20, 1)];
            && Authorised(SampleIntent.legs, bounds) && BoundFor(bounds, 1) == Some(bounds[0])
            && Plans(rs, SampleIntent, 1) == 2 && NeverExceeds(registered, rs, SampleIntent, 1, bounds[0].maximumUnits)
  {
    hide Run, RegisteredFrom, Total, NeverExceeds, Plans;
    var bounds := [Bound(1, Buy, 1, 20, 1)];
    assert BoundFor(bounds, 1) == Some(bounds[0]);
    assert Authorised(SampleIntent.legs, bounds);
    SamplePlans(rs);
    LimitHoldsExactly(registered, rs, SampleIntent, bounds, 1, 20);
  }

  lemma SamplePlans(rs: seq<Registration>)
    requires rs == [Registration(1, SampleIntent, [SampleLeg]), Registration(2, SampleIntent, [SampleLeg])]
    ensures Plans(rs, SampleIntent, 1) == 2 && Units(SampleIntent.legs, 1) == 10
  {
    assert [SampleLeg][0].instrument == 1;
    assert Trades([SampleLeg], 1);
    var first := rs[..1];
    assert first == [rs[0]] && first[..0] == [];
    assert Plans(first[..0], SampleIntent, 1) == 0;
    assert Plans(first, SampleIntent, 1) == 1;
  }
}
