/** Calls of the coordinator with nobody in the way, as runs of the step machine. */
module ExecutionRuns {
  import opened Wrappers
  import opened AccountingModel
  import opened OrderModel
  import opened OrderStore
  import opened ExecutionProtocol

  lemma {:induction false} RunAppend(s: State, a: seq<Step>, b: seq<Step>)
    requires Run(s, a).Some?
    ensures Run(s, a + b) == Run(Run(s, a).value, b)
  {
    hide Do;
    if b == [] {
      assert a + b == a;
    } else {
      var n := |b| - 1;
      assert (a + b)[..|a + b| - 1] == a + b[..n] && (a + b)[|a + b| - 1] == b[n];
      RunAppend(s, a, b[..n]);
    }
  }

  lemma RunOne(s: State, step: Step)
    ensures Run(s, [step]) == Do(s, step)
  {
    hide Do;
    assert [step][..0] == [];
  }

  /** A step after a run. */
  lemma RunThen(s: State, steps: seq<Step>, step: Step)
    requires Run(s, steps).Some?
    ensures Run(s, steps + [step]) == Do(Run(s, steps).value, step)
  {
    RunAppend(s, steps, [step]);
    RunOne(Run(s, steps).value, step);
  }

  /** Task t has nothing in hand and could reserve the order. */
  predicate Free(s: State, t: TaskId, id: OrderId) {
    && t in s.tasks && s.tasks[t].job.Idle? && !s.closed && id !in s.reserved && id in s.store.orders
  }

  /** The state in which task t holds the order and has reached a job with it. */
  function Held(s: State, t: TaskId, id: OrderId, job: Job): State
    requires t in s.tasks
  {
    WithJob(s, t, job).(reserved := s.reserved + {id})
  }

  lemma TakeOrder(s: State, t: TaskId, id: OrderId)
    requires Free(s, t, id)
    ensures Run(s, [Want(t, id), Reserve(t)]) == Some(Held(s, t, id, Holding(id)))
  {
    hide Publish, StatesOf, DependenciesFilled, PendingReport;
    var wanting := WithJob(s, t, Wanting(id));
    assert Do(s, Want(t, id)) == Some(wanting);
    assert Do(wanting, Reserve(t)).value.tasks == Held(s, t, id, Holding(id)).tasks;
    RunOne(s, Want(t, id));
    RunThen(s, [Want(t, id)], Reserve(t));
    assert [Want(t, id)] + [Reserve(t)] == [Want(t, id), Reserve(t)];
  }

  lemma GiveBack(s: State, t: TaskId, id: OrderId, store: Store, submissions: seq<Submission>)
    requires Free(s, t, id)
    ensures var held := Held(s, t, id, Holding(id)).(store := store, submissions := submissions);
            Do(held, Release(t)) == Some(s.(store := store, submissions := submissions))
  {
    hide Publish, StatesOf, DependenciesFilled, PendingReport;
    var held := Held(s, t, id, Holding(id)).(store := store, submissions := submissions);
    assert held.tasks[t := held.tasks[t].(job := Idle)] == s.tasks;
    assert held.reserved - {id} == s.reserved;
  }

  function Reports(t: TaskId, events: seq<Event>): seq<Step> {
    seq(|events|, i requires 0 <= i < |events| => PublishReport(t, events[i]))
  }

  /** A holder publishes a list of reports. */
  lemma {:induction false} HolderPublishes(s: State, t: TaskId, id: OrderId, events: seq<Event>)
    requires t in s.tasks && s.tasks[t].job == Holding(id) && PublishAll(s.store, events).Some?
    requires forall e <- events :: e.report.order == id && PositiveFill(e)
    ensures Run(s, Reports(t, events)) == Some(s.(store := PublishAll(s.store, events).value))
  {
    hide Do, Publish, PositiveFill;
    if events == [] {
      assert Reports(t, events) == [];
      assert s.(store := s.store) == s;
    } else {
      var n := |events| - 1;
      assert events[n] in events && forall e <- events[..n] :: e in events;
      HolderPublishes(s, t, id, events[..n]);
      assert Reports(t, events) == Reports(t, events[..n]) + [PublishReport(t, events[n])];
      RunThen(s, Reports(t, events[..n]), PublishReport(t, events[n]));
      PublishesOne(s.(store := PublishAll(s.store, events[..n]).value), t, id, events[n]);
    }
  }

  lemma PublishesOne(s: State, t: TaskId, id: OrderId, e: Event)
    requires t in s.tasks && s.tasks[t].job == Holding(id) && Publish(s.store, e).Ok?
    requires e.report.order == id && PositiveFill(e)
    ensures Do(s, PublishReport(t, e)) == Some(s.(store := Publish(s.store, e).value))
  {
    hide Publish;
  }

  function ReportSteps(t: TaskId, id: OrderId, events: seq<Event>): seq<Step> {
    [Want(t, id), Reserve(t)] + Reports(t, events) + [Release(t)]
  }

  /** A call that reserves an order, publishes and releases it. */
  lemma ReportRun(s: State, t: TaskId, id: OrderId, events: seq<Event>)
    requires Free(s, t, id) && PublishAll(s.store, events).Some?
    requires forall e <- events :: e.report.order == id && PositiveFill(e)
    ensures Run(s, ReportSteps(t, id, events)) == Some(s.(store := PublishAll(s.store, events).value))
  {
    hide Do, Run, PublishAll;
    TakeOrder(s, t, id);
    var held := Held(s, t, id, Holding(id));
    HolderPublishes(held, t, id, events);
    RunAppend(s, [Want(t, id), Reserve(t)], Reports(t, events));
    RunThen(s, [Want(t, id), Reserve(t)] + Reports(t, events), Release(t));
    GiveBack(s, t, id, PublishAll(s.store, events).value, s.submissions);
    assert held.(store := PublishAll(s.store, events).value) ==
           held.(store := PublishAll(s.store, events).value, submissions := s.submissions);
    assert s.(store := PublishAll(s.store, events).value) ==
           s.(store := PublishAll(s.store, events).value, submissions := s.submissions);
  }

  lemma {:induction false} PublishFirst(store: Store, e: Event, rest: seq<Event>)
    requires PublishAll(store, [e] + rest).Some?
    ensures Publish(store, e).Ok? && PublishAll(store, [e] + rest) == PublishAll(Publish(store, e).value, rest)
  {
    hide Publish;
    var all := [e] + rest;
    if rest == [] {
      assert all[..0] == [];
    } else {
      assert all[..|all| - 1] == [e] + rest[..|rest| - 1];
      PublishFirst(store, e, rest[..|rest| - 1]);
    }
  }

  function Sends(t: TaskId, n: nat): seq<Step> {
    seq(n, i => Send(t))
  }

  function Copies(id: OrderId, attempt: Attempt, n: nat): (asked: seq<Submission>)
    ensures |asked| == n
  {
    seq(n, i => Submission(id, attempt))
  }

  lemma SendsOne(s: State, t: TaskId, id: OrderId, attempt: Attempt)
    requires t in s.tasks && s.tasks[t].job == Sending(id, attempt)
    ensures Do(s, Send(t)) == Some(s.(submissions := s.submissions + [Submission(id, attempt)]))
  {
    hide Publish, StatesOf, DependenciesFilled, PendingReport;
  }

  lemma OneMoreSend(asked: seq<Submission>, t: TaskId, id: OrderId, attempt: Attempt, n: nat)
    ensures Sends(t, 0) == [] && asked + Copies(id, attempt, 0) == asked
    ensures Sends(t, n + 1) == Sends(t, n) + [Send(t)]
    ensures asked + Copies(id, attempt, n + 1) == asked + Copies(id, attempt, n) + [Submission(id, attempt)]
  {
  }

  lemma {:induction false} SenderSends(s: State, t: TaskId, id: OrderId, attempt: Attempt, n: nat)
    requires t in s.tasks && s.tasks[t].job == Sending(id, attempt)
    ensures Run(s, Sends(t, n)) == Some(s.(submissions := s.submissions + Copies(id, attempt, n)))
  {
    hide Do, Sends, Copies;
    if n == 0 {
      OneMoreSend(s.submissions, t, id, attempt, 0);
    } else {
      hide Run;
      SenderSends(s, t, id, attempt, n - 1);
      OneMoreSend(s.submissions, t, id, attempt, n - 1);
      RunThen(s, Sends(t, n - 1), Send(t));
      SendsOne(s.(submissions := s.submissions + Copies(id, attempt, n - 1)), t, id, attempt);
    }
  }

  /** The order may be submitted by task t: PLANNED, and what it waits for FILLED in
      the task's copy. */
  predicate MaySubmit(s: State, t: TaskId, id: OrderId) {
    && Free(s, t, id) && s.store.orders[id].id == id && s.store.orders[id].state == Planned
    && DependenciesFilled(s.store.orders[id], s.tasks[t].seen)
  }

  function AttemptAt(store: Store, id: OrderId, at: Instant): Attempt
    requires id in store.orders
  {
    Attempt(id, store.orders[id].revision, at)
  }

  function Opening(t: TaskId, id: OrderId, at: Instant, pending: Event): seq<Step> {
    [Want(t, id), Reserve(t)] + [CheckPlanned(t, at)] + [PublishPending(t, pending)]
  }

  /** Up to the announcement of the attempt. */
  lemma AnnounceRun(s: State, t: TaskId, id: OrderId, at: Instant, pending: Event)
    requires MaySubmit(s, t, id) && PendingReport(pending, s.store.orders[id], AttemptAt(s.store, id, at))
    requires Publish(s.store, pending).Ok?
    ensures Run(s, Opening(t, id, at, pending)) ==
            Some(Held(s, t, id, Sending(id, AttemptAt(s.store, id, at))).(store := Publish(s.store, pending).value))
  {
    hide Publish, StatesOf, DependenciesFilled, PendingReport, Run;
    TakeOrder(s, t, id);
    var holding := Held(s, t, id, Holding(id));
    var checked := Held(s, t, id, Checked(id, AttemptAt(s.store, id, at)));
    assert Do(holding, CheckPlanned(t, at)).value.tasks == checked.tasks;
    RunThen(s, [Want(t, id), Reserve(t)], CheckPlanned(t, at));
    RunThen(s, [Want(t, id), Reserve(t)] + [CheckPlanned(t, at)], PublishPending(t, pending));
    var sending := Held(s, t, id, Sending(id, AttemptAt(s.store, id, at))).(store := Publish(s.store, pending).value);
    assert Do(checked, PublishPending(t, pending)).value.tasks == sending.tasks;
  }

  function SubmitSteps(t: TaskId, id: OrderId, at: Instant, pending: Event, calls: nat,
                       replies: seq<Event>): seq<Step> {
    Opening(t, id, at, pending) + Sends(t, calls) + [StopSending(t)] + Reports(t, replies) + [Release(t)]
  }

  /** An undisturbed submission is a run: reserve, check, announce, call the broker
      any number of times, publish what came of it, release. */
  lemma SubmitRun(s: State, t: TaskId, id: OrderId, at: Instant, pending: Event, calls: nat, replies: seq<Event>)
    requires MaySubmit(s, t, id) && PendingReport(pending, s.store.orders[id], AttemptAt(s.store, id, at))
    requires PublishAll(s.store, [pending] + replies).Some?
    requires forall e <- replies :: e.report.order == id && PositiveFill(e)
    ensures Run(s, SubmitSteps(t, id, at, pending, calls, replies)) ==
            Some(s.(store := PublishAll(s.store, [pending] + replies).value,
                    submissions := s.submissions + Copies(id, AttemptAt(s.store, id, at), calls)))
  {
    hide Publish, PublishAll, PendingReport, Run, Do, MaySubmit, Opening, Sends, Reports, Copies;
    MaySubmitIsFree(s, t, id);
    var attempt := AttemptAt(s.store, id, at);
    PublishFirst(s.store, pending, replies);
    AnnounceRun(s, t, id, at, pending);
    var sending := Held(s, t, id, Sending(id, attempt)).(store := Publish(s.store, pending).value);
    SenderSends(sending, t, id, attempt, calls);
    RunAppend(s, Opening(t, id, at, pending), Sends(t, calls));
    var sent := sending.(submissions := s.submissions + Copies(id, attempt, calls));
    Stops(sent, t, id, attempt);
    RunThen(s, Opening(t, id, at, pending) + Sends(t, calls), StopSending(t));
    var holding := WithJob(sent, t, Holding(id));
    HolderPublishes(holding, t, id, replies);
    RunAppend(s, Opening(t, id, at, pending) + Sends(t, calls) + [StopSending(t)], Reports(t, replies));
    var store := PublishAll(s.store, [pending] + replies).value;
    var last := Held(s, t, id, Holding(id)).(store := store, submissions := s.submissions + Copies(id, attempt, calls));
    assert holding.(store := store).tasks == last.tasks;
    RunThen(s, Opening(t, id, at, pending) + Sends(t, calls) + [StopSending(t)] + Reports(t, replies), Release(t));
    GiveBack(s, t, id, store, s.submissions + Copies(id, attempt, calls));
  }

  lemma MaySubmitIsFree(s: State, t: TaskId, id: OrderId)
    requires MaySubmit(s, t, id)
    ensures Free(s, t, id)
  {
  }

  lemma Stops(s: State, t: TaskId, id: OrderId, attempt: Attempt)
    requires t in s.tasks && s.tasks[t].job == Sending(id, attempt)
    ensures Do(s, StopSending(t)) == Some(WithJob(s, t, Holding(id)))
  {
    hide Publish, StatesOf, DependenciesFilled, PendingReport;
  }

  /** What a submission did, told from the stores before and after: nothing, or it
      appended reports about the order alone, the SUBMISSION_PENDING report of the
      attempt first, and asked the broker under that attempt. */
  predicate SubmitEffect(before: Store, asked: seq<Submission>, after: Store, asked': seq<Submission>, id: OrderId,
                         at: Instant)
    requires id in before.orders
  {
    || (after == before && asked' == asked)
    || (&& before.orders[id].state == Planned && |before.log| < |after.log|
        && PublishAll(before, after.log[|before.log|..]) == Some(after)
        && PendingReport(after.log[|before.log|], before.orders[id], AttemptAt(before, id, at))
        && (forall e <- after.log[|before.log|..] :: e.report.order == id && PositiveFill(e))
        && |asked| <= |asked'| && asked' == asked + Copies(id, AttemptAt(before, id, at), |asked'| - |asked|))
  }

  /** The link from the coordinator object to the step machine: whatever an
      undisturbed submission did, some run of the machine does. */
  lemma SubmitEffectIsRun(s: State, t: TaskId, id: OrderId, at: Instant, after: Store, asked: seq<Submission>)
    returns (steps: seq<Step>)
    requires Free(s, t, id) && s.store.orders[id].id == id && DependenciesFilled(s.store.orders[id], s.tasks[t].seen)
    requires SubmitEffect(s.store, s.submissions, after, asked, id, at)
    ensures Run(s, steps) == Some(s.(store := after, submissions := asked))
  {
    if after == s.store && asked == s.submissions {
      return [];
    }
    hide Run, PublishAll, DependenciesFilled, PendingReport;
    var added := after.log[|s.store.log|..];
    assert added == [added[0]] + added[1..] && forall e <- added[1..] :: e in added;
    SubmitRun(s, t, id, at, added[0], |asked| - |s.submissions|, added[1..]);
    steps := SubmitSteps(t, id, at, added[0], |asked| - |s.submissions|, added[1..]);
  }

  lemma PublishAccepts(store: Store, e: Event, next: Order)
    requires !ReportUsed(store.log, e.report.id) && e.report.order in store.orders
    requires ApplyReport(store.orders[e.report.order], e.report, e.fill) == Ok(next)
    requires e.fill.Some? ==> !FillUsed(store.log, e.fill.value.id)
    ensures Publish(store, e) == Ok(store.(orders := store.orders[e.report.order := next], log := store.log + [e]))
  {
    hide ApplyReport;
    assert !Replays(store, e);
  }

  lemma PublishOne(store: Store, e: Event)
    requires Publish(store, e).Ok?
    ensures PublishAll(store, [e]) == Some(Publish(store, e).value)
  {
    hide Publish;
    assert [e][..0] == [];
  }

  lemma PublishTwo(store: Store, a: Event, b: Event)
    requires Publish(store, a).Ok? && Publish(Publish(store, a).value, b).Ok?
    ensures PublishAll(store, [a] + [b]) == Some(Publish(Publish(store, a).value, b).value)
  {
    hide Publish;
    PublishOne(store, a);
    assert ([a] + [b])[..1] == [a];
  }

  /** The broker can always name an event and a fill that it has not named before. */
  lemma {:induction false} FreshNames(log: seq<Event>) returns (event: string, fill: nat)
    ensures forall i :: 0 <= i < |log| && log[i].report.id.BrokerEvent? ==> |log[i].report.id.event| < |event|
    ensures forall i :: 0 <= i < |log| && log[i].fill.Some? ==> log[i].fill.value.id < fill
  {
    if log == [] {
      return "", 0;
    }
    var n := |log| - 1;
    event, fill := FreshNames(log[..n]);
    assert forall i :: 0 <= i < n ==> log[..n][i] == log[i];
    if log[n].report.id.BrokerEvent? && |log[n].report.id.event| >= |event| {
      event := log[n].report.id.event + "x";
    }
    if log[n].fill.Some? && log[n].fill.value.id >= fill {
      fill := log[n].fill.value.id + 1;
    }
  }

  /** The leak: a task that reserves an order and, its report having failed, releases
      another identity, leaves the order reserved and unheld. */
  lemma LeakRun(s: State, t: TaskId, id: OrderId)
    requires Free(s, t, id) && Exclusive(s)
    ensures Run(s, [Want(t, id), Reserve(t)] + [AbandonReservation(t)]) == Some(s.(reserved := s.reserved + {id}))
    ensures Abandoned(s.(reserved := s.reserved + {id}), id)
  {
    hide Publish, StatesOf, DependenciesFilled, PendingReport, Run;
    TakeOrder(s, t, id);
    var held := Held(s, t, id, Holding(id));
    RunThen(s, [Want(t, id), Reserve(t)], AbandonReservation(t));
    assert held.tasks[t := held.tasks[t].(job := Idle)] == s.tasks;
  }
}
