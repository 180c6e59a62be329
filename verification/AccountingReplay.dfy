/** One ApplyFill call with nobody else in the way, the coordinator object it runs
    on, and the replay of a whole batch of fills. */
module AccountingCalls {
  import opened Wrappers
  import opened AccountingModel
  import opened AccountingEngine
  import opened PositionStore
  import opened AccountingProtocol

  datatype Status = NewlyCommitted | IdempotentReplay

  datatype Receipt = Receipt(status: Status, position: PositionId, fill: FillId)

  datatype CallError =
    | InvalidFill | FillCollision | ShutDown | DuplicateInProgress | PositionBusy | BuildFailed(error: BuildError)
    | PublishFailed(reason: PublishError)

  /** The same record is committed already. */
  predicate Recorded(store: Store, fill: Fill) {
    var pubs := Committed(store, fill.position);
    exists i :: 0 <= i < |pubs| && pubs[i].fill == fill
  }

  /** Build from the current checkpoint and append. */
  function CommitFill(store: Store, fill: Fill): (Store, Result<Receipt, CallError>) {
    match Build(Current(store, fill.position), fill)
    case Err(e) => (store, Err(BuildFailed(e)))
    case Ok(p) =>
      match Publish(store, p)
      case Err(e) => (store, Err(PublishFailed(e)))
      case Ok(store') => (store', Ok(Receipt(NewlyCommitted, fill.position, fill.id)))
  }

  /** The store after a call, and its answer. */
  function ApplyFill(store: Store, fill: Fill): (Store, Result<Receipt, CallError>) {
    if fill.Unset() then (store, Err(InvalidFill))
    else if Recorded(store, fill) then (store, Ok(Receipt(IdempotentReplay, fill.position, fill.id)))
    else if IdentityUsed(store, fill.id) then (store, Err(FillCollision))
    else CommitFill(store, fill)
  }

  /** What an answer means. Newly committed: the fill's publication, and nothing else,
      was appended to its position. Replayed: the very record was there, and stays. A
      collision: its identity belongs to another record. Every other answer leaves the
      store alone. */
  lemma AnswersMean(store: Store, fill: Fill)
    requires Consistent(store)
    ensures var (after, answer) := ApplyFill(store, fill);
            && (answer.Ok? ==> answer.value.position == fill.position && answer.value.fill == fill.id)
            && (answer.Ok? && answer.value.status == NewlyCommitted <==> after != store)
            && (answer.Ok? && answer.value.status == IdempotentReplay <==> !fill.Unset() && Recorded(store, fill))
            && (answer == Err(FillCollision) <==>
                  !fill.Unset() && IdentityUsed(store, fill.id) && !Recorded(store, fill))
            && (answer == Err(InvalidFill) <==> fill.Unset())
            && (after != store ==>
                  && Fills(Committed(after, fill.position)) == Fills(Committed(store, fill.position)) + [fill]
                  && forall other :: other != fill.position ==> Committed(after, other) == Committed(store, other))
  {
    hide Build, Chained, OnePositionPerFill, DistinctFills;
    var built := Build(Current(store, fill.position), fill);
    if built.Ok? {
      var p := built.value;
      BuildKeepsFill(Current(store, fill.position), fill, p);
      if Publish(store, p).Ok? {
        var before, after := Committed(store, fill.position), Committed(Publish(store, p).value, fill.position);
        assert after == before + [p] && |after| != |before|;
        assert Fills(before + [p]) == Fills(before) + [fill];
      }
    }
  }

  lemma BuildKeepsFill(seen: Option<Checkpoint>, fill: Fill, p: Publication)
    requires Build(seen, fill) == Ok(p)
    ensures p.fill == fill
  {
    hide Apply;
  }

  /** What the reservation table answers to a caller. */
  function Refusal(closed: bool, running: map<PositionId, Fill>, fill: Fill): Option<CallError> {
    if closed then Some(ShutDown)
    else if fill.position in running then
      Some(if running[fill.position] == fill then DuplicateInProgress else PositionBusy)
    else None
  }

  /** The coordinator object: its repository, its reservation table keyed by
      position, the in-flight count and the shutdown flag. */
  class Coordinator {
    var store: Store
    var running: map<PositionId, Fill>
    var inFlight: int
    var closed: bool

    /** The count that health reports is the number of reserved positions. */
    ghost predicate Valid()
      reads this
    {
      inFlight == |running|
    }

    constructor (store: Store)
      ensures Valid() && this.store == store && running == map[] && !closed
    {
      this.store, running, inFlight, closed := store, map[], 0, false;
    }

    method Reserve(fill: Fill) returns (refused: Option<CallError>)
      requires Valid()
      modifies this`running, this`inFlight
      ensures Valid()
      ensures refused == Refusal(closed, old(running), fill)
      ensures refused == Some(ShutDown) <==> closed
      ensures refused == Some(DuplicateInProgress) <==>
                !closed && fill.position in old(running) && old(running)[fill.position] == fill
      ensures refused == Some(PositionBusy) <==>
                !closed && fill.position in old(running) && old(running)[fill.position] != fill
      ensures refused.None? <==> !closed && fill.position !in old(running)
      ensures running == if refused.Some? then old(running) else old(running)[fill.position := fill]
    {
      refused := Refusal(closed, running, fill);
      if refused.None? {
        running := running[fill.position := fill];
        inFlight := inFlight + 1;
      }
    }

    method Release(position: PositionId)
      requires Valid() && position in running
      modifies this`running, this`inFlight
      ensures Valid() && running == old(running) - {position}
    {
      running := running - {position};
      inFlight := inFlight - 1;
    }

    /** After it every call that would reserve is refused as shut down, whatever is
        in flight. */
    method Shutdown()
      modifies this`closed
      ensures forall fill: Fill :: Refusal(closed, running, fill) == Some(ShutDown)
    {
      closed := true;
    }

    /** A call that runs to completion. Whatever it answers, it leaves the
        reservation table as it found it. */
    method Apply(fill: Fill) returns (answer: Result<Receipt, CallError>)
      requires Valid()
      modifies this
      ensures Valid() && running == old(running) && inFlight == old(inFlight) && closed == old(closed)
      ensures fill.Unset() || Recorded(old(store), fill) || IdentityUsed(old(store), fill.id) ||
              Refusal(closed, old(running), fill).None? ==>
                (store, answer) == ApplyFill(old(store), fill)
      ensures !fill.Unset() && !Recorded(old(store), fill) && !IdentityUsed(old(store), fill.id) &&
              Refusal(closed, old(running), fill).Some? ==>
                store == old(store) && answer == Err(Refusal(closed, old(running), fill).value)
    {
      if fill.Unset() {
        return Err(InvalidFill);
      }
      if Recorded(store, fill) {
        return Ok(Receipt(IdempotentReplay, fill.position, fill.id));
      }
      if IdentityUsed(store, fill.id) {
        return Err(FillCollision);
      }
      var refused := Reserve(fill);
      if refused.Some? {
        return Err(refused.value);
      }
      var (next, result) := CommitFill(store, fill);
      store, answer := next, result;
      Release(fill.position);
    }
  }

  /** A call is the five steps of the protocol taken one after the other: when its
      slot is free and its coordinator open, the step machine ends in the store
      that ApplyFill computes, with the reservation table and the other callers as
      they were. */
  lemma CallIsFiveSteps(s: State, id: CallerId, c: CoordinatorId, fill: Fill)
    requires id !in s.callers && fill.Valid() && c !in s.closed && (c, fill.position) !in s.running
    requires !Recorded(s.store, fill) && !IdentityUsed(s.store, fill.id)
    requires Build(Current(s.store, fill.position), fill).Ok?
    ensures Run(s, [Begin(id, c, fill), Reserve(id), Load(id), Prepare(id), Commit(id)]) ==
            Some(s.(store := ApplyFill(s.store, fill).0))
  {
    hide Build, Publish, Current, Do;
    var seen := Current(s.store, fill.position);
    var p := Build(seen, fill).value;
    var begun := With(s, id, c, Searched(fill), s.running);
    var held := s.running[(c, fill.position) := fill];
    var loaded := With(s, id, c, Loaded(fill, seen), held);
    var ready := With(s, id, c, Ready(fill, seen, p), held);
    TakeThree(s, id, c, fill);
    TakeTwo(s, id, c, fill);
    var last := [Commit(id)];
    var lastTwo := [Prepare(id), Commit(id)];
    var lastThree := [Load(id), Prepare(id), Commit(id)];
    var lastFour := [Reserve(id), Load(id), Prepare(id), Commit(id)];
    assert [Begin(id, c, fill)] + lastFour == [Begin(id, c, fill), Reserve(id), Load(id), Prepare(id), Commit(id)];
    assert [Reserve(id)] + lastThree == lastFour;
    assert [Load(id)] + lastTwo == lastThree;
    assert [Prepare(id)] + last == lastTwo;
    assert last + [] == last;
    RunCons(s, Begin(id, c, fill), lastFour);
    RunCons(begun, Reserve(id), lastThree);
    RunCons(With(s, id, c, Holding(fill), held), Load(id), lastTwo);
    RunCons(loaded, Prepare(id), last);
    RunCons(ready, Commit(id), []);
  }

  /** The state in which caller `id` has reached `phase`. */
  function With(s: State, id: CallerId, c: CoordinatorId, phase: Phase,
                running: map<(CoordinatorId, PositionId), Fill>): State
  {
    State(s.store, running, s.closed, s.callers[id := Caller(c, phase)])
  }

  lemma TakeThree(s: State, id: CallerId, c: CoordinatorId, fill: Fill)
    requires id !in s.callers && fill.Valid() && c !in s.closed && (c, fill.position) !in s.running
    ensures var begun, held := With(s, id, c, Searched(fill), s.running), s.running[(c, fill.position) := fill];
            && Do(s, Begin(id, c, fill)) == Some(begun)
            && Do(begun, Reserve(id)) == Some(With(s, id, c, Holding(fill), held))
            && Do(With(s, id, c, Holding(fill), held), Load(id)) ==
               Some(With(s, id, c, Loaded(fill, Current(s.store, fill.position)), held))
  {
    hide Build, Publish, Current;
    var begun, held := With(s, id, c, Searched(fill), s.running), s.running[(c, fill.position) := fill];
    var holding := With(s, id, c, Holding(fill), held);
    assert Do(begun, Reserve(id)).value.callers == holding.callers;
    assert Do(holding, Load(id)).value.callers ==
           s.callers[id := Caller(c, Loaded(fill, Current(s.store, fill.position)))];
  }

  lemma TakeTwo(s: State, id: CallerId, c: CoordinatorId, fill: Fill)
    requires id !in s.callers && fill.Valid() && (c, fill.position) !in s.running
    requires !Recorded(s.store, fill) && !IdentityUsed(s.store, fill.id)
    requires Build(Current(s.store, fill.position), fill).Ok?
    ensures var seen, held := Current(s.store, fill.position), s.running[(c, fill.position) := fill];
            var ready := With(s, id, c, Ready(fill, seen, Build(seen, fill).value), held);
            && Do(With(s, id, c, Loaded(fill, seen), held), Prepare(id)) == Some(ready)
            && Do(ready, Commit(id)) == Some(s.(store := ApplyFill(s.store, fill).0))
  {
    hide Build, Publish, Current;
    var seen, held := Current(s.store, fill.position), s.running[(c, fill.position) := fill];
    var p := Build(seen, fill).value;
    var ready := With(s, id, c, Ready(fill, seen, p), held);
    assert Do(With(s, id, c, Loaded(fill, seen), held), Prepare(id)).value.callers == ready.callers;
    assert ready.callers - {id} == s.callers;
    assert held - {(c, fill.position)} == s.running;
  }

  lemma {:induction false} RunCons(s: State, step: Step, rest: seq<Step>)
    ensures Run(s, [step] + rest) == if Do(s, step).None? then None else Run(Do(s, step).value, rest)
  {
    hide Do;
    var all := [step] + rest;
    if rest == [] {
      assert all[..0] == [];
    } else {
      assert all[..|all| - 1] == [step] + rest[..|rest| - 1];
      RunCons(s, step, rest[..|rest| - 1]);
    }
  }
}

/** Replaying a batch: sort it canonically, then apply fill by fill. */
module AccountingReplay {
  import opened Wrappers
  import opened AccountingModel
  import opened AccountingEngine
  import opened PositionStore
  import opened AccountingCalls
  import opened Sorting

  datatype ReplayError = InvalidReplay | Call(error: CallError)

  predicate Less(a: Fill, b: Fill) {
    a.position.Before(b.position) || (a.position == b.position && a.Key().Compare(b.Key()) < 0)
  }

  lemma LessIsStrictOrder()
    ensures StrictOrder(Less)
  {
    forall a, b, c | Less(a, b) && Less(b, c) ensures Less(a, c) {
      CompareIsTotalOrder(a.Key(), b.Key(), c.Key());
    }
  }

  /** Applies the fills in order and stops at the first error. */
  function ApplyAll(store: Store, fills: seq<Fill>): (Store, Result<seq<Receipt>, CallError>) {
    if fills == [] then (store, Ok([])) else
    var n := |fills| - 1;
    var (mid, before) := ApplyAll(store, fills[..n]);
    if before.Err? then (mid, before) else
    var (next, answer) := ApplyFill(mid, fills[n]);
    match answer
    case Err(e) => (next, Err(e))
    case Ok(receipt) => (next, Ok(before.value + [receipt]))
  }

  predicate NoneUnset(fills: seq<Fill>) {
    forall fill <- fills :: !fill.Unset()
  }

  /** Sorts a copy of the batch and applies it on the coordinator. */
  method Replay(coordinator: Coordinator, fills: seq<Fill>) returns (result: Result<seq<Receipt>, ReplayError>,
                                                                     ghost ordered: seq<Fill>)
    requires coordinator.Valid() && coordinator.running == map[] && !coordinator.closed
    modifies coordinator
    ensures !NoneUnset(fills) ==> result == Err(InvalidReplay) && coordinator.store == old(coordinator.store)
    ensures NoneUnset(fills) ==>
              && Sorted(Less, ordered) && multiset(ordered) == multiset(fills)
              && coordinator.store == ApplyAll(old(coordinator.store), ordered).0
              && (match ApplyAll(old(coordinator.store), ordered).1
                  case Ok(receipts) => result == Ok(receipts)
                  case Err(e) => result == Err(Call(e)))
    ensures coordinator.Valid() && coordinator.running == map[] && !coordinator.closed
  {
    ordered := [];
    if exists fill <- fills :: fill.Unset() {
      return Err(InvalidReplay), [];
    }
    LessIsStrictOrder();
    var sorted := Sort(Less, fills);
    ordered := sorted;
    var receipts: seq<Receipt> := [];
    for i := 0 to |sorted|
      invariant coordinator.Valid() && coordinator.running == map[] && !coordinator.closed
      invariant ApplyAll(old(coordinator.store), sorted[..i]) == (coordinator.store, Ok(receipts))
    {
      assert sorted[..i + 1][..i] == sorted[..i];
      var answer := coordinator.Apply(sorted[i]);
      if answer.Err? {
        assert ApplyAll(old(coordinator.store), sorted[..i + 1]) == (coordinator.store, Err(answer.error));
        StopsAtFirstError(old(coordinator.store), sorted, i + 1);
        return Err(Call(answer.error)), sorted;
      }
      receipts := receipts + [answer.value];
    }
    assert sorted[..|sorted|] == sorted;
    result := Ok(receipts);
  }

  lemma {:induction false} StopsAtFirstError(store: Store, fills: seq<Fill>, n: nat)
    requires n <= |fills| && ApplyAll(store, fills[..n]).1.Err?
    ensures ApplyAll(store, fills) == ApplyAll(store, fills[..n])
    decreases |fills|
  {
    hide ApplyFill;
    if n == |fills| {
      assert fills[..n] == fills;
    } else {
      assert fills[..|fills| - 1][..n] == fills[..n];
      StopsAtFirstError(store, fills[..|fills| - 1], n);
    }
  }

  /** Fills of one position in canonical order, each once. */
  predicate Increasing(fills: seq<Fill>) {
    forall i, j :: 0 <= i < j < |fills| ==> fills[i].Key().Compare(fills[j].Key()) < 0
  }

  function InsertKey(fills: seq<Fill>, fill: Fill): seq<Fill> {
    if fills == [] then [fill] else
    var c := fill.Key().Compare(fills[0].Key());
    if c < 0 then [fill] + fills else if c == 0 then fills else [fills[0]] + InsertKey(fills[1..], fill)
  }

  /** The canonical history of a position within a batch. */
  function Canonical(fills: seq<Fill>, position: PositionId): seq<Fill> {
    if fills == [] then [] else
    var rest := Canonical(fills[1..], position);
    if fills[0].position == position then InsertKey(rest, fills[0]) else rest
  }

  /** One identity names one record. */
  predicate OneRecordPerId(fills: seq<Fill>) {
    forall f, g :: f in fills && g in fills && f.id == g.id ==> f == g
  }

  lemma {:induction false} InsertKeyInserts(fills: seq<Fill>, fill: Fill)
    requires Increasing(fills) && forall f :: f in fills && f.id == fill.id ==> f == fill
    ensures Increasing(InsertKey(fills, fill))
    ensures forall f :: f in InsertKey(fills, fill) <==> f in fills || f == fill
  {
    if fills != [] {
      var head, tail := fills[0], fills[1..];
      assert fills == [head] + tail;
      var c := fill.Key().Compare(head.Key());
      if c < 0 {
        forall j | 1 <= j < |fills| ensures fill.Key().Compare(fills[j].Key()) < 0 {
          CompareIsTotalOrder(fill.Key(), head.Key(), fills[j].Key());
        }
      } else if c > 0 {
        InsertKeyInserts(tail, fill);
        CompareIsTotalOrder(fill.Key(), head.Key(), head.Key());
        var rest := InsertKey(tail, fill);
        forall j | 0 <= j < |rest| ensures head.Key().Compare(rest[j].Key()) < 0 {
          assert rest[j] in tail || rest[j] == fill;
        }
      }
    }
  }

  /** Canonical lists exactly the batch's fills of the position, in order. */
  lemma {:induction false} CanonicalIsCanonical(fills: seq<Fill>, position: PositionId)
    requires OneRecordPerId(fills)
    ensures Increasing(Canonical(fills, position))
    ensures forall f :: f in Canonical(fills, position) <==> f in fills && f.position == position
  {
    if fills != [] {
      assert fills == [fills[0]] + fills[1..];
      CanonicalIsCanonical(fills[1..], position);
      if fills[0].position == position {
        InsertKeyInserts(Canonical(fills[1..], position), fills[0]);
      }
    }
  }

  /** Two canonical lists of the same fills are the same list, so Canonical does
      not depend on the order or the repetitions of the batch. */
  lemma {:induction false} IncreasingIsUnique(a: seq<Fill>, b: seq<Fill>)
    requires Increasing(a) && Increasing(b) && forall f :: f in a <==> f in b
    ensures a == b
  {
    assert (a != [] ==> a[0] in b) && (b != [] ==> b[0] in a);
    if a != [] {
      var i :| 0 <= i < |b| && b[i] == a[0];
      var j :| 0 <= j < |a| && a[j] == b[0];
      if i > 0 && j > 0 {
        CompareIsTotalOrder(a[0].Key(), b[0].Key(), a[0].Key());
        assert false;
      }
      assert a[0] == b[0];
      assert a == [a[0]] + a[1..] && b == [b[0]] + b[1..];
      forall f ensures f in a[1..] <==> f in b[1..] {
        HeadIsNotInTail(a, f);
        HeadIsNotInTail(b, f);
      }
      IncreasingIsUnique(a[1..], b[1..]);
    }
  }

  lemma HeadIsNotInTail(a: seq<Fill>, f: Fill)
    requires Increasing(a) && a != []
    ensures f in a[1..] <==> f in a && f != a[0]
  {
    assert a == [a[0]] + a[1..];
    if f in a[1..] {
      var i :| 0 <= i < |a[1..]| && a[1..][i] == f;
      assert a[0].Key().Compare(a[i + 1].Key()) < 0;
    }
  }

  lemma {:induction false} HistoryPrefix(fills: seq<Fill>, n: nat)
    requires n <= |fills| && History(fills).Ok?
    ensures History(fills[..n]).Ok?
    decreases |fills|
  {
    hide Apply;
    if n < |fills| {
      assert fills[..|fills| - 1][..n] == fills[..n];
      HistoryPrefix(fills[..|fills| - 1], n);
    } else {
      assert fills[..n] == fills;
    }
  }

  /** A committed chain whose fills are the first m of a history that folds
      without error accepts the next one, and then holds the first m + 1. */
  lemma NextFillCommits(store: Store, target: seq<Fill>, m: nat)
    requires Consistent(store) && m < |target| && AllValid(target) && History(target).Ok?
    requires Fills(Committed(store, target[m].position)) == target[..m]
    requires !IdentityUsed(store, target[m].id)
    ensures var fill := target[m];
            var (next, answer) := ApplyFill(store, fill);
            && answer.Ok? && Consistent(next) && Fills(Committed(next, fill.position)) == target[..m + 1]
            && forall other :: other != fill.position ==> Committed(next, other) == Committed(store, other)
  {
    hide Build, Apply, Publish, History, SeenOk, Chained, DistinctFills, OnePositionPerFill, Current;
    var fill := target[m];
    var pubs := Committed(store, fill.position);
    assert !AlreadyPublished(pubs, fill.id);
    NextFillBuilds(store, target, m);
    CurrentIsSeenOk(store, fill.position);
    var p := Build(Current(store, fill.position), fill).value;
    PublishOverCurrent(store, p);
    PublishExtendsChain(store, Current(store, fill.position), p);
    PublishAppends(store, p);
    assert !Recorded(store, fill);
    assert Fills(pubs + [p]) == Fills(pubs) + [fill];
    assert target[..m + 1] == target[..m] + [fill];
  }

  lemma NextFillBuilds(store: Store, target: seq<Fill>, m: nat)
    requires Consistent(store) && m < |target| && AllValid(target) && History(target).Ok?
    requires Fills(Committed(store, target[m].position)) == target[..m]
    ensures Build(Current(store, target[m].position), target[m]).Ok?
    ensures Build(Current(store, target[m].position), target[m]).value.fill == target[m]
  {
    hide Build, Apply, History, Chained, DistinctFills, OnePositionPerFill;
    var fill := target[m];
    var seen := Current(store, fill.position);
    EmptyIsChained(fill.position);
    ChainIsHistory(fill.position, Committed(store, fill.position));
    CurrentIsSeenOk(store, fill.position);
    NextFillApplies(target, m, SnapshotAt(seen));
    BuildNeverRefusesWhatApplyAccepts(seen, fill);
  }

  lemma PublishAppends(store: Store, p: Publication)
    requires Publish(store, p).Ok?
    ensures var next := Publish(store, p).value;
            && Committed(next, p.fill.position) == Committed(store, p.fill.position) + [p]
            && forall other :: other != p.fill.position ==> Committed(next, other) == Committed(store, other)
  {
  }

  lemma NextFillApplies(target: seq<Fill>, m: nat, before: Option<Snapshot>)
    requires m < |target| && History(target).Ok? && History(target[..m]) == Ok(before)
    ensures Apply(before, target[m]).Ok?
  {
    hide Apply;
    HistoryPrefix(target, m + 1);
    assert target[..m + 1][..m] == target[..m];
  }

  /** No committed record contradicts the batch: a shared identity is a shared
      record. */
  ghost predicate AgreesWith(store: Store, fills: seq<Fill>) {
    forall position, i, f {:trigger Committed(store, position)[i], f in fills} ::
      0 <= i < |Committed(store, position)| && f in fills && Committed(store, position)[i].fill.id == f.id ==>
        Committed(store, position)[i].fill == f
  }

  /** Each position that the batch touches holds a prefix of its canonical
      history, none of it or all of it included. */
  predicate HoldsPrefixes(store: Store, fills: seq<Fill>) {
    forall f <- fills :: Fills(Committed(store, f.position)) <= Canonical(fills, f.position)
  }

  predicate FoldsWithoutError(fills: seq<Fill>) {
    forall f <- fills :: History(Canonical(fills, f.position)).Ok?
  }

  /** How far a replay has come: the first k fills are recorded. */
  ghost predicate Progress(start: Store, store: Store, fills: seq<Fill>, ordered: seq<Fill>, k: nat)
    requires k <= |ordered|
  {
    && Consistent(store) && AgreesWith(store, fills) && HoldsPrefixes(store, fills)
    && (forall i :: 0 <= i < k ==> Recorded(store, ordered[i]))
    && (forall position :: (forall f <- fills :: f.position != position) ==>
          Committed(store, position) == Committed(start, position))
  }

  /** The conditions on a batch: valid fills, one record per identity, and
      canonical histories that fold without overflow or currency clash. */
  ghost predicate Replayable(store: Store, fills: seq<Fill>) {
    && Consistent(store) && AllValid(fills) && OneRecordPerId(fills) && AgreesWith(store, fills)
    && HoldsPrefixes(store, fills) && FoldsWithoutError(fills)
  }

  lemma UsedIsRecorded(store: Store, fills: seq<Fill>, f: Fill)
    requires Consistent(store) && AgreesWith(store, fills) && f in fills && IdentityUsed(store, f.id)
    ensures Recorded(store, f)
  {
    hide Build;
    var position :| position in store && AlreadyPublished(store[position], f.id);
    var i :| 0 <= i < |store[position]| && store[position][i].fill.id == f.id;
    assert Committed(store, position)[i].fill == f;
  }

  /** In sorted order, a fill that is not recorded yet is the very next one of its
      canonical history. */
  lemma NextIsHead(start: Store, store: Store, fills: seq<Fill>, ordered: seq<Fill>, k: nat)
    requires k < |ordered| && Sorted(Less, ordered) && multiset(ordered) == multiset(fills) && OneRecordPerId(fills)
    requires Progress(start, store, fills, ordered, k) && !Recorded(store, ordered[k])
    ensures var f := ordered[k];
            var target, m := Canonical(fills, f.position), |Fills(Committed(store, f.position))|;
            m < |target| && target[m] == f && Fills(Committed(store, f.position)) == target[..m]
  {
    hide Build, Consistent, Fills, Recorded, AgreesWith, Committed, Canonical;
    var f := ordered[k];
    var target, m := Canonical(fills, f.position), |Fills(Committed(store, f.position))|;
    assert f in multiset(fills);
    CanonicalIsCanonical(fills, f.position);
    assert Fills(Committed(store, f.position)) == target[..m];
    var j :| 0 <= j < |target| && target[j] == f;
    RecordedIsMember(store, f);
    PrefixMembership(target, m, j);
    if j > m {
      var g := target[m];
      assert g in target && g in multiset(ordered);
      var i :| 0 <= i < |ordered| && ordered[i] == g;
      assert Less(g, f);
      CompareIsTotalOrder(g.Key(), f.Key(), g.Key());
      assert i < k;
      RecordedIsMember(store, g);
      PrefixMembership(target, m, m);
      assert false;
    }
  }

  lemma RecordedIsMember(store: Store, g: Fill)
    ensures Recorded(store, g) <==> g in Fills(Committed(store, g.position))
  {
    var pubs := Committed(store, g.position);
    assert forall i :: 0 <= i < |pubs| ==> Fills(pubs)[i] == pubs[i].fill;
  }

  lemma PrefixMembership(target: seq<Fill>, m: nat, i: nat)
    requires Increasing(target) && m <= |target| && i < |target|
    ensures target[i] in target[..m] <==> i < m
  {
    if i < m {
      assert target[..m][i] == target[i];
    } else {
      forall r | 0 <= r < m ensures target[..m][r] != target[i] {
        assert target[r].Key().Compare(target[i].Key()) < 0;
      }
    }
  }

  lemma ApplyRecorded(store: Store, f: Fill)
    requires Recorded(store, f) && f.Valid()
    ensures ApplyFill(store, f).0 == store && ApplyFill(store, f).1.Ok?
  {
  }

  lemma ProgressStep(start: Store, store: Store, fills: seq<Fill>, ordered: seq<Fill>, k: nat)
    requires k < |ordered| && Sorted(Less, ordered) && multiset(ordered) == multiset(fills)
    requires Replayable(start, fills) && Progress(start, store, fills, ordered, k)
    ensures ApplyFill(store, ordered[k]).1.Ok?
    ensures Progress(start, ApplyFill(store, ordered[k]).0, fills, ordered, k + 1)
  {
    hide Build, Consistent, History, ApplyFill, Fills, Recorded, IdentityUsed, AgreesWith, Committed, Canonical;
    var f := ordered[k];
    assert f in multiset(fills);
    assert f.Valid();
    if Recorded(store, f) {
      ApplyRecorded(store, f);
    } else {
      NextIsHead(start, store, fills, ordered, k);
      if IdentityUsed(store, f.id) {
        UsedIsRecorded(store, fills, f);
      }
      var target, m := Canonical(fills, f.position), |Fills(Committed(store, f.position))|;
      CanonicalIsCanonical(fills, f.position);
      assert AllValid(target) by {
        forall i | 0 <= i < |target| ensures target[i].Valid() {
          assert target[i] in target;
        }
      }
      NextFillCommits(store, target, m);
      assert target[..m + 1] == target[..m] + [f];
      CommittedKeepsProgress(start, store, fills, ordered, k, ApplyFill(store, f).0);
    }
  }

  /** What a commit changes: one more fill at the end of one position. */
  ghost predicate OneMore(store: Store, next: Store, f: Fill) {
    && Fills(Committed(next, f.position)) == Fills(Committed(store, f.position)) + [f]
    && forall other :: other != f.position ==> Committed(next, other) == Committed(store, other)
  }

  lemma OneMoreRecorded(store: Store, next: Store, f: Fill, g: Fill)
    requires OneMore(store, next, f)
    ensures Recorded(next, g) <==> Recorded(store, g) || g == f
  {
    RecordedIsMember(store, g);
    RecordedIsMember(next, g);
  }

  lemma OneMoreAgrees(store: Store, next: Store, f: Fill, fills: seq<Fill>)
    requires OneMore(store, next, f) && AgreesWith(store, fills) && OneRecordPerId(fills) && f in fills
    ensures AgreesWith(next, fills)
  {
    forall position, i, g
      | 0 <= i < |Committed(next, position)| && g in fills && Committed(next, position)[i].fill.id == g.id
      ensures Committed(next, position)[i].fill == g
    {
      var pubs, pubs' := Committed(store, position), Committed(next, position);
      if position == f.position {
        assert pubs'[i].fill == Fills(pubs')[i];
        if i < |pubs| {
          assert pubs[i].fill == Fills(pubs)[i] == pubs'[i].fill;
        }
      }
    }
  }

  lemma CommittedKeepsProgress(start: Store, store: Store, fills: seq<Fill>, ordered: seq<Fill>, k: nat, next: Store)
    requires k < |ordered| && multiset(ordered) == multiset(fills) && OneRecordPerId(fills)
    requires Progress(start, store, fills, ordered, k) && Consistent(next) && OneMore(store, next, ordered[k])
    requires Fills(Committed(next, ordered[k].position)) <= Canonical(fills, ordered[k].position)
    ensures Progress(start, next, fills, ordered, k + 1)
  {
    hide Build, Consistent, Canonical, Fills, Recorded, AgreesWith;
    var f := ordered[k];
    assert f in multiset(fills);
    OneMoreAgrees(store, next, f, fills);
    forall i | 0 <= i < k + 1 ensures Recorded(next, ordered[i]) {
      OneMoreRecorded(store, next, f, ordered[i]);
    }
  }

  /** Replaying any arrangement of a batch. Whatever permutation of whatever
      repetitions of the fills is supplied, and whatever canonical prefixes the
      store already held, every call succeeds and every touched position ends with
      exactly its canonical history; other positions are untouched. */
  lemma ReplayReachesCanonical(store: Store, fills: seq<Fill>, ordered: seq<Fill>)
    requires Replayable(store, fills) && Sorted(Less, ordered) && multiset(ordered) == multiset(fills)
    ensures ApplyAll(store, ordered).1.Ok? && Consistent(ApplyAll(store, ordered).0)
    ensures forall f <- fills ::
              Fills(Committed(ApplyAll(store, ordered).0, f.position)) == Canonical(fills, f.position)
    ensures forall position :: (forall f <- fills :: f.position != position) ==>
              Committed(ApplyAll(store, ordered).0, position) == Committed(store, position)
  {
    hide Build, Consistent, History, ApplyFill;
    ReplayProgress(store, fills, ordered, |ordered|);
    assert ordered[..|ordered|] == ordered;
    var final := ApplyAll(store, ordered).0;
    forall f | f in fills
      ensures Fills(Committed(final, f.position)) == Canonical(fills, f.position)
    {
      FinishedIsWhole(store, final, fills, ordered, f);
    }
  }

  lemma ProgressStart(store: Store, fills: seq<Fill>, ordered: seq<Fill>)
    requires Replayable(store, fills)
    ensures Progress(store, store, fills, ordered, 0)
  {
  }

  lemma {:induction false} ReplayProgress(store: Store, fills: seq<Fill>, ordered: seq<Fill>, k: nat)
    requires Replayable(store, fills) && Sorted(Less, ordered) && multiset(ordered) == multiset(fills) && k <= |ordered|
    ensures ApplyAll(store, ordered[..k]).1.Ok?
    ensures Progress(store, ApplyAll(store, ordered[..k]).0, fills, ordered, k)
  {
    hide Progress, Replayable, ApplyFill, Sorted;
    if k == 0 {
      ProgressStart(store, fills, ordered);
    } else {
      ReplayProgress(store, fills, ordered, k - 1);
      assert ordered[..k][..k - 1] == ordered[..k - 1];
      ProgressStep(store, ApplyAll(store, ordered[..k - 1]).0, fills, ordered, k - 1);
    }
  }

  lemma FinishedIsWhole(start: Store, store: Store, fills: seq<Fill>, ordered: seq<Fill>, f: Fill)
    requires multiset(ordered) == multiset(fills) && OneRecordPerId(fills) && f in fills
    requires Progress(start, store, fills, ordered, |ordered|)
    ensures Fills(Committed(store, f.position)) == Canonical(fills, f.position)
  {
    hide Build, Consistent;
    var pubs, target := Committed(store, f.position), Canonical(fills, f.position);
    CanonicalIsCanonical(fills, f.position);
    assert Fills(pubs) <= target;
    if |pubs| < |target| {
      var g := target[|pubs|];
      assert g in target && g in multiset(ordered);
      var i :| 0 <= i < |ordered| && ordered[i] == g;
      RecordedIsMember(store, g);
      PrefixMembership(target, |pubs|, |pubs|);
      assert false;
    }
  }

  /** Two committed chains of the same fills are the same publications: same
      snapshots, same checkpoints, same checksums. */
  lemma {:induction false} FillsDetermineChain(position: PositionId, a: seq<Publication>, b: seq<Publication>)
    requires Chained(position, a) && Chained(position, b) && Fills(a) == Fills(b)
    ensures a == b
  {
    hide BuiltOn, Chained;
    assert |Fills(a)| == |a| && |Fills(b)| == |b|;
    if a != [] {
      var n := |a| - 1;
      ChainedPrefix(position, a, n);
      ChainedPrefix(position, b, n);
      assert Fills(a[..n]) == Fills(a)[..n] == Fills(b)[..n] == Fills(b[..n]);
      FillsDetermineChain(position, a[..n], b[..n]);
      LastLinkEqual(position, a, b, n);
      assert a == a[..n] + [a[n]] && b == b[..n] + [b[n]];
    }
  }

  lemma LastLinkEqual(position: PositionId, a: seq<Publication>, b: seq<Publication>, n: nat)
    requires Chained(position, a) && Chained(position, b) && Fills(a) == Fills(b)
    requires n < |a| && n < |b| && a[..n] == b[..n]
    ensures a[n] == b[n]
  {
    hide Build;
    assert BuiltOn(position, Before(a, n), a[n]) && BuiltOn(position, Before(b, n), b[n]);
    assert a[n].fill == Fills(a)[n] == Fills(b)[n] == b[n].fill;
    assert n > 0 ==> a[n - 1] == a[..n][n - 1] == b[..n][n - 1] == b[n - 1];
    assert Before(a, n) == Before(b, n);
  }

  /** Replay is insensitive to arrangement and to where it resumes: two batches of
      the same set of fills, sorted and applied onto two stores that each hold some
      canonical prefix, leave identical publications, checksums included, in every
      touched position. */
  lemma ReplayIsArrangementIndependent(storeA: Store, fillsA: seq<Fill>, orderedA: seq<Fill>, storeB: Store,
                                       fillsB: seq<Fill>, orderedB: seq<Fill>, f: Fill)
    requires Replayable(storeA, fillsA) && Sorted(Less, orderedA) && multiset(orderedA) == multiset(fillsA)
    requires Replayable(storeB, fillsB) && Sorted(Less, orderedB) && multiset(orderedB) == multiset(fillsB)
    requires (forall g :: g in fillsA <==> g in fillsB) && f in fillsA
    ensures Committed(ApplyAll(storeA, orderedA).0, f.position) == Committed(ApplyAll(storeB, orderedB).0, f.position)
  {
    hide Build, ApplyAll, Canonical;
    ReplayReachesCanonical(storeA, fillsA, orderedA);
    ReplayReachesCanonical(storeB, fillsB, orderedB);
    CanonicalIsCanonical(fillsA, f.position);
    CanonicalIsCanonical(fillsB, f.position);
    IncreasingIsUnique(Canonical(fillsA, f.position), Canonical(fillsB, f.position));
    FillsDetermineChain(f.position, Committed(ApplyAll(storeA, orderedA).0, f.position),
                        Committed(ApplyAll(storeB, orderedB).0, f.position));
  }
}
