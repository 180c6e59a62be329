/** Publications, the append-only position store, and the interleaved protocol by
    which concurrent callers of any number of coordinators apply fills to it. */
module PositionStore {
  import opened Wrappers
  import opened AccountingModel
  import opened AccountingEngine

  /** The checksum of a checkpoint, modelled by the content it digests. */
  datatype Digest = NoDigest | DigestOf(checkpoint: Checkpoint)

  datatype Checkpoint = Checkpoint(snapshot: Snapshot, parent: Digest, fill: FillId) {
    /** The chain rule of the checkpoint constructor: only the first revision has
        no parent. */
    predicate Accepted() {
      !snapshot.position.Unset() && fill != 0 && (snapshot.revision == 1 <==> parent == NoDigest)
    }
  }

  datatype Publication = Publication(expectedRevision: int, expectedCheckpoint: Digest, fill: Fill,
                                     application: Application, next: Checkpoint) {
    /** The consistency rules of the publication constructor. */
    predicate Accepted() {
      && next.Accepted() && !fill.Unset()
      && application.position == fill.position == next.snapshot.position
      && application.fill == fill && application.previousRevision == expectedRevision
      && application.nextRevision == expectedRevision + 1 == next.snapshot.revision
      && next.fill == fill.id && application.next == next.snapshot && next.parent == expectedCheckpoint
      && (expectedRevision == 0 <==> expectedCheckpoint == NoDigest)
      && (expectedRevision == 0 <==> application.previous.None?)
    }
  }

  /** All committed publications of every position, oldest first. */
  type Store = map<PositionId, seq<Publication>>

  function Committed(store: Store, position: PositionId): seq<Publication> {
    if position in store then store[position] else []
  }

  function Current(store: Store, position: PositionId): Option<Checkpoint> {
    var pubs := Committed(store, position);
    if pubs == [] then None else Some(pubs[|pubs| - 1].next)
  }

  function RevisionOf(seen: Option<Checkpoint>): int {
    if seen.Some? then seen.value.snapshot.revision else 0
  }

  function DigestAt(seen: Option<Checkpoint>): Digest {
    if seen.Some? then DigestOf(seen.value) else NoDigest
  }

  function SnapshotAt(seen: Option<Checkpoint>): Option<Snapshot> {
    if seen.Some? then Some(seen.value.snapshot) else None
  }

  datatype BuildError = Engine(error: EngineError) | CorruptCheckpoint | InvalidPublication

  /** What a caller computes from the checkpoint it read and the fill it brings. */
  function Build(seen: Option<Checkpoint>, fill: Fill): Result<Publication, BuildError> {
    match Apply(SnapshotAt(seen), fill)
    case Err(e) => Err(Engine(e))
    case Ok(applied) =>
      var next := Checkpoint(applied.snapshot, DigestAt(seen), fill.id);
      if !next.Accepted() then Err(CorruptCheckpoint) else
      var p := Publication(RevisionOf(seen), DigestAt(seen), fill, applied.application, next);
      if p.Accepted() then Ok(p) else Err(InvalidPublication)
  }

  datatype PublishError = InvalidPublicationError | IdentityCollision | RevisionConflict

  predicate AlreadyPublished(pubs: seq<Publication>, fill: FillId) {
    exists i :: 0 <= i < |pubs| && pubs[i].fill.id == fill
  }

  /** The fill identity is committed in some position. */
  predicate IdentityUsed(store: Store, id: FillId) {
    exists position <- store :: AlreadyPublished(store[position], id)
  }

  /** The repository's atomic append. A fill identity is used once, whatever its
      position, and an append commits only when the expected revision and the
      expected checkpoint are the current ones. A repository that refuses for
      further reasons, such as being full, is covered as a failed call. */
  function Publish(store: Store, p: Publication): Result<Store, PublishError> {
    var position := p.fill.position;
    var current := Current(store, position);
    if !p.Accepted() then Err(InvalidPublicationError)
    else if IdentityUsed(store, p.fill.id) then Err(IdentityCollision)
    else if RevisionOf(current) != p.expectedRevision then Err(RevisionConflict)
    else if current.Some? && DigestOf(current.value) != p.expectedCheckpoint then Err(RevisionConflict)
    else Ok(store[position := Committed(store, position) + [p]])
  }

  function Fills(pubs: seq<Publication>): seq<Fill> {
    seq(|pubs|, i requires 0 <= i < |pubs| => pubs[i].fill)
  }

  function Before(pubs: seq<Publication>, i: nat): Option<Checkpoint>
    requires i < |pubs|
  {
    if i == 0 then None else Some(pubs[i - 1].next)
  }

  /** A committed sequence in which every publication is what Build computes from
      its predecessor's checkpoint. */
  predicate Chained(position: PositionId, pubs: seq<Publication>) {
    forall i {:trigger pubs[i]} :: 0 <= i < |pubs| ==> BuiltOn(position, Before(pubs, i), pubs[i])
  }

  predicate BuiltOn(position: PositionId, before: Option<Checkpoint>, p: Publication) {
    p.fill.Valid() && p.fill.position == position && Build(before, p.fill) == Ok(p)
  }

  predicate DistinctFills(pubs: seq<Publication>) {
    forall i, j {:trigger pubs[i].fill, pubs[j].fill} :: 0 <= i < j < |pubs| ==> pubs[i].fill.id != pubs[j].fill.id
  }

  /** No fill identity is committed in two positions. */
  predicate OnePositionPerFill(store: Store) {
    forall p, q, i, j {:trigger store[p][i], store[q][j]} ::
      p in store && q in store && 0 <= i < |store[p]| && 0 <= j < |store[q]| &&
        store[p][i].fill.id == store[q][j].fill.id ==>
        p == q
  }

  predicate Consistent(store: Store) {
    && (forall position <- store :: Chained(position, store[position]) && DistinctFills(store[position]))
    && OnePositionPerFill(store)
  }

  predicate SeenOk(seen: Option<Checkpoint>) {
    seen.Some? ==> Sound(seen.value.snapshot) && seen.value.fill != 0
  }

  /** From a sound checkpoint nothing after the engine can refuse: the checkpoint
      and publication constructors accept whatever Apply accepted. */
  lemma BuildNeverRefusesWhatApplyAccepts(seen: Option<Checkpoint>, fill: Fill)
    requires SeenOk(seen) && fill.Valid()
    ensures Build(seen, fill).Ok? <==> Apply(SnapshotAt(seen), fill).Ok?
    ensures Build(seen, fill).Ok? ==>
              var p := Build(seen, fill).value;
              && SeenOk(Some(p.next)) && p.fill == fill && p.next.snapshot.lastKey == fill.Key()
              && p.next.snapshot.revision == RevisionOf(seen) + 1
              && (seen.Some? ==> seen.value.snapshot.lastKey.Compare(fill.Key()) < 0)
  {
    ApplyKeepsSound(SnapshotAt(seen), fill);
    if seen.Some? {
      CompareIsTotalOrder(seen.value.snapshot.lastKey, fill.Key(), fill.Key());
    }
  }

  /** Facts about each link of a chain. */
  lemma {:induction false} ChainLinks(position: PositionId, pubs: seq<Publication>, i: nat)
    requires Chained(position, pubs) && i < |pubs|
    ensures SeenOk(Some(pubs[i].next)) && pubs[i].next.snapshot.revision == i + 1
    ensures pubs[i].expectedRevision == i && pubs[i].next.snapshot.lastKey == pubs[i].fill.Key()
    ensures pubs[i].next.parent == (if i == 0 then NoDigest else DigestOf(pubs[i - 1].next))
    ensures i > 0 ==> pubs[i - 1].fill.Key().Compare(pubs[i].fill.Key()) < 0
  {
    hide Apply;
    if i > 0 {
      ChainLinks(position, pubs, i - 1);
    }
    BuildNeverRefusesWhatApplyAccepts(Before(pubs, i), pubs[i].fill);
  }

  /** Ordering keys strictly increase along a chain, so no fill occurs twice. */
  lemma {:induction false} ChainKeysIncrease(position: PositionId, pubs: seq<Publication>, i: nat, j: nat)
    requires Chained(position, pubs) && i < j < |pubs|
    ensures pubs[i].fill.Key().Compare(pubs[j].fill.Key()) < 0
    decreases j
  {
    hide Chained;
    ChainLinks(position, pubs, j);
    if i < j - 1 {
      ChainKeysIncrease(position, pubs, i, j - 1);
      CompareIsTotalOrder(pubs[i].fill.Key(), pubs[j - 1].fill.Key(), pubs[j].fill.Key());
    }
  }

  lemma BuildMeansApply(seen: Option<Checkpoint>, fill: Fill, p: Publication)
    requires Build(seen, fill) == Ok(p)
    ensures Apply(SnapshotAt(seen), fill).Ok? && Apply(SnapshotAt(seen), fill).value.snapshot == p.next.snapshot
  {
    hide Apply;
  }

  lemma ChainedPrefix(position: PositionId, pubs: seq<Publication>, n: nat)
    requires Chained(position, pubs) && n <= |pubs|
    ensures Chained(position, pubs[..n])
  {
    hide BuiltOn;
    forall i | 0 <= i < n
      ensures Before(pubs[..n], i) == Before(pubs, i) && pubs[..n][i] == pubs[i]
    {
    }
  }

  lemma LastLinked(position: PositionId, pubs: seq<Publication>)
    requires Chained(position, pubs) && pubs != []
    ensures BuiltOn(position, Before(pubs, |pubs| - 1), pubs[|pubs| - 1])
  {
  }

  /** The last snapshot of a chain is the fold of all its fills: nothing that was
      committed is missing from it. */
  lemma {:induction false} ChainIsHistory(position: PositionId, pubs: seq<Publication>)
    requires Chained(position, pubs)
    ensures AllValid(Fills(pubs))
    ensures History(Fills(pubs)) == Ok(if pubs == [] then None else Some(pubs[|pubs| - 1].next.snapshot))
  {
    hide Build, Apply, Chained;
    if pubs != [] {
      var n := |pubs| - 1;
      LastLinked(position, pubs);
      ChainedPrefix(position, pubs, n);
      ChainIsHistory(position, pubs[..n]);
      assert Fills(pubs)[..n] == Fills(pubs[..n]);
      BuildMeansApply(Before(pubs, n), pubs[n].fill, pubs[n]);
    }
  }

  lemma ChainedAppend(position: PositionId, pubs: seq<Publication>, p: Publication)
    requires Chained(position, pubs)
    requires BuiltOn(position, if pubs == [] then None else Some(pubs[|pubs| - 1].next), p)
    ensures Chained(position, pubs + [p])
  {
    hide BuiltOn;
    var after := pubs + [p];
    forall i | 0 <= i < |after| ensures BuiltOn(position, Before(after, i), after[i]) {
      if i < |pubs| {
        assert after[i] == pubs[i] && Before(after, i) == Before(pubs, i);
      }
    }
  }

  lemma BuildExpects(seen: Option<Checkpoint>, fill: Fill, p: Publication)
    requires Build(seen, fill) == Ok(p)
    ensures p.expectedRevision == RevisionOf(seen) && p.expectedCheckpoint == DigestAt(seen) && p.Accepted()
  {
    hide Apply;
  }

  /** An append commits only over the checkpoint it was prepared from, because a
      checkpoint's checksum determines it. */
  lemma PublishedOverSeen(store: Store, seen: Option<Checkpoint>, p: Publication)
    requires Consistent(store) && SeenOk(seen) && Build(seen, p.fill) == Ok(p) && Publish(store, p).Ok?
    ensures Current(store, p.fill.position) == seen
  {
    hide Build;
    BuildExpects(seen, p.fill, p);
    CurrentIsSeenOk(store, p.fill.position);
  }

  /** The fills of the store after an append are those before and the new one. */
  lemma PublishKeepsOnePosition(store: Store, p: Publication)
    requires OnePositionPerFill(store) && Publish(store, p).Ok?
    ensures OnePositionPerFill(Publish(store, p).value)
  {
    hide Publication.Accepted;
    var next := Publish(store, p).value;
    forall q, j | q in store && 0 <= j < |store[q]| ensures store[q][j].fill.id != p.fill.id {
      assert !AlreadyPublished(store[q], p.fill.id);
    }
  }

  lemma AppendKeepsDistinct(pubs: seq<Publication>, p: Publication)
    requires DistinctFills(pubs) && !AlreadyPublished(pubs, p.fill.id)
    ensures DistinctFills(pubs + [p])
  {
  }

  /** A successful append extends the chain of its position by exactly the
      publication and touches no other position. */
  lemma PublishExtendsChain(store: Store, seen: Option<Checkpoint>, p: Publication)
    requires Consistent(store) && SeenOk(seen) && p.fill.Valid() && Build(seen, p.fill) == Ok(p)
    requires Publish(store, p).Ok?
    ensures Consistent(Publish(store, p).value)
  {
    hide Build, Chained, DistinctFills, OnePositionPerFill, AlreadyPublished, Publication.Accepted, SeenOk;
    PublishedOverSeen(store, seen, p);
    PublishKeepsOnePosition(store, p);
    EmptyIsChained(p.fill.position);
    ChainedAppend(p.fill.position, Committed(store, p.fill.position), p);
    assert !AlreadyPublished(Committed(store, p.fill.position), p.fill.id);
    AppendKeepsDistinct(Committed(store, p.fill.position), p);
  }

  lemma EmptyIsChained(position: PositionId)
    ensures Chained(position, []) && DistinctFills([])
    ensures forall id :: !AlreadyPublished([], id)
  {
  }

  lemma CurrentIsSeenOk(store: Store, position: PositionId)
    requires Consistent(store)
    ensures SeenOk(Current(store, position))
  {
    hide Build;
    var pubs := Committed(store, position);
    if pubs != [] {
      ChainLinks(position, pubs, |pubs| - 1);
    }
  }

  /** An append prepared from the current checkpoint is never a revision conflict:
      it commits unless its identity was used before. */
  lemma PublishOverCurrent(store: Store, p: Publication)
    requires Build(Current(store, p.fill.position), p.fill) == Ok(p)
    ensures Publish(store, p) != Err(RevisionConflict)
    ensures Publish(store, p).Err? <==> IdentityUsed(store, p.fill.id)
    ensures Publish(store, p).Err? ==> Publish(store, p).error == IdentityCollision
  {
    hide Build;
    BuildExpects(Current(store, p.fill.position), p.fill, p);
  }
}

/** Concurrent ApplyFill calls as a step machine. A step names the caller that
    moves; a run is any list of steps, so it covers every interleaving, every
    failure point, shutdown, crash and restart, and callers that raced past the
    duplicate lookup with the same fill. */
module AccountingProtocol {
  import opened Wrappers
  import opened AccountingModel
  import opened AccountingEngine
  import opened PositionStore

  type CallerId = nat
  type CoordinatorId = nat

  /** Where a call stands: past the duplicate lookup, holding the reservation,
      having read the current checkpoint, or about to publish. */
  datatype Phase =
    | Searched(fill: Fill)
    | Holding(fill: Fill)
    | Loaded(fill: Fill, seen: Option<Checkpoint>)
    | Ready(fill: Fill, seen: Option<Checkpoint>, publication: Publication)

  datatype Caller = Caller(coordinator: CoordinatorId, phase: Phase) {
    /** The entry of the reservation table that the call uses. */
    function Slot(): (CoordinatorId, PositionId) {
      (coordinator, phase.fill.position)
    }

    predicate Holds() {
      !phase.Searched?
    }
  }

  datatype State = State(store: Store, running: map<(CoordinatorId, PositionId), Fill>, closed: set<CoordinatorId>,
                         callers: map<CallerId, Caller>)

  datatype Step =
    | Begin(id: CallerId, coordinator: CoordinatorId, fill: Fill)
    | Reserve(id: CallerId)
    | Load(id: CallerId)
    | Prepare(id: CallerId)
    | Commit(id: CallerId)
    | Abort(id: CallerId)
    | Shutdown(coordinator: CoordinatorId)
    | Crash(coordinator: CoordinatorId)

  const Init := State(map[], map[], {}, map[])

  /** A call that ends releases the reservation it holds, if it holds one. */
  function Finish(s: State, id: CallerId): State
    requires id in s.callers
  {
    var caller := s.callers[id];
    s.(callers := s.callers - {id},
       running := if caller.phase.Searched? then s.running
                  else s.running - {caller.Slot()})
  }

  function Moved(s: State, id: CallerId, phase: Phase): State
    requires id in s.callers
  {
    s.(callers := s.callers[id := s.callers[id].(phase := phase)])
  }

  /** The state after a step, or None when the step is not possible. */
  function Do(s: State, step: Step): Option<State> {
    match step
    case Begin(id, c, fill) =>
      if id in s.callers || !fill.Valid() then None
      else Some(s.(callers := s.callers[id := Caller(c, Searched(fill))]))
    case Reserve(id) =>
      if id !in s.callers || !s.callers[id].phase.Searched? then None else
      var caller := s.callers[id];
      var key := caller.Slot();
      if caller.coordinator in s.closed || key in s.running then Some(Finish(s, id))
      else Some(Moved(s, id, Holding(caller.phase.fill)).(running := s.running[key := caller.phase.fill]))
    case Load(id) =>
      if id !in s.callers || !s.callers[id].phase.Holding? then None else
      var fill := s.callers[id].phase.fill;
      Some(Moved(s, id, Loaded(fill, Current(s.store, fill.position))))
    case Prepare(id) =>
      if id !in s.callers || !s.callers[id].phase.Loaded? then None else
      var phase := s.callers[id].phase;
      (match Build(phase.seen, phase.fill)
       case Ok(p) => Some(Moved(s, id, Ready(phase.fill, phase.seen, p)))
       case Err(_) => Some(Finish(s, id)))
    case Commit(id) =>
      if id !in s.callers || !s.callers[id].phase.Ready? then None else
      (match Publish(s.store, s.callers[id].phase.publication)
       case Ok(store) => Some(Finish(s, id).(store := store))
       case Err(_) => Some(Finish(s, id)))
    case Abort(id) => if id in s.callers then Some(Finish(s, id)) else None
    case Shutdown(c) => Some(s.(closed := s.closed + {c}))
    case Crash(c) =>
      Some(State(s.store, map key | key in s.running && key.0 != c :: s.running[key], s.closed - {c},
                 map id | id in s.callers && s.callers[id].coordinator != c :: s.callers[id]))
  }

  /** A crashed coordinator comes back open and with nothing reserved or running; the
      repository and the other coordinators do not notice. */
  lemma CrashForgets(s: State, c: CoordinatorId)
    ensures var t := Do(s, Crash(c));
            && t.Some? && t.value.store == s.store && t.value.closed == s.closed - {c}
            && (forall p :: (c, p) !in t.value.running)
            && (forall d, p :: d != c ==>
                  && ((d, p) in t.value.running <==> (d, p) in s.running)
                  && ((d, p) in s.running ==> t.value.running[(d, p)] == s.running[(d, p)]))
            && (forall id :: id in t.value.callers <==> id in s.callers && s.callers[id].coordinator != c)
            && forall id <- t.value.callers :: t.value.callers[id] == s.callers[id]
  {
  }

  function Run(s: State, steps: seq<Step>): Option<State> {
    if steps == [] then Some(s) else
    match Run(s, steps[..|steps| - 1])
    case None => None
    case Some(mid) => Do(mid, steps[|steps| - 1])
  }

  predicate PhaseOk(phase: Phase) {
    && phase.fill.Valid()
    && ((phase.Loaded? || phase.Ready?) ==> SeenOk(phase.seen))
    && (phase.Ready? ==> phase.publication.fill == phase.fill && Build(phase.seen, phase.fill) == Ok(phase.publication))
  }

  /** Holds in every reachable state, whatever the coordinators do. */
  predicate Inv(s: State) {
    && Consistent(s.store)
    && forall id <- s.callers :: PhaseOk(s.callers[id].phase)
  }

  lemma StepKeepsInv(s: State, step: Step)
    requires Inv(s) && Do(s, step).Some?
    ensures Inv(Do(s, step).value)
  {
    hide Build, Publish;
    match step
    case Load(id) => CurrentIsSeenOk(s.store, s.callers[id].phase.fill.position);
    case Prepare(id) =>
      BuildNeverRefusesWhatApplyAccepts(s.callers[id].phase.seen, s.callers[id].phase.fill);
    case Commit(id) =>
      if Publish(s.store, s.callers[id].phase.publication).Ok? {
        PublishExtendsChain(s.store, s.callers[id].phase.seen, s.callers[id].phase.publication);
      }
    case _ =>
  }

  lemma {:induction false} RunKeepsInv(steps: seq<Step>)
    ensures Run(Init, steps).Some? ==> Inv(Run(Init, steps).value)
  {
    if steps != [] {
      RunKeepsInv(steps[..|steps| - 1]);
      if Run(Init, steps[..|steps| - 1]).Some? && Run(Init, steps).Some? {
        StepKeepsInv(Run(Init, steps[..|steps| - 1]).value, steps[|steps| - 1]);
      }
    }
  }

  /** The committed publications of a position form one chain: revisions 1..n, each
      naming the checksum of its predecessor, ordering keys strictly increasing so
      that no fill is present twice, and a final snapshot that is the fold of
      exactly these fills. */
  predicate OneChain(position: PositionId, pubs: seq<Publication>) {
    && Linked(position, pubs) && KeysIncrease(pubs) && DistinctFills(pubs)
    && History(Fills(pubs)) == Ok(if pubs == [] then None else Some(pubs[|pubs| - 1].next.snapshot))
  }

  predicate Linked(position: PositionId, pubs: seq<Publication>) {
    forall i {:trigger pubs[i]} :: 0 <= i < |pubs| ==>
      && pubs[i].next.snapshot.revision == i + 1 && pubs[i].fill.position == position
      && pubs[i].next.parent == if i == 0 then NoDigest else DigestOf(pubs[i - 1].next)
  }

  predicate KeysIncrease(pubs: seq<Publication>) {
    forall i, j {:trigger pubs[i], pubs[j]} :: 0 <= i < j < |pubs| ==>
      pubs[i].fill.Key().Compare(pubs[j].fill.Key()) < 0
  }

  lemma ChainedIsLinked(position: PositionId, pubs: seq<Publication>)
    requires Chained(position, pubs)
    ensures Linked(position, pubs) && KeysIncrease(pubs)
  {
    hide Build, Sound;
    forall i | 0 <= i < |pubs|
      ensures && pubs[i].next.snapshot.revision == i + 1 && pubs[i].fill.position == position
              && pubs[i].next.parent == if i == 0 then NoDigest else DigestOf(pubs[i - 1].next)
    {
      ChainLinks(position, pubs, i);
    }
    forall i, j | 0 <= i < j < |pubs| ensures pubs[i].fill.Key().Compare(pubs[j].fill.Key()) < 0 {
      ChainKeysIncrease(position, pubs, i, j);
    }
  }

  lemma ConsistentMeansOneChain(store: Store, position: PositionId)
    requires Consistent(store)
    ensures OneChain(position, Committed(store, position))
  {
    hide Build, Apply, History;
    ChainIsHistory(position, Committed(store, position));
    ChainedIsLinked(position, Committed(store, position));
  }

  /** In every run, at every moment, every position's publications are one chain. */
  lemma RunsKeepOneChain(steps: seq<Step>, position: PositionId)
    requires Run(Init, steps).Some?
    ensures OneChain(position, Committed(Run(Init, steps).value.store, position))
  {
    RunKeepsInv(steps);
    ConsistentMeansOneChain(Run(Init, steps).value.store, position);
  }

  /** No update is lost: a step leaves every position's committed publications
      alone, or appends to one of them the publication of a caller that is ready;
      so what is committed stays committed, in place. */
  lemma StepsOnlyAppend(s: State, step: Step, position: PositionId)
    requires Do(s, step).Some?
    ensures var before, after := Committed(s.store, position), Committed(Do(s, step).value.store, position);
            || after == before
            || (&& step.Commit? && step.id in s.callers && s.callers[step.id].phase.Ready?
                && after == before + [s.callers[step.id].phase.publication])
  {
    hide Build;
  }

  lemma {:induction false} RunsOnlyAppend(s: State, steps: seq<Step>, position: PositionId)
    requires Run(s, steps).Some?
    ensures Committed(s.store, position) <= Committed(Run(s, steps).value.store, position)
  {
    if steps != [] {
      RunsOnlyAppend(s, steps[..|steps| - 1], position);
      StepsOnlyAppend(Run(s, steps[..|steps| - 1]).value, steps[|steps| - 1], position);
    }
  }

  /** A caller that is ready with an already committed fill identity never commits
      it again, whoever committed it and in whatever position. */
  lemma CommittedFillIsNeverRepeated(s: State, id: CallerId, position: PositionId, i: nat)
    requires id in s.callers && s.callers[id].phase.Ready?
    requires i < |Committed(s.store, position)|
    requires Committed(s.store, position)[i].fill.id == s.callers[id].phase.publication.fill.id
    ensures Do(s, Commit(id)) == Some(Finish(s, id))
  {
    hide Build;
    assert AlreadyPublished(Committed(s.store, position), Committed(s.store, position)[i].fill.id);
  }

  /** The reservation table: exactly the calls past Reserve hold an entry, and no
      two calls hold the same one. */
  predicate Exclusive(s: State) {
    HoldersReserved(s) && HoldersApart(s) && ReservationsHeld(s)
  }

  predicate HoldersReserved(s: State) {
    forall id <- s.callers :: s.callers[id].Holds() ==> s.callers[id].Slot() in s.running
  }

  predicate HoldersApart(s: State) {
    forall a, b {:trigger s.callers[a], s.callers[b]} :: a in s.callers && b in s.callers && a != b ==>
      s.callers[a].Holds() && s.callers[b].Holds() ==> s.callers[a].Slot() != s.callers[b].Slot()
  }

  predicate ReservationsHeld(s: State) {
    forall key <- s.running :: exists id :: id in s.callers && s.callers[id].Holds() && s.callers[id].Slot() == key
  }

  lemma StepKeepsHolders(s: State, step: Step)
    requires HoldersReserved(s) && HoldersApart(s) && Do(s, step).Some?
    ensures HoldersReserved(Do(s, step).value) && HoldersApart(Do(s, step).value)
  {
    hide Build, Publish, Current;
  }

  lemma StepKeepsReservationsHeld(s: State, step: Step)
    requires ReservationsHeld(s) && Do(s, step).Some?
    ensures ReservationsHeld(Do(s, step).value)
  {
    hide Build, Publish, Current;
    var s' := Do(s, step).value;
    forall key | key in s'.running
      ensures exists id :: id in s'.callers && s'.callers[id].Holds() && s'.callers[id].Slot() == key
    {
      if key in s.running {
        var id :| id in s.callers && s.callers[id].Holds() && s.callers[id].Slot() == key;
        assert id in s'.callers && s'.callers[id].Holds() && s'.callers[id].Slot() == key;
      } else {
        assert s'.callers[step.id].Holds() && s'.callers[step.id].Slot() == key;
      }
    }
  }

  /** All calls of the run are made on coordinator c. */
  predicate SoleRun(c: CoordinatorId, steps: seq<Step>) {
    forall i :: 0 <= i < |steps| && steps[i].Begin? ==> steps[i].coordinator == c
  }

  /** With one coordinator, what a call has read is still current when it
      publishes. */
  predicate UpToDate(c: CoordinatorId, s: State) {
    && (forall id <- s.callers :: s.callers[id].coordinator == c)
    && (forall id <- s.callers :: s.callers[id].phase.Loaded? || s.callers[id].phase.Ready? ==>
          s.callers[id].phase.seen == Current(s.store, s.callers[id].phase.fill.position))
  }

  predicate Labelled(s: State) {
    forall id <- s.callers :: s.callers[id].phase.Ready? ==>
      s.callers[id].phase.publication.fill == s.callers[id].phase.fill
  }

  lemma StepKeepsUpToDate(c: CoordinatorId, s: State, step: Step)
    requires Labelled(s) && HoldersApart(s) && UpToDate(c, s) && Do(s, step).Some?
    requires step.Begin? ==> step.coordinator == c
    ensures UpToDate(c, Do(s, step).value)
  {
    hide Build, Publish, Current;
    var s' := Do(s, step).value;
    if step.Commit? {
      forall id | id in s'.callers
        ensures || Current(s'.store, s'.callers[id].phase.fill.position) ==
                   Current(s.store, s.callers[id].phase.fill.position)
                || !s'.callers[id].Holds()
      {
        if s'.callers[id].Holds() {
          assert s.callers[id].Slot() != s.callers[step.id].Slot();
          PublishTouchesOnePosition(s.store, s.callers[step.id].phase.publication, s.callers[id].phase.fill.position);
        }
      }
    }
  }

  lemma PublishTouchesOnePosition(store: Store, p: Publication, position: PositionId)
    requires position != p.fill.position
    ensures Publish(store, p).Ok? ==> Current(Publish(store, p).value, position) == Current(store, position)
  {
  }

  lemma {:induction false} SoleRunStaysUpToDate(c: CoordinatorId, steps: seq<Step>)
    requires SoleRun(c, steps) && Run(Init, steps).Some?
    ensures Exclusive(Run(Init, steps).value) && UpToDate(c, Run(Init, steps).value)
  {
    if steps != [] {
      var n := |steps| - 1;
      SoleRunStaysUpToDate(c, steps[..n]);
      RunKeepsInv(steps[..n]);
      StepKeepsHolders(Run(Init, steps[..n]).value, steps[n]);
      StepKeepsReservationsHeld(Run(Init, steps[..n]).value, steps[n]);
      StepKeepsUpToDate(c, Run(Init, steps[..n]).value, steps[n]);
    }
  }

  /** Reservations make revision conflicts impossible: in every run of a single
      coordinator, whatever its callers interleave, an append is refused only when
      the same fill identity is already committed. */
  lemma SoleCoordinatorNeverConflicts(c: CoordinatorId, steps: seq<Step>, id: CallerId)
    requires SoleRun(c, steps) && Run(Init, steps).Some?
    requires id in Run(Init, steps).value.callers && Run(Init, steps).value.callers[id].phase.Ready?
    ensures var s := Run(Init, steps).value;
            var p := s.callers[id].phase.publication;
            && Publish(s.store, p) != Err(RevisionConflict)
            && (Publish(s.store, p).Ok? || IdentityUsed(s.store, p.fill.id))
  {
    hide Build;
    SoleRunStaysUpToDate(c, steps);
    RunKeepsInv(steps);
    PublishOverCurrent(Run(Init, steps).value.store, Run(Init, steps).value.callers[id].phase.publication);
  }

  /** The calls on coordinator c that hold a reservation. */
  function HoldersOf(c: CoordinatorId, s: State): set<CallerId> {
    set id | id in s.callers && s.callers[id].coordinator == c && s.callers[id].Holds()
  }

  lemma ClosedStep(c: CoordinatorId, s: State, step: Step)
    requires c in s.closed && step != Crash(c) && Do(s, step).Some?
    ensures c in Do(s, step).value.closed && HoldersOf(c, Do(s, step).value) <= HoldersOf(c, s)
  {
    hide Build, Publish, Current;
  }

  /** A closed coordinator admits nobody: in every continuation without its restart,
      the calls on it that hold a reservation are among those that held one when it
      was closed. */
  lemma {:induction false} ClosedAdmitsNobody(c: CoordinatorId, s: State, steps: seq<Step>)
    requires c in s.closed && Crash(c) !in steps && Run(s, steps).Some?
    ensures c in Run(s, steps).value.closed && HoldersOf(c, Run(s, steps).value) <= HoldersOf(c, s)
  {
    hide Do;
    if steps != [] {
      var n := |steps| - 1;
      assert Crash(c) !in steps[..n] && steps[n] in steps;
      ClosedAdmitsNobody(c, s, steps[..n]);
      ClosedStep(c, Run(s, steps[..n]).value, steps[n]);
    }
  }

  /** Shutdown is final: once a coordinator is closed and the calls that were in
      flight have ended, whatever is called on it commits nothing, for ever. */
  lemma {:induction false} ShutdownIsFinal(c: CoordinatorId, s: State, steps: seq<Step>)
    requires c in s.closed && HoldersOf(c, s) == {} && (forall id <- s.callers :: s.callers[id].coordinator == c)
    requires Crash(c) !in steps && SoleRun(c, steps) && Run(s, steps).Some?
    ensures Run(s, steps).value.store == s.store
    ensures forall id <- Run(s, steps).value.callers :: Run(s, steps).value.callers[id].coordinator == c
  {
    if steps != [] {
      var n := |steps| - 1;
      assert Crash(c) !in steps[..n] && steps[n] in steps;
      ShutdownIsFinal(c, s, steps[..n]);
      ClosedAdmitsNobody(c, s, steps[..n]);
      OnlyHoldersCommit(c, Run(s, steps[..n]).value, steps[n]);
    }
  }

  lemma OnlyHoldersCommit(c: CoordinatorId, s: State, step: Step)
    requires HoldersOf(c, s) == {} && (forall id <- s.callers :: s.callers[id].coordinator == c)
    requires step.Begin? ==> step.coordinator == c
    ensures Do(s, step).Some? ==>
              && Do(s, step).value.store == s.store
              && forall id <- Do(s, step).value.callers :: Do(s, step).value.callers[id].coordinator == c
  {
    hide Build, Publish, Current;
    if step.Commit? && step.id in s.callers {
      assert step.id !in HoldersOf(c, s);
    }
  }
}
