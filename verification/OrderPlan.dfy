/** Dependency graphs of order legs and the depth-first cycle test on them. */
module LegGraph {
  import opened OrderModel

  type Edges = map<LegId, seq<LegId>>

  predicate Edge(edges: Edges, a: LegId, b: LegId) {
    a in edges && b in edges[a]
  }

  /** A non-empty walk along edges. */
  predicate Walk(edges: Edges, p: seq<LegId>) {
    p != [] && forall i :: 0 <= i < |p| - 1 ==> Edge(edges, p[i], p[i + 1])
  }

  /** Some walk of at least one edge returns to where it started. */
  ghost predicate Cyclic(edges: Edges) {
    exists p :: Walk(edges, p) && |p| >= 2 && p[0] == p[|p| - 1]
  }

  /** Every edge leads from a listed leg to one listed earlier, and no leg is
      listed twice. */
  predicate Topological(edges: Edges, order: seq<LegId>) {
    && (forall i, b :: 0 <= i < |order| && order[i] in edges && b in edges[order[i]] ==> b in order[..i])
    && forall i, j :: 0 <= i < j < |order| ==> order[i] != order[j]
  }

  function Elements(s: seq<LegId>): set<LegId> {
    set x | x in s
  }

  function Nodes(edges: Edges): set<LegId> {
    edges.Keys + set a, b | a in edges && b in edges[a] :: b
  }

  /** A walk from a listed leg only visits legs listed before it. */
  lemma {:induction false} WalkDescends(edges: Edges, order: seq<LegId>, i: nat, p: seq<LegId>, k: nat)
    requires Topological(edges, order) && i < |order| && Walk(edges, p) && p[0] == order[i] && 1 <= k < |p|
    ensures p[k] in order[..i]
  {
    assert Edge(edges, p[k - 1], p[k]);
    if k > 1 {
      WalkDescends(edges, order, i, p, k - 1);
      var j :| 0 <= j < i && order[..i][j] == p[k - 1];
      assert order[j] == p[k - 1];
      assert p[k] in order[..j];
      assert order[..j] == order[..i][..j];
    }
  }

  /** A graph whose every leg with dependencies is listed in topological order has
      no cycle. */
  lemma TopologicalIsAcyclic(edges: Edges, order: seq<LegId>)
    requires Topological(edges, order) && edges.Keys <= Elements(order)
    ensures !Cyclic(edges)
  {
    forall p | Walk(edges, p) && |p| >= 2 ensures p[0] != p[|p| - 1] {
      assert Edge(edges, p[0], p[1]);
      var i :| 0 <= i < |order| && order[i] == p[0];
      WalkDescends(edges, order, i, p, |p| - 1);
      forall j | 0 <= j < i ensures order[..i][j] != order[i] {}
    }
  }

  /** The state of the depth-first search: the legs on the current path and the
      legs that are done. The ghost lists record in which order. */
  class Search {
    const edges: Edges
    var visiting: set<LegId>
    var visited: set<LegId>
    ghost var stack: seq<LegId>
    ghost var order: seq<LegId>

    ghost predicate Valid()
      reads this
    {
      && visiting == Elements(stack) && visited == Elements(order) && visiting !! visited
      && (stack == [] || Walk(edges, stack)) && Topological(edges, order)
    }

    constructor (edges: Edges)
      ensures Valid() && this.edges == edges && visiting == visited == {} && stack == []
    {
      this.edges, visiting, visited, stack, order := edges, {}, {}, [], [];
    }

    /** True means that a cycle was found. False means that the leg and everything
        it depends on is done, and the path is as it was. */
    method Visit(id: LegId) returns (cycle: bool)
      requires Valid() && id in Nodes(edges) && (stack == [] || Edge(edges, stack[|stack| - 1], id))
      modifies this
      ensures cycle ==> Cyclic(edges)
      ensures !cycle ==> Valid() && visiting == old(visiting) && stack == old(stack)
      ensures !cycle ==> id in visited && old(visited) <= visited
      decreases Nodes(edges) - visiting - visited
    {
      if id in visiting {
        BackEdgeIsCycle(edges, stack, id);
        return true;
      }
      if id in visited {
        return false;
      }
      ghost var path := stack;
      visiting, stack := visiting + {id}, stack + [id];
      assert Walk(edges, stack);
      var dependencies := if id in edges then edges[id] else [];
      for i := 0 to |dependencies|
        invariant Valid() && stack == path + [id] && visiting == old(visiting) + {id}
        invariant old(visited) <= visited
        invariant forall b <- dependencies[..i] :: b in visited
      {
        assert Edge(edges, id, dependencies[i]);
        assert id in Nodes(edges) - old(visiting) - old(visited);
        assert Nodes(edges) - visiting - visited < Nodes(edges) - old(visiting) - old(visited);
        var found := Visit(dependencies[i]);
        if found {
          return true;
        }
        assert dependencies[..i + 1] == dependencies[..i] + [dependencies[i]];
      }
      assert dependencies[..|dependencies|] == dependencies;
      Finished(edges, order, id);
      visiting, stack := visiting - {id}, path;
      visited, order := visited + {id}, order + [id];
      return false;
    }
  }

  lemma BackEdgeIsCycle(edges: Edges, stack: seq<LegId>, id: LegId)
    requires Walk(edges, stack) && id in stack && Edge(edges, stack[|stack| - 1], id)
    ensures Cyclic(edges)
  {
    var i :| 0 <= i < |stack| && stack[i] == id;
    var p := stack[i..] + [id];
    forall k | 0 <= k < |p| - 1 ensures Edge(edges, p[k], p[k + 1]) {
      if k < |p| - 2 {
        assert p[k] == stack[i + k] && p[k + 1] == stack[i + k + 1];
      }
    }
    assert Walk(edges, p);
  }

  lemma Finished(edges: Edges, order: seq<LegId>, id: LegId)
    requires Topological(edges, order) && id !in order
    requires id in edges ==> forall b <- edges[id] :: b in order
    ensures Topological(edges, order + [id])
  {
    var next := order + [id];
    forall i, b | 0 <= i < |next| && next[i] in edges && b in edges[next[i]] ensures b in next[..i] {
      if i < |order| {
        assert next[..i] == order[..i];
      } else {
        assert next[..i] == order;
      }
    }
  }

  /** The cycle test. The roots are taken in an arbitrary order, as the source
      ranges over a map; the answer is exact for every choice, and a negative
      answer comes with a topological order of all the legs. */
  method HasCycle(edges: Edges) returns (cycle: bool, ghost order: seq<LegId>)
    ensures cycle <==> Cyclic(edges)
    ensures !cycle ==> Topological(edges, order) && edges.Keys <= Elements(order)
  {
    var search := new Search(edges);
    var remaining := edges.Keys;
    while remaining != {}
      invariant search.Valid() && search.edges == edges && search.stack == []
      invariant remaining <= edges.Keys && edges.Keys - remaining <= search.visited
      decreases remaining
    {
      var id :| id in remaining;
      remaining := remaining - {id};
      var found := search.Visit(id);
      if found {
        return true, [];
      }
    }
    order := search.order;
    TopologicalIsAcyclic(edges, order);
    return false, order;
  }
}

/** Execution authority and the order plans made under it. */
module OrderPlan {
  import opened Wrappers
  import opened Int64
  import opened AccountingModel
  import opened OrderModel
  import opened LegGraph
  import opened Sorting

  /** What the risk decision approved for one instrument. */
  datatype Bound = Bound(instrument: InstrumentId, side: Side, ratio: nat, maximumUnits: int64, lotSize: int64)

  datatype IntentLeg = IntentLeg(instrument: InstrumentId, side: Side, ratio: nat, quantity: int64, lotSize: int64,
                                 reducing: bool)

  datatype IntentError = AuthorityEscalation | InvalidExecutionIntent

  /** The bound that governs an instrument: the last one listed for it. */
  function BoundFor(bounds: seq<Bound>, instrument: InstrumentId): (bound: Option<Bound>)
    ensures bound.None? <==> forall k :: 0 <= k < |bounds| ==> bounds[k].instrument != instrument
    ensures bound.Some? ==>
              exists k :: 0 <= k < |bounds| && bounds[k] == bound.value && bound.value.instrument == instrument &&
                          forall j :: k < j < |bounds| ==> bounds[j].instrument != instrument
  {
    if bounds == [] then None
    else if bounds[|bounds| - 1].instrument == instrument then Some(bounds[|bounds| - 1])
    else BoundFor(bounds[..|bounds| - 1], instrument)
  }

  /** A leg within its approval. Lot sizes are positive quantities. */
  predicate Within(leg: IntentLeg, bounds: seq<Bound>) {
    match BoundFor(bounds, leg.instrument)
    case None => false
    case Some(b) =>
      && leg.side == b.side && leg.ratio == b.ratio && leg.quantity > 0 && leg.quantity <= b.maximumUnits
      && leg.lotSize == b.lotSize && leg.lotSize > 0 && leg.quantity % leg.lotSize == 0
      && (leg.reducing ==> leg.side.Sell?)
  }

  predicate DistinctInstruments(legs: seq<IntentLeg>) {
    forall i, j :: 0 <= i < j < |legs| ==> legs[i].instrument != legs[j].instrument
  }

  predicate Authorised(legs: seq<IntentLeg>, bounds: seq<Bound>) {
    && 0 < |legs| <= |bounds| && DistinctInstruments(legs)
    && forall i :: 0 <= i < |legs| ==> Within(legs[i], bounds)
  }

  /** The leg checks of an execution intent: accepted exactly when every leg is
      within its bound and no instrument occurs twice. */
  method CheckIntentLegs(legs: seq<IntentLeg>, bounds: seq<Bound>) returns (error: Option<IntentError>)
    ensures error.None? <==> Authorised(legs, bounds)
    ensures error == Some(InvalidExecutionIntent) ==> 0 < |legs| <= |bounds| && !DistinctInstruments(legs)
    ensures error == Some(AuthorityEscalation) ==>
              !(0 < |legs| <= |bounds|) || exists i :: 0 <= i < |legs| && !Within(legs[i], bounds)
  {
    if |legs| == 0 || |legs| > |bounds| {
      return Some(AuthorityEscalation);
    }
    var seen: set<InstrumentId> := {};
    for i := 0 to |legs|
      invariant seen == set j | 0 <= j < i :: legs[j].instrument
      invariant forall j :: 0 <= j < i ==> Within(legs[j], bounds)
      invariant forall j, k :: 0 <= j < k < i ==> legs[j].instrument != legs[k].instrument
    {
      if !Within(legs[i], bounds) {
        return Some(AuthorityEscalation);
      }
      if legs[i].instrument in seen {
        return Some(InvalidExecutionIntent);
      }
      seen := seen + {legs[i].instrument};
    }
    return None;
  }

  datatype Draft = Draft(instrument: InstrumentId, side: Side, quantity: int64, limitPrice: int64, currency: string,
                         protective: bool, dependsOn: seq<InstrumentId>, reducing: bool)

  datatype Intent = Intent(legs: seq<IntentLeg>, currency: string, createdAt: Instant, expiresAt: Instant)

  datatype PlanError = InvalidOrderPlan | UnsafeLegSequence | DependencyCycle

  datatype Plan = Plan(legs: seq<Leg>, createdAt: Instant, expiresAt: Instant)

  /** Leg identities are derived from instrument and side, injectively. */
  function LegIdOf(instrument: InstrumentId, side: Side): LegId {
    2 * instrument + if side.Buy? then 1 else 2
  }

  predicate ByInstrument(a: Draft, b: Draft) {
    a.instrument < b.instrument
  }

  lemma ByInstrumentIsStrictOrder()
    ensures StrictOrder(ByInstrument)
  {
  }

  /** The draft repeats an authorised leg. */
  predicate Approved(intent: Intent, d: Draft) {
    && (exists k :: 0 <= k < |intent.legs| && intent.legs[k].instrument == d.instrument &&
                    intent.legs[k].side == d.side && intent.legs[k].quantity == d.quantity &&
                    intent.legs[k].reducing == d.reducing)
    && d.currency != "" && d.currency == intent.currency
    && (d.protective ==> d.side.Buy?) && (d.reducing ==> d.side.Sell?)
  }

  predicate Listed(drafts: seq<Draft>, instrument: InstrumentId) {
    exists k :: 0 <= k < |drafts| && drafts[k].instrument == instrument
  }

  predicate DependenciesOk(drafts: seq<Draft>, d: Draft) {
    && (forall k :: 0 <= k < |d.dependsOn| ==> Listed(drafts, d.dependsOn[k]) && d.dependsOn[k] != d.instrument)
    && forall j, k :: 0 <= j < k < |d.dependsOn| ==> d.dependsOn[j] != d.dependsOn[k]
  }

  /** A sale that adds exposure waits for every protective purchase of the plan,
      of which there is at least one. */
  predicate Covered(drafts: seq<Draft>, d: Draft) {
    d.side.Sell? && !d.reducing ==>
      && (exists k :: 0 <= k < |drafts| && drafts[k].protective)
      && forall k :: 0 <= k < |drafts| && drafts[k].protective ==> drafts[k].instrument in d.dependsOn
  }

  function SideOf(drafts: seq<Draft>, instrument: InstrumentId): Side {
    if drafts == [] then Buy
    else if drafts[0].instrument == instrument then drafts[0].side
    else SideOf(drafts[1..], instrument)
  }

  function LegOf(drafts: seq<Draft>, d: Draft): Leg {
    Leg(LegIdOf(d.instrument, d.side), d.instrument, d.side, d.quantity, d.limitPrice, d.currency, d.protective,
        seq(|d.dependsOn|, k requires 0 <= k < |d.dependsOn| =>
              LegIdOf(d.dependsOn[k], SideOf(drafts, d.dependsOn[k]))),
        d.reducing)
  }

  function EdgesOf(legs: seq<Leg>): Edges {
    if legs == [] then map[] else EdgesOf(legs[..|legs| - 1])[legs[|legs| - 1].id := legs[|legs| - 1].dependsOn]
  }

  lemma {:induction false} EdgesOfLeg(legs: seq<Leg>, i: nat)
    requires i < |legs| && forall j, k :: 0 <= j < k < |legs| ==> legs[j].id != legs[k].id
    ensures legs[i].id in EdgesOf(legs) && EdgesOf(legs)[legs[i].id] == legs[i].dependsOn
  {
    if i < |legs| - 1 {
      EdgesOfLeg(legs[..|legs| - 1], i);
    }
  }

  function LegsOf(ordered: seq<Draft>): seq<Leg> {
    seq(|ordered|, i requires 0 <= i < |ordered| => LegOf(ordered, ordered[i]))
  }

  predicate TimesOk(intent: Intent, createdAt: Instant, expiresAt: Instant) {
    && createdAt != 0 && expiresAt > createdAt && createdAt >= intent.createdAt && expiresAt <= intent.expiresAt
  }

  predicate DraftsApproved(intent: Intent, ordered: seq<Draft>) {
    && (forall i :: 0 <= i < |ordered| ==> Approved(intent, ordered[i]))
    && forall i :: 0 < i < |ordered| ==> ordered[i - 1].instrument != ordered[i].instrument
  }

  /** Exactly what makes a list of drafts, sorted by instrument, a plan. */
  ghost predicate Accepts(intent: Intent, ordered: seq<Draft>, createdAt: Instant, expiresAt: Instant) {
    && TimesOk(intent, createdAt, expiresAt) && 0 < |ordered| <= |intent.legs| && DraftsApproved(intent, ordered)
    && LegsOk(ordered) && !Cyclic(EdgesOf(LegsOf(ordered)))
  }

  method CheckDependencies(ordered: seq<Draft>, d: Draft) returns (ok: bool, seen: set<InstrumentId>)
    ensures ok <==> DependenciesOk(ordered, d)
    ensures ok ==> seen == set k | 0 <= k < |d.dependsOn| :: d.dependsOn[k]
  {
    seen := {};
    for k := 0 to |d.dependsOn|
      invariant seen == set j | 0 <= j < k :: d.dependsOn[j]
      invariant forall j :: 0 <= j < k ==> Listed(ordered, d.dependsOn[j]) && d.dependsOn[j] != d.instrument
      invariant forall i, j :: 0 <= i < j < k ==> d.dependsOn[i] != d.dependsOn[j]
    {
      var x := d.dependsOn[k];
      if !Listed(ordered, x) || x == d.instrument || x in seen {
        return false, {};
      }
      seen := seen + {x};
    }
    return true, seen;
  }

  /** The first pass over the sorted drafts: authority and the protective set. */
  method CheckAuthority(intent: Intent, sorted: seq<Draft>) returns (ok: bool, protective: set<InstrumentId>)
    ensures ok <==> DraftsApproved(intent, sorted)
    ensures ok ==> protective == Protective(sorted)
  {
    hide Approved;
    protective := {};
    for i := 0 to |sorted|
      invariant DraftsApproved(intent, sorted[..i])
      invariant protective == set k | 0 <= k < i && sorted[k].protective :: sorted[k].instrument
    {
      if !Approved(intent, sorted[i]) || (i > 0 && sorted[i - 1].instrument == sorted[i].instrument) {
        return false, {};
      }
      if sorted[i].protective {
        protective := protective + {sorted[i].instrument};
      }
    }
    assert sorted[..|sorted|] == sorted;
    return true, protective;
  }

  function Protective(ordered: seq<Draft>): set<InstrumentId> {
    set k | 0 <= k < |ordered| && ordered[k].protective :: ordered[k].instrument
  }

  predicate LegsOk(ordered: seq<Draft>) {
    forall i :: 0 <= i < |ordered| ==> DependenciesOk(ordered, ordered[i]) && Covered(ordered, ordered[i])
  }

  /** The second pass: dependencies and the protective rule. */
  method CheckLegs(sorted: seq<Draft>, protective: set<InstrumentId>) returns (error: Option<PlanError>)
    requires protective == Protective(sorted)
    ensures error.None? <==> LegsOk(sorted)
    ensures error == Some(UnsafeLegSequence) ==> exists d <- sorted :: !Covered(sorted, d)
    ensures error != Some(DependencyCycle)
    ensures error == Some(InvalidOrderPlan) ==> exists d <- sorted :: !DependenciesOk(sorted, d)
  {
    hide DependenciesOk, Covered, Protective;
    for i := 0 to |sorted|
      invariant forall j :: 0 <= j < i ==> DependenciesOk(sorted, sorted[j]) && Covered(sorted, sorted[j])
    {
      var d := sorted[i];
      var ok, seen := CheckDependencies(sorted, d);
      if !ok {
        return Some(InvalidOrderPlan);
      }
      CoveredBySeen(sorted, d, protective, seen);
      if d.side.Sell? && !d.reducing && (protective == {} || !(protective <= seen)) {
        return Some(UnsafeLegSequence);
      }
    }
    return None;
  }

  lemma CoveredBySeen(ordered: seq<Draft>, d: Draft, protective: set<InstrumentId>, seen: set<InstrumentId>)
    requires protective == Protective(ordered) && seen == set k | 0 <= k < |d.dependsOn| :: d.dependsOn[k]
    ensures Covered(ordered, d) <==> (d.side.Sell? && !d.reducing ==> protective != {} && protective <= seen)
  {
    assert forall k :: 0 <= k < |ordered| && ordered[k].protective ==> ordered[k].instrument in protective;
    assert forall x :: x in seen <==> x in d.dependsOn;
    if protective != {} {
      var x :| x in protective;
    }
  }

  predicate Arranged(ordered: seq<Draft>, drafts: seq<Draft>) {
    Sorted(ByInstrument, ordered) && multiset(ordered) == multiset(drafts)
  }

  ghost predicate HasOrder(edges: Edges) {
    exists order :: Topological(edges, order) && edges.Keys <= Elements(order)
  }

  /** The right answer for sorted drafts: a plan exactly when they are acceptable,
      and then in an order that respects every dependency; an error that names what
      is wrong. */
  ghost predicate Answers(result: Result<Plan, PlanError>, intent: Intent, ordered: seq<Draft>, createdAt: Instant,
                          expiresAt: Instant)
  {
    && (result.Ok? <==> Accepts(intent, ordered, createdAt, expiresAt))
    && (result.Ok? ==>
          && result.value == Plan(LegsOf(ordered), createdAt, expiresAt)
          && HasOrder(EdgesOf(LegsOf(ordered))))
    && (result == Err(DependencyCycle) ==> Cyclic(EdgesOf(LegsOf(ordered))))
    && (result == Err(UnsafeLegSequence) ==> exists d <- ordered :: !Covered(ordered, d))
    && (result == Err(InvalidOrderPlan) ==>
          || !TimesOk(intent, createdAt, expiresAt) || !(0 < |ordered| <= |intent.legs|)
          || !DraftsApproved(intent, ordered) || exists d <- ordered :: !DependenciesOk(ordered, d))
  }

  method NewOrderPlan(intent: Intent, drafts: seq<Draft>, createdAt: Instant, expiresAt: Instant)
    returns (result: Result<Plan, PlanError>)
    ensures exists ordered :: Arranged(ordered, drafts) && Answers(result, intent, ordered, createdAt, expiresAt)
  {
    hide Sorted, DraftsApproved, LegsOk, Cyclic, Topological, EdgesOf, LegsOf, Covered, TimesOk, DependenciesOk;
    ByInstrumentIsStrictOrder();
    var sorted := Sort(ByInstrument, drafts);
    assert Arranged(sorted, drafts);
    if |sorted| == 0 || |sorted| > |intent.legs| || !TimesOk(intent, createdAt, expiresAt) {
      assert Answers(Err(InvalidOrderPlan), intent, sorted, createdAt, expiresAt);
      return Err(InvalidOrderPlan);
    }
    var ok, protective := CheckAuthority(intent, sorted);
    if !ok {
      assert Answers(Err(InvalidOrderPlan), intent, sorted, createdAt, expiresAt);
      return Err(InvalidOrderPlan);
    }
    var error := CheckLegs(sorted, protective);
    if error.Some? {
      assert Answers(Err(error.value), intent, sorted, createdAt, expiresAt);
      return Err(error.value);
    }
    var cycle, order := HasCycle(EdgesOf(LegsOf(sorted)));
    result := if cycle then Err(DependencyCycle) else Ok(Plan(LegsOf(sorted), createdAt, expiresAt));
    assert Answers(result, intent, sorted, createdAt, expiresAt);
  }

  /** What an accepted plan guarantees to the coordinator that executes it. */
  predicate SafeLegs(intent: Intent, legs: seq<Leg>) {
    DistinctLegs(legs) && LegsAuthorised(intent, legs) && Grounded(legs) && Guarded(legs)
  }

  predicate DistinctLegs(legs: seq<Leg>) {
    forall i, j :: 0 <= i < j < |legs| ==> legs[i].id != legs[j].id && legs[i].instrument != legs[j].instrument
  }

  predicate LegsAuthorised(intent: Intent, legs: seq<Leg>) {
    forall i :: 0 <= i < |legs| ==> legs[i].id != 0 && LegAuthorised(intent, legs[i])
  }

  /** Every dependency is a leg of the plan. */
  predicate Grounded(legs: seq<Leg>) {
    forall i, b :: 0 <= i < |legs| && b in legs[i].dependsOn ==> exists j :: 0 <= j < |legs| && legs[j].id == b
  }

  predicate Guarded(legs: seq<Leg>) {
    && (forall i, j :: 0 <= i < |legs| && 0 <= j < |legs| && AddsExposure(legs[i]) && legs[j].protective ==>
          legs[j].id in legs[i].dependsOn)
    && (forall j :: 0 <= j < |legs| && legs[j].protective ==> legs[j].side.Buy?)
    && forall i :: 0 <= i < |legs| && AddsExposure(legs[i]) ==> exists j :: 0 <= j < |legs| && legs[j].protective
  }

  predicate AddsExposure(leg: Leg) {
    leg.side.Sell? && !leg.reducing
  }

  predicate LegAuthorised(intent: Intent, leg: Leg) {
    exists k :: 0 <= k < |intent.legs| && intent.legs[k].instrument == leg.instrument &&
                intent.legs[k].side == leg.side && intent.legs[k].quantity == leg.quantity
  }

  lemma {:induction false} SideOfListed(ordered: seq<Draft>, k: nat)
    requires k < |ordered| && forall i, j :: 0 <= i < j < |ordered| ==> ordered[i].instrument != ordered[j].instrument
    ensures SideOf(ordered, ordered[k].instrument) == ordered[k].side
  {
    if k > 0 {
      assert ordered[1..][k - 1] == ordered[k];
      SideOfListed(ordered[1..], k - 1);
    }
  }

  lemma {:induction false} SortedAreDistinct(ordered: seq<Draft>, i: nat, j: nat)
    requires Sorted(ByInstrument, ordered) && i < j < |ordered|
    requires forall k :: 0 < k < |ordered| ==> ordered[k - 1].instrument != ordered[k].instrument
    ensures ordered[i].instrument < ordered[j].instrument
    decreases j
  {
    assert !ByInstrument(ordered[j], ordered[j - 1]);
    if i < j - 1 {
      SortedAreDistinct(ordered, i, j - 1);
    }
  }

  predicate Increasing(ordered: seq<Draft>) {
    forall i, j :: 0 <= i < j < |ordered| ==> ordered[i].instrument < ordered[j].instrument
  }

  /** The leg identity that a dependency on an instrument stands for. */
  lemma DependencyNamesLeg(ordered: seq<Draft>, i: nat, k: nat, j: nat)
    requires Increasing(ordered) && i < |ordered| && j < |ordered| && k < |ordered[i].dependsOn|
    requires ordered[j].instrument == ordered[i].dependsOn[k]
    ensures LegsOf(ordered)[i].dependsOn[k] == LegsOf(ordered)[j].id
  {
    SideOfListed(ordered, j);
  }

  lemma LegsAreGrounded(ordered: seq<Draft>)
    requires Increasing(ordered) && LegsOk(ordered)
    ensures Grounded(LegsOf(ordered))
  {
    var legs := LegsOf(ordered);
    forall i, b | 0 <= i < |legs| && b in legs[i].dependsOn ensures exists j :: 0 <= j < |legs| && legs[j].id == b {
      var k :| 0 <= k < |legs[i].dependsOn| && legs[i].dependsOn[k] == b;
      assert DependenciesOk(ordered, ordered[i]) && Listed(ordered, ordered[i].dependsOn[k]);
      var j :| 0 <= j < |ordered| && ordered[j].instrument == ordered[i].dependsOn[k];
      DependencyNamesLeg(ordered, i, k, j);
    }
  }

  lemma LegsAreGuarded(intent: Intent, ordered: seq<Draft>)
    requires Increasing(ordered) && LegsOk(ordered) && DraftsApproved(intent, ordered)
    ensures Guarded(LegsOf(ordered))
  {
    hide DependenciesOk;
    var legs := LegsOf(ordered);
    forall i, j | 0 <= i < |legs| && 0 <= j < |legs| && AddsExposure(legs[i]) && legs[j].protective
      ensures legs[j].id in legs[i].dependsOn
    {
      assert Covered(ordered, ordered[i]) && ordered[j].instrument in ordered[i].dependsOn;
      var k :| 0 <= k < |ordered[i].dependsOn| && ordered[i].dependsOn[k] == ordered[j].instrument;
      DependencyNamesLeg(ordered, i, k, j);
    }
    forall i | 0 <= i < |legs| && AddsExposure(legs[i]) ensures exists j :: 0 <= j < |legs| && legs[j].protective {
      assert Covered(ordered, ordered[i]);
      var j :| 0 <= j < |ordered| && ordered[j].protective;
      assert legs[j].protective;
    }
  }

  /** Every accepted plan is safe: distinct legs within the authority, no dangling
      dependency, and every exposure-adding sale behind all protective purchases. */
  lemma AcceptedPlanIsSafe(intent: Intent, ordered: seq<Draft>, createdAt: Instant, expiresAt: Instant)
    requires Sorted(ByInstrument, ordered) && Accepts(intent, ordered, createdAt, expiresAt)
    ensures SafeLegs(intent, LegsOf(ordered))
  {
    hide LegsOk, Grounded, Guarded, Cyclic, EdgesOf;
    forall i, j | 0 <= i < j < |ordered| ensures ordered[i].instrument < ordered[j].instrument {
      SortedAreDistinct(ordered, i, j);
    }
    assert Increasing(ordered);
    LegsAreGrounded(ordered);
    LegsAreGuarded(intent, ordered);
    forall i | 0 <= i < |ordered| ensures LegAuthorised(intent, LegsOf(ordered)[i]) {
      assert Approved(intent, ordered[i]);
    }
  }

  /** A plan is accepted exactly when its times lie within the intent's, it has some
      drafts and no more than the intent, no instrument twice, each draft repeats a leg
      of the intent in its currency, protection buys and reduction sells, dependencies
      name other drafts and each once, a sale that adds exposure waits for all
      protection and there is some, and no dependency leads back. */
  lemma PlanAcceptedExactly(intent: Intent, ordered: seq<Draft>, createdAt: Instant, expiresAt: Instant)
    ensures Accepts(intent, ordered, createdAt, expiresAt) <==>
              && createdAt != 0 && createdAt < expiresAt && intent.createdAt <= createdAt
              && expiresAt <= intent.expiresAt && 0 < |ordered| <= |intent.legs|
              && (forall i :: 0 < i < |ordered| ==> ordered[i - 1].instrument != ordered[i].instrument)
              && (forall i :: 0 <= i < |ordered| ==> DraftAcceptable(intent, ordered, ordered[i]))
              && !Cyclic(EdgesOf(LegsOf(ordered)))
  {
    hide Cyclic, EdgesOf, LegsOf;
    forall i | 0 <= i < |ordered|
      ensures DraftAcceptable(intent, ordered, ordered[i]) <==>
                && Approved(intent, ordered[i]) && DependenciesOk(ordered, ordered[i]) && Covered(ordered, ordered[i])
    {
    }
  }

  predicate DraftAcceptable(intent: Intent, drafts: seq<Draft>, d: Draft) {
    && (exists k :: 0 <= k < |intent.legs| && intent.legs[k].instrument == d.instrument &&
                    intent.legs[k].side == d.side && intent.legs[k].quantity == d.quantity &&
                    intent.legs[k].reducing == d.reducing)
    && d.currency == intent.currency && d.currency != ""
    && (d.protective ==> d.side == Buy) && (d.reducing ==> d.side == Sell)
    && (forall j :: 0 <= j < |d.dependsOn| ==>
          d.dependsOn[j] != d.instrument && exists k :: 0 <= k < |drafts| && drafts[k].instrument == d.dependsOn[j])
    && (forall j, k :: 0 <= j < k < |d.dependsOn| ==> d.dependsOn[j] != d.dependsOn[k])
    && (d.side == Sell && !d.reducing ==>
          && (exists k :: 0 <= k < |drafts| && drafts[k].protective)
          && forall k :: 0 <= k < |drafts| && drafts[k].protective ==> drafts[k].instrument in d.dependsOn)
  }

  /** An intent's legs are accepted exactly when there are some and no more than were
      approved, no instrument twice, and each is of an approved instrument, on its side,
      in its ratio and lots, within its units, and reduces only by selling. */
  lemma IntentAcceptedExactly(legs: seq<IntentLeg>, bounds: seq<Bound>)
    ensures Authorised(legs, bounds) <==>
              && 0 < |legs| <= |bounds|
              && (forall i, j :: 0 <= i < j < |legs| ==> legs[i].instrument != legs[j].instrument)
              && forall i :: 0 <= i < |legs| ==>
                   && BoundFor(bounds, legs[i].instrument).Some?
                   && var b := BoundFor(bounds, legs[i].instrument).value;
                   && legs[i].side == b.side && legs[i].ratio == b.ratio && legs[i].lotSize == b.lotSize
                   && 0 < legs[i].quantity <= b.maximumUnits && 0 < legs[i].lotSize
                   && legs[i].quantity % legs[i].lotSize == 0 && (legs[i].reducing ==> legs[i].side == Sell)
  {
    hide BoundFor;
  }

  /** The legs of an accepted plan say what its drafts say, and a dependency on an
      instrument is one on the leg of that instrument. */
  lemma LegsRepeatDrafts(intent: Intent, ordered: seq<Draft>, createdAt: Instant, expiresAt: Instant, i: nat)
    requires Sorted(ByInstrument, ordered) && Accepts(intent, ordered, createdAt, expiresAt) && i < |ordered|
    ensures |LegsOf(ordered)| == |ordered|
    ensures var leg, d := LegsOf(ordered)[i], ordered[i];
            && leg.instrument == d.instrument && leg.side == d.side && leg.quantity == d.quantity
            && leg.limitPrice == d.limitPrice && leg.currency == d.currency && leg.protective == d.protective
            && leg.reducing == d.reducing && |leg.dependsOn| == |d.dependsOn|
    ensures forall k, j :: 0 <= k < |ordered[i].dependsOn| && 0 <= j < |ordered| &&
                           ordered[j].instrument == ordered[i].dependsOn[k] ==>
              LegsOf(ordered)[i].dependsOn[k] == LegsOf(ordered)[j].id
  {
    hide Cyclic, EdgesOf, LegsOk;
    forall a, b | 0 <= a < b < |ordered| ensures ordered[a].instrument < ordered[b].instrument {
      SortedAreDistinct(ordered, a, b);
    }
    assert Increasing(ordered);
    forall k, j | 0 <= k < |ordered[i].dependsOn| && 0 <= j < |ordered| &&
                  ordered[j].instrument == ordered[i].dependsOn[k]
      ensures LegsOf(ordered)[i].dependsOn[k] == LegsOf(ordered)[j].id
    {
      DependencyNamesLeg(ordered, i, k, j);
    }
  }

  /** Authority is never exceeded: whatever reports an order of an accepted plan
      receives, its fills stay within the units that the risk decision approved for
      its instrument, and no other leg of the plan trades that instrument. */
  lemma FillsStayWithinApproval(intent: Intent, bounds: seq<Bound>, legs: seq<Leg>, i: nat, order: Order,
                                events: seq<Event>)
    requires Authorised(intent.legs, bounds) && SafeLegs(intent, legs) && i < |legs|
    requires order == NewOrder(order.id.plan, order.clientId, legs[i], order.createdAt) && OrderModel.Acceptable(order)
    requires (forall e <- events :: PositiveFill(e)) && After(order, events).Some?
    ensures BoundFor(bounds, legs[i].instrument).Some?
    ensures After(order, events).value.filled == FillTotal(events) <=
            BoundFor(bounds, legs[i].instrument).value.maximumUnits
    ensures forall j :: 0 <= j < |legs| && legs[j].instrument == legs[i].instrument ==> j == i
  {
    assert LegAuthorised(intent, legs[i]);
    var k :| 0 <= k < |intent.legs| && intent.legs[k].instrument == legs[i].instrument &&
             intent.legs[k].quantity == legs[i].quantity;
    assert Within(intent.legs[k], bounds);
    OrderRun(order, events);
  }
}
