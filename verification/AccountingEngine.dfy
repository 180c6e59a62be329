/** Weighted-average-cost accounting of one position: how a fill moves the net
    quantity and the open cost basis, and what is realised when it closes. */
module AccountingEngine {
  import opened Wrappers
  import opened Int64
  import opened AccountingModel
  import opened Products

  datatype EngineError =
    | InvalidInput | PositionMismatch | OutOfOrderFill | ArithmeticOverflow | CurrencyMismatch | InvalidPosition
    | InvalidApplication

  datatype Movement = Movement(newNet: int64, newBasis: int64, closed: int64, newlyOpened: int64,
                               closingBasis: int64, realized: int64)

  /** The share of the basis that `closed` of `open` units carry, truncated. */
  function ProportionalBasis(basis: int64, closed: int64, open: int64): (share: Option<int64>)
    requires open > 0
  {
    var quotient := TruncatedDivide(basis * closed, open);
    if Fits(quotient) then Some(quotient) else None
  }

  /** Opening or adding to a position. */
  function Increase(net: int64, basis: int64, delta: int64, quantity: int64, price: int64)
    : Result<Movement, EngineError>
  {
    match (CheckedAdd(net, delta), CheckedMultiply(price, quantity))
    case (Some(newNet), Some(value)) =>
      (match CheckedAdd(basis, value)
       case Some(newBasis) => Ok(Movement(newNet, newBasis, 0, quantity, 0, 0))
       case None => Err(ArithmeticOverflow))
    case (_, _) => Err(ArithmeticOverflow)
  }

  /** Closing part or all of a position, and opening the other way with any
      excess. */
  function Reduce(net: int64, basis: int64, delta: int64, quantity: int64, price: int64)
    : Result<Movement, EngineError>
    requires net != 0 && net != MIN && quantity > 0 && price > 0 && basis >= 0
  {
    var open: int64 := Magnitude(net);
    var closed: int64 := if quantity < open then quantity else open;
    var share := if closed == open then Some(basis) else ProportionalBasis(basis, closed, open);
    if share.None? then Err(ArithmeticOverflow) else
    var closingBasis := share.value;
    var closingValue := CheckedMultiply(price, closed);
    if closingValue.None? then Err(ArithmeticOverflow) else
    var realized :=
      if net > 0 then CheckedSubtract(closingValue.value, closingBasis)
      else CheckedSubtract(closingBasis, closingValue.value);
    if realized.None? then Err(ArithmeticOverflow) else
    var newNet := CheckedAdd(net, delta);
    if newNet.None? then Err(ArithmeticOverflow) else
    if quantity < open then
      ShareIsWithinBasis(basis, closed, open);
      Ok(Movement(newNet.value, basis - closingBasis, closed, 0, closingBasis, realized.value))
    else if quantity == open then
      Ok(Movement(newNet.value, 0, closed, 0, closingBasis, realized.value))
    else
      match CheckedMultiply(price, quantity - open)
      case Some(newBasis) => Ok(Movement(newNet.value, newBasis, closed, quantity - open, closingBasis, realized.value))
      case None => Err(ArithmeticOverflow)
  }

  function Transition(net: int64, basis: int64, side: Side, quantity: int64, price: int64): Result<Movement,
    EngineError> {
    if quantity <= 0 || price <= 0 || basis < 0 || net == MIN then Err(InvalidInput)
    else
      var delta: int64 := if side.Sell? then -quantity else quantity;
      if net == 0 || (net > 0 && delta > 0) || (net < 0 && delta < 0) then
        Increase(net, basis, delta, quantity, price)
      else
        Reduce(net, basis, delta, quantity, price)
  }

  /** The truncated share never exceeds the basis it is a share of, so the
      overflow branch of ProportionalBasis is never taken; and a partial close
      leaves at least one minor unit of basis per remaining unit. */
  lemma ShareIsWithinBasis(basis: int64, closed: int64, open: int64)
    requires basis >= 0 && 0 < closed < open
    ensures ProportionalBasis(basis, closed, open).Some?
    ensures 0 <= ProportionalBasis(basis, closed, open).value <= basis
    ensures basis >= open ==> basis - ProportionalBasis(basis, closed, open).value >= open - closed
  {
    assert basis * closed >= 0 by { Grows(0, basis, closed); }
    ShareBounds(basis, closed, open, TruncatedDivide(basis * closed, open));
  }

  lemma ShareBounds(basis: int, closed: int, open: int, q: int)
    requires basis >= 0 && 0 < closed < open
    requires q * open <= basis * closed < (q + 1) * open
    ensures 0 <= q <= basis
    ensures basis >= open ==> basis - q >= open - closed
  {
    Grows(0, basis, closed);
    Cancels(0, q + 1, open);
    Grows(closed, open, basis);
    Cancels(q, basis + 1, open);
    if basis >= open {
      Grows(open, basis, open - closed);
      assert (basis - q) * open == basis * open - q * open;
      assert basis * (open - closed) == basis * open - basis * closed;
      assert (open - closed - 1) * open == open * (open - closed) - open;
      Cancels(open - closed - 1, basis - q, open);
    }
  }

  /** A basis that can belong to a net quantity: one minor unit at least for
      every unit held, and nothing when flat. */
  predicate Backed(net: int, basis: int) {
    MIN < net && basis >= Magnitude(net) && (net == 0 ==> basis == 0)
  }

  /** What one fill does to net quantity, basis and realised profit. The third
      clause is the conservation law of a single step: the profit realised is the
      cash received plus the change in signed basis, whatever was truncated. */
  lemma TransitionConserves(net: int64, basis: int64, side: Side, quantity: int64, price: int64)
    requires Backed(net, basis) && quantity > 0 && price > 0
    requires Transition(net, basis, side, quantity, price).Ok?
    ensures Conserves(net, basis, side, quantity, price, Transition(net, basis, side, quantity, price).value)
  {
    hide Increase, Reduce, Conserves;
    if Increases(net, side) {
      IncreaseConserves(net, basis, side, quantity, price);
    } else {
      ReduceConserves(net, basis, side, quantity, price);
    }
  }

  predicate Conserves(net: int, basis: int, side: Side, quantity: int, price: int, t: Movement) {
    var delta := if side.Buy? then quantity else -quantity;
    var cash := if side.Sell? then price * quantity else -(price * quantity);
    && t.newNet == net + delta
    && Backed(t.newNet, t.newBasis)
    && t.realized == cash + Sign(t.newNet) * t.newBasis - Sign(net) * basis
    && t.closed + t.newlyOpened == quantity && t.closed >= 0 && t.newlyOpened >= 0
    && 0 <= t.closingBasis <= basis && Splits(net, basis, price, t)
  }

  /** How a fill divides into closing and opening: what is closed leaves the position
      with its share of the basis and realises the difference to its value, what is
      opened joins it at the fill's price. */
  predicate Splits(net: int, basis: int, price: int, t: Movement) {
    && Magnitude(t.newNet) == Magnitude(net) - t.closed + t.newlyOpened
    && t.newBasis == basis - t.closingBasis + price * t.newlyOpened
    && t.realized == Sign(net) * (price * t.closed - t.closingBasis)
  }

  lemma IncreaseConserves(net: int64, basis: int64, side: Side, quantity: int64, price: int64)
    requires Backed(net, basis) && quantity > 0 && price > 0 && Increases(net, side)
    ensures var t := Increase(net, basis, if side.Buy? then quantity else -quantity, quantity, price);
            t.Ok? ==> Conserves(net, basis, side, quantity, price, t.value)
  {
    ScaleUp(price, quantity);
  }

  lemma ReduceConserves(net: int64, basis: int64, side: Side, quantity: int64, price: int64)
    requires Backed(net, basis) && quantity > 0 && price > 0 && !Increases(net, side)
    ensures var t := Reduce(net, basis, if side.Buy? then quantity else -quantity, quantity, price);
            t.Ok? ==> Conserves(net, basis, side, quantity, price, t.value)
  {
    var open := Magnitude(net);
    if quantity < open {
      ShareIsWithinBasis(basis, quantity, open);
    } else if quantity > open {
      SplitProduct(price, quantity, open);
      ScaleUp(price, quantity - open);
    }
  }

  lemma SplitProduct(price: int, quantity: int, part: int)
    ensures price * quantity == price * part + price * (quantity - part)
  {
  }

  lemma ScaleUp(price: int, quantity: int)
    requires price > 0 && quantity > 0
    ensures price * quantity >= quantity
  {
    assert price * quantity - quantity == (price - 1) * quantity;
  }

  /** A non-negative rational number. */
  datatype Ratio = Ratio(numerator: nat, denominator: nat)

  /** The stored basis lies between the ratio and the ratio plus `slack`. */
  predicate Tracks(basis: int, exact: Ratio, slack: nat) {
    && exact.denominator > 0
    && exact.numerator <= basis * exact.denominator <= exact.numerator + slack * exact.denominator
  }

  /** The exact weighted-average basis after a fill: an increase adds its value, a
      partial close removes exactly the closed fraction and truncates nothing, and
      a full close or a flip starts again from what was opened. */
  function ExactBasis(net: int64, exact: Ratio, side: Side, quantity: int64, price: int64): Ratio
    requires quantity > 0 && price > 0
  {
    var value := price * quantity;
    if Increases(net, side) then
      Ratio(exact.numerator + value * exact.denominator, exact.denominator)
    else if quantity < Magnitude(net) then
      Ratio(exact.numerator * (Magnitude(net) - quantity), exact.denominator * Magnitude(net))
    else
      Ratio(price * (quantity - Magnitude(net)), 1)
  }

  /** How many partial closes have truncated the basis since the position was
      last opened, flattened or flipped. */
  function PartialCloses(net: int64, count: nat, side: Side, quantity: int64): nat {
    if net == 0 then 0
    else if (net > 0) == side.Buy? then count
    else if quantity < Magnitude(net) then count + 1
    else 0
  }

  predicate Increases(net: int, side: Side) {
    net == 0 || (net > 0) == side.Buy?
  }

  /** The basis a fill should leave, in unbounded integers. */
  function NextBasis(net: int, basis: int, side: Side, quantity: int, price: int): int {
    if Increases(net, side) then basis + price * quantity
    else if quantity < Magnitude(net) then basis - TruncatedDivide(basis * quantity, Magnitude(net))
    else price * (quantity - Magnitude(net))
  }

  /** The profit it should realise: cash plus the change in signed basis. */
  function NextRealized(net: int, basis: int, side: Side, quantity: int, price: int): int {
    var delta := if side.Buy? then quantity else -quantity;
    var cash := if side.Buy? then -(price * quantity) else price * quantity;
    cash + Sign(net + delta) * NextBasis(net, basis, side, quantity, price) - Sign(net) * basis
  }

  lemma BasisAfter(net: int64, basis: int64, side: Side, quantity: int64, price: int64)
    requires Backed(net, basis) && quantity > 0 && price > 0
    requires Transition(net, basis, side, quantity, price).Ok?
    ensures Transition(net, basis, side, quantity, price).value.newBasis == NextBasis(net, basis, side, quantity, price)
  {
    hide Reduce;
    if !Increases(net, side) {
      hide Increase;
      ReducedBasis(net, basis, side, quantity, price);
    }
  }

  lemma ReducedBasis(net: int64, basis: int64, side: Side, quantity: int64, price: int64)
    requires Backed(net, basis) && quantity > 0 && price > 0 && !Increases(net, side)
    ensures var t := Reduce(net, basis, if side.Buy? then quantity else -quantity, quantity, price);
            t.Ok? ==> t.value.newBasis == NextBasis(net, basis, side, quantity, price)
  {
    if quantity == Magnitude(net) {
      assert price * (quantity - Magnitude(net)) == 0;
    }
  }

  /** One step keeps the stored basis at or above the exact one, by at most one
      minor unit per partial close. */
  lemma TransitionTracksExactBasis(net: int64, basis: int64, side: Side, quantity: int64, price: int64, exact: Ratio,
                                   count: nat)
    requires Backed(net, basis) && quantity > 0 && price > 0
    requires Transition(net, basis, side, quantity, price).Ok?
    requires Tracks(basis, exact, count)
    ensures Tracks(Transition(net, basis, side, quantity, price).value.newBasis,
                   ExactBasis(net, exact, side, quantity, price), PartialCloses(net, count, side, quantity))
  {
    BasisAfter(net, basis, side, quantity, price);
    StepTracks(net, basis, side, quantity, price, exact, count,
               Transition(net, basis, side, quantity, price).value.newBasis);
  }

  lemma StepTracks(net: int64, basis: int64, side: Side, quantity: int64, price: int64, exact: Ratio, count: nat,
                   newBasis: int)
    requires Backed(net, basis) && quantity > 0 && price > 0
    requires newBasis == NextBasis(net, basis, side, quantity, price)
    requires Tracks(basis, exact, count)
    ensures Tracks(newBasis, ExactBasis(net, exact, side, quantity, price), PartialCloses(net, count, side, quantity))
  {
    if net == 0 {
      IncreaseTracks(0, price * quantity, exact, 0);
    } else if (net > 0) == side.Buy? {
      IncreaseTracks(basis, price * quantity, exact, count);
    } else if quantity < Magnitude(net) {
      PartialCloseTracks(basis, quantity, Magnitude(net), exact, count);
    }
  }

  lemma IncreaseTracks(basis: int, value: int, exact: Ratio, count: nat)
    requires value >= 0
    requires Tracks(basis, exact, count) || (basis == 0 && exact.numerator == 0 && exact.denominator > 0)
    ensures value * exact.denominator >= 0
    ensures Tracks(basis + value, Ratio(exact.numerator + value * exact.denominator, exact.denominator), count)
  {
    Grows(0, value, exact.denominator);
    Distributes(basis, value, exact.denominator);
    Grows(0, count, exact.denominator);
  }

  lemma PartialCloseTracks(basis: int64, closed: int64, open: int64, exact: Ratio, count: nat)
    requires basis >= 0 && 0 < closed < open && Tracks(basis, exact, count)
    ensures ProportionalBasis(basis, closed, open).Some?
    ensures Tracks(basis - ProportionalBasis(basis, closed, open).value,
                   Ratio(exact.numerator * (open - closed), exact.denominator * open), count + 1)
  {
    ShareIsWithinBasis(basis, closed, open);
    var q := ProportionalBasis(basis, closed, open).value;
    assert basis * closed >= 0 by { Grows(0, basis, closed); }
    assert q * open <= basis * closed < (q + 1) * open;
    var kept, rest := basis - q, open - closed;
    assert kept * open == basis * open - q * open;
    assert basis * rest == basis * open - basis * closed;
    assert open * exact.denominator > 0 by { Grows(1, open, exact.denominator); }
    ScaledBounds(exact.numerator, exact.denominator, basis, count, rest, open, kept);
  }

  /** With n <= b*d <= n + k*d and kept*open within open of b*rest, kept*(d*open) is
      within (k+1)*(d*open) of n*rest. */
  lemma ScaledBounds(n: nat, d: nat, b: int, k: nat, rest: nat, open: nat, kept: int)
    requires n <= b * d <= n + k * d && rest < open
    requires b * rest <= kept * open <= b * rest + open
    ensures n * rest <= kept * (d * open) <= n * rest + (k + 1) * (d * open)
  {
    calc {
      n * rest;
    <= { Grows(n, b * d, rest); }
      b * d * rest;
    == { Regroup(b, d, rest); }
      b * rest * d;
    <= { Grows(b * rest, kept * open, d); }
      kept * open * d;
    == { Regroup(kept, open, d); }
      kept * (d * open);
    }
    calc {
      kept * (d * open);
    == { Regroup(kept, open, d); }
      kept * open * d;
    <= { Grows(kept * open, b * rest + open, d); }
      (b * rest + open) * d;
    == { Distributes(b * rest, open, d); Regroup(b, rest, d); }
      b * d * rest + d * open;
    <= { Grows(b * d, n + k * d, rest); }
      (n + k * d) * rest + d * open;
    == { Distributes(n, k * d, rest); }
      n * rest + k * d * rest + d * open;
    <= { Grows(rest, open, k * d); }
      n * rest + k * d * open + d * open;
    == { Regroup(k, d, open); Distributes(k, 1, d * open); }
      n * rest + (k + 1) * (d * open);
    }
  }

  datatype Application = Application(position: PositionId, fill: Fill, previousRevision: int, nextRevision: int,
                                     previous: Option<Snapshot>, next: Snapshot, closed: int64, newlyOpened: int64,
                                     closingBasis: int64, realizedDelta: int64)

  datatype Applied = Applied(snapshot: Snapshot, application: Application)

  /** The state a first fill starts from. */
  function Fresh(fill: Fill): Snapshot {
    Snapshot(fill.position, fill.currency, 0, 0, None, 0, 0, 0, 0, 0, 0, OrderingKey(0, 0, 0), 0, 0, Genesis, 0, 0, 0)
  }

  /** Cumulative quantities and values after the fill; None on overflow. */
  function Accumulate(quantity: int64, value: int64, addQuantity: int64, addValue: int64): Option<(int64, int64)> {
    match (CheckedAdd(quantity, addQuantity), CheckedAdd(value, addValue))
    case (Some(q), Some(v)) => if q < 0 then None else Some((q, v))
    case (_, _) => None
  }

  /** The new snapshot once the arithmetic has succeeded. */
  function Advance(s: Snapshot, fill: Fill, t: Movement, bought: (int64, int64), sold: (int64, int64), realized: int64)
    : Snapshot
  {
    var at := fill.occurredAt;
    var openedAt := if t.newNet != 0 && (s.net == 0 || (s.net < 0) != (t.newNet < 0)) then at else s.openedAt;
    var lot := if t.newNet == 0 then None else
                 Some(Lot(if t.newNet < 0 then Sell else Buy, Magnitude(t.newNet), t.newBasis, t.newBasis,
                          Magnitude(t.newNet), openedAt));
    Snapshot(s.position, s.currency, s.revision + 1, t.newNet, lot, t.newBasis, bought.0, bought.1, sold.0, sold.1,
             realized, fill.Key(), fill.id, s.appliedCount + 1, Link(s.appliedChain, fill),
             if openedAt == 0 then at else openedAt, at, if t.newNet == 0 then at else 0)
  }

  function ApplyArithmetic(s: Snapshot, fill: Fill, value: int64): Result<(Snapshot, Movement), EngineError> {
    match Transition(s.net, s.basis, fill.side, fill.quantity, fill.price)
    case Err(e) => Err(e)
    case Ok(t) =>
      var bought := if fill.side.Buy? then Accumulate(s.boughtQuantity, s.boughtValue, fill.quantity, value)
                    else Some((s.boughtQuantity, s.boughtValue));
      var sold := if fill.side.Sell? then Accumulate(s.soldQuantity, s.soldValue, fill.quantity, value)
                  else Some((s.soldQuantity, s.soldValue));
      if bought.None? || sold.None? then Err(ArithmeticOverflow) else
      var realized := CheckedAdd(s.realized, t.realized);
      if realized.None? || s.appliedCount == MAX_UINT64 then Err(ArithmeticOverflow) else
      Ok((Advance(s, fill, t, bought.value, sold.value, realized.value), t))
  }

  /** Folds one fill into a position. */
  function Apply(current: Option<Snapshot>, fill: Fill): Result<Applied, EngineError> {
    if fill.Unset() then Err(InvalidInput) else
    if current.Some? && (current.value.position.Unset() || current.value.position != fill.position) then
      Err(PositionMismatch)
    else if current.Some? && fill.Key().Compare(current.value.lastKey) <= 0 then Err(OutOfOrderFill)
    else
      match CheckedMultiply(fill.price, fill.quantity)
      case None => Err(ArithmeticOverflow)
      case Some(value) =>
        if current.Some? && current.value.revision == MAX_UINT64 then Err(ArithmeticOverflow) else
        if current.Some? && current.value.currency != fill.currency then Err(CurrencyMismatch) else
        var s := if current.Some? then current.value else Fresh(fill);
        match ApplyArithmetic(s, fill, value)
        case Err(e) => Err(e)
        case Ok((next, t)) =>
          if !Acceptable(next) then Err(InvalidPosition) else
          var application := Application(fill.position, fill, s.revision, next.revision, current, next, t.closed,
                                         t.newlyOpened, t.closingBasis, t.realized);
          if t.closed < 0 || t.newlyOpened < 0 || t.closingBasis < 0 then Err(InvalidApplication)
          else Ok(Applied(next, application))
  }

  /** The fold of a whole fill history, oldest fill first. */
  function History(fills: seq<Fill>): Result<Option<Snapshot>, EngineError> {
    if fills == [] then Ok(None) else
    match History(fills[..|fills| - 1])
    case Err(e) => Err(e)
    case Ok(before) =>
      match Apply(before, fills[|fills| - 1])
      case Err(e) => Err(e)
      case Ok(applied) => Ok(Some(applied.snapshot))
  }

  function Quantity(fills: seq<Fill>, side: Side): int {
    if fills == [] then 0 else
    var last := fills[|fills| - 1];
    Quantity(fills[..|fills| - 1], side) + if last.side == side then last.quantity else 0
  }

  function Value(fills: seq<Fill>, side: Side): int {
    if fills == [] then 0 else
    var last := fills[|fills| - 1];
    Value(fills[..|fills| - 1], side) + if last.side == side then last.price * last.quantity else 0
  }

  function Chain(fills: seq<Fill>): FillChain {
    if fills == [] then Genesis else Link(Chain(fills[..|fills| - 1]), fills[|fills| - 1])
  }

  predicate AllValid(fills: seq<Fill>) {
    forall i :: 0 <= i < |fills| ==> fills[i].Valid()
  }

  function ExactHistory(fills: seq<Fill>): Ratio
    requires AllValid(fills)
  {
    if fills == [] then Ratio(0, 1) else
    var before := fills[..|fills| - 1];
    var net := Quantity(before, Buy) - Quantity(before, Sell);
    var last := fills[|fills| - 1];
    if Fits(net) then ExactBasis(net, ExactHistory(before), last.side, last.quantity, last.price) else Ratio(0, 1)
  }

  function PartialClosesIn(fills: seq<Fill>): nat {
    if fills == [] then 0 else
    var before := fills[..|fills| - 1];
    var net := Quantity(before, Buy) - Quantity(before, Sell);
    var last := fills[|fills| - 1];
    if Fits(net) then PartialCloses(net, PartialClosesIn(before), last.side, last.quantity) else 0
  }

  /** The invariant of every reachable snapshot. */
  predicate Sound(s: Snapshot) {
    && Acceptable(s) && Backed(s.net, s.basis)
    && s.net == s.boughtQuantity - s.soldQuantity
    && s.realized == s.soldValue - s.boughtValue + Sign(s.net) * s.basis
    && s.updatedAt == s.lastKey.occurredAt && s.revision == s.appliedCount
  }

  predicate SoundBefore(before: Option<Snapshot>) {
    before.Some? ==> Sound(before.value)
  }

  function NetOf(before: Option<Snapshot>): int64 {
    if before.Some? then before.value.net else 0
  }

  function BasisOf(before: Option<Snapshot>): int64 {
    if before.Some? then before.value.basis else 0
  }

  /** The only ways in which a fill can be refused by a reachable position. The
      input test inside Transition, the snapshot constructor and the application
      constructor never reject. */
  predicate ExpectedRefusal(e: EngineError) {
    e in {PositionMismatch, OutOfOrderFill, ArithmeticOverflow, CurrencyMismatch}
  }

  /** What a fill adds to the running totals of a snapshot. */
  predicate Extends(s: Snapshot, fill: Fill, next: Snapshot) {
    && next.position == s.position && next.currency == s.currency
    && next.boughtQuantity == s.boughtQuantity + (if fill.side.Buy? then fill.quantity else 0)
    && next.soldQuantity == s.soldQuantity + (if fill.side.Sell? then fill.quantity else 0)
    && next.boughtValue == s.boughtValue + (if fill.side.Buy? then fill.price * fill.quantity else 0)
    && next.soldValue == s.soldValue + (if fill.side.Sell? then fill.price * fill.quantity else 0)
    && next.appliedChain == Link(s.appliedChain, fill) && next.revision == s.revision + 1
    && next.lastKey == fill.Key() && next.lastFill == fill.id && next.appliedCount == s.appliedCount + 1
    && Dated(s, fill, next)
  }

  /** A position is dated by the fill that opened it or turned it round, updated by
      every fill, and flat since the fill that closed it; its one lot says the same. */
  predicate Dated(s: Snapshot, fill: Fill, next: Snapshot) {
    && next.updatedAt == fill.occurredAt
    && next.flatAt == (if next.net == 0 then fill.occurredAt else 0)
    && (next.net != 0 && Sign(next.net) != Sign(s.net) ==> next.openedAt == fill.occurredAt)
    && (s.openedAt != 0 && (next.net == 0 || Sign(next.net) == Sign(s.net)) ==> next.openedAt == s.openedAt)
    && (next.net == 0 <==> next.lot.None?)
    && (next.net != 0 ==>
          next.lot == Some(Lot(if next.net > 0 then Buy else Sell, Magnitude(next.net), next.basis, next.basis,
                               Magnitude(next.net), next.openedAt)))
  }

  /** The record of what a fill did tells it truly. */
  predicate Tells(a: Application, before: Option<Snapshot>, base: Snapshot, fill: Fill, next: Snapshot) {
    && a.position == fill.position && a.fill == fill && a.previous == before && a.next == next
    && a.previousRevision == base.revision && a.nextRevision == next.revision
    && a.closed + a.newlyOpened == fill.quantity && a.closed >= 0 && a.newlyOpened >= 0
    && Magnitude(next.net) == Magnitude(base.net) - a.closed + a.newlyOpened
    && next.basis == base.basis - a.closingBasis + fill.price * a.newlyOpened
    && a.realizedDelta == Sign(base.net) * (fill.price * a.closed - a.closingBasis)
    && next.realized == base.realized + a.realizedDelta
  }

  function Base(before: Option<Snapshot>, fill: Fill): Snapshot {
    if before.Some? then before.value else Fresh(fill)
  }

  lemma TransitionError(net: int64, basis: int64, side: Side, quantity: int64, price: int64)
    requires Backed(net, basis) && quantity > 0 && price > 0
    ensures var t := Transition(net, basis, side, quantity, price);
            t.Err? ==> t.error == ArithmeticOverflow
  {
  }

  lemma ArithmeticKeepsSound(s: Snapshot, fill: Fill, value: int64)
    requires (Sound(s) && fill.occurredAt >= s.updatedAt) || s == Fresh(fill)
    requires fill.Valid() && value == fill.price * fill.quantity
    ensures match ApplyArithmetic(s, fill, value)
            case Ok((next, t)) =>
              && Sound(next) && Extends(s, fill, next)
              && t.closed >= 0 && t.newlyOpened >= 0 && t.closingBasis >= 0
              && Transition(s.net, s.basis, fill.side, fill.quantity, fill.price) == Ok(t) && next.basis == t.newBasis
              && next.net == t.newNet && next.realized == s.realized + t.realized
              && t.closed + t.newlyOpened == fill.quantity && Splits(s.net, s.basis, fill.price, t)
            case Err(e) => e == ArithmeticOverflow
  {
    hide Transition, Advance, Extends, Acceptable;
    var t := Transition(s.net, s.basis, fill.side, fill.quantity, fill.price);
    TransitionError(s.net, s.basis, fill.side, fill.quantity, fill.price);
    var next := ApplyArithmetic(s, fill, value);
    if next.Ok? {
      TransitionConserves(s.net, s.basis, fill.side, fill.quantity, fill.price);
      ScaleUp(fill.price, fill.quantity);
      var bought := if fill.side.Buy? then (s.boughtQuantity + fill.quantity, s.boughtValue + value)
                    else (s.boughtQuantity, s.boughtValue);
      var sold := if fill.side.Sell? then (s.soldQuantity + fill.quantity, s.soldValue + value)
                  else (s.soldQuantity, s.soldValue);
      AdvanceIsSound(s, fill, t.value, bought, sold, s.realized + t.value.realized);
    }
  }

  lemma AdvanceIsSound(s: Snapshot, fill: Fill, t: Movement, bought: (int64, int64), sold: (int64, int64),
                       realized: int64)
    requires (Sound(s) && fill.occurredAt >= s.updatedAt) || s == Fresh(fill)
    requires fill.Valid() && Conserves(s.net, s.basis, fill.side, fill.quantity, fill.price, t)
    requires fill.price * fill.quantity > 0 && s.appliedCount != MAX_UINT64 && realized == s.realized + t.realized
    requires bought == if fill.side.Buy? then (s.boughtQuantity + fill.quantity,
                                               s.boughtValue + fill.price * fill.quantity)
                       else (s.boughtQuantity, s.boughtValue)
    requires sold == if fill.side.Sell? then (s.soldQuantity + fill.quantity, s.soldValue + fill.price * fill.quantity)
                     else (s.soldQuantity, s.soldValue)
    ensures Sound(Advance(s, fill, t, bought, sold, realized))
    ensures Extends(s, fill, Advance(s, fill, t, bought, sold, realized))
    ensures Advance(s, fill, t, bought, sold, realized).basis == t.newBasis
    ensures Advance(s, fill, t, bought, sold, realized).net == t.newNet
    ensures Advance(s, fill, t, bought, sold, realized).realized == realized
  {
  }

  lemma ApplyKeepsSound(current: Option<Snapshot>, fill: Fill)
    requires SoundBefore(current) && fill.Valid()
    ensures match Apply(current, fill)
            case Ok(a) =>
              && Sound(a.snapshot) && Extends(Base(current, fill), fill, a.snapshot)
              && Tells(a.application, current, Base(current, fill), fill, a.snapshot)
            case Err(e) => ExpectedRefusal(e)
  {
    if Fits(fill.price * fill.quantity) {
      if current.Some? && fill.Key().Compare(current.value.lastKey) > 0 {
        CompareIsTotalOrder(current.value.lastKey, fill.Key(), fill.Key());
        ArithmeticKeepsSound(current.value, fill, fill.price * fill.quantity);
      } else if current.None? {
        ArithmeticKeepsSound(Fresh(fill), fill, fill.price * fill.quantity);
      }
    }
  }

  /** A transition fails exactly when the basis it should produce does not fit,
      which only an increase can cause: from a backed position no other test in it
      can fail, and closing always succeeds. */
  lemma TransitionSucceedsExactly(net: int64, basis: int64, side: Side, quantity: int64, price: int64)
    requires Backed(net, basis) && quantity > 0 && price > 0 && Fits(price * quantity)
    ensures Transition(net, basis, side, quantity, price).Ok? <==> Fits(NextBasis(net, basis, side, quantity, price))
    ensures !Increases(net, side) ==> Transition(net, basis, side, quantity, price).Ok?
  {
    ScaleUp(price, quantity);
    if Increases(net, side) {
      hide Reduce;
    } else {
      hide Increase, Conserves, NextBasis, Backed;
      ReduceSucceeds(net, basis, side, quantity, price);
      TransitionMatches(net, basis, side, quantity, price);
    }
  }

  lemma ReduceSucceeds(net: int64, basis: int64, side: Side, quantity: int64, price: int64)
    requires Backed(net, basis) && quantity > 0 && price > 0 && Fits(price * quantity) && !Increases(net, side)
    ensures Transition(net, basis, side, quantity, price).Ok?
  {
    var open := Magnitude(net);
    var closed := if quantity < open then quantity else open;
    Grows(closed, quantity, price);
    Grows(0, closed, price);
    SplitProduct(price, quantity, closed);
    Grows(0, quantity - closed, price);
    if quantity < open {
      ShareIsWithinBasis(basis, closed, open);
    }
  }

  /** Every total that the fill produces fits in 64 bits. */
  predicate TotalsFit(s: Snapshot, fill: Fill)
    requires fill.Valid()
  {
    var value := fill.price * fill.quantity;
    var profit := NextRealized(s.net, s.basis, fill.side, fill.quantity, fill.price);
    && Fits(value) && Fits(NextBasis(s.net, s.basis, fill.side, fill.quantity, fill.price))
    && (if fill.side.Buy? then Fits(s.boughtQuantity + fill.quantity) && Fits(s.boughtValue + value)
        else Fits(s.soldQuantity + fill.quantity) && Fits(s.soldValue + value))
    && Fits(s.realized + profit)
  }

  lemma ArithmeticSucceedsExactly(s: Snapshot, fill: Fill, value: int64)
    requires Sound(s) || s == Fresh(fill)
    requires fill.Valid() && value == fill.price * fill.quantity && s.revision != MAX_UINT64
    ensures ApplyArithmetic(s, fill, value).Ok? <==> TotalsFit(s, fill)
  {
    hide Transition, NextBasis, NextRealized, Advance;
    TransitionSucceedsExactly(s.net, s.basis, fill.side, fill.quantity, fill.price);
    if Transition(s.net, s.basis, fill.side, fill.quantity, fill.price).Ok? {
      TransitionMatches(s.net, s.basis, fill.side, fill.quantity, fill.price);
    }
  }

  lemma TransitionMatches(net: int64, basis: int64, side: Side, quantity: int64, price: int64)
    requires Backed(net, basis) && quantity > 0 && price > 0
    requires Transition(net, basis, side, quantity, price).Ok?
    ensures var t := Transition(net, basis, side, quantity, price).value;
            && t.newBasis == NextBasis(net, basis, side, quantity, price)
            && t.realized == NextRealized(net, basis, side, quantity, price)
  {
    BasisAfter(net, basis, side, quantity, price);
    TransitionConserves(net, basis, side, quantity, price);
  }

  /** Exactly when a position accepts a fill: it belongs to the position, comes
      after everything applied, is in its currency, and every total it produces
      fits in 64 bits. */
  lemma ApplySucceedsExactly(current: Option<Snapshot>, fill: Fill)
    requires SoundBefore(current) && fill.Valid()
    ensures Apply(current, fill).Ok? <==>
              && (current.Some? ==>
                    && current.value.position == fill.position && current.value.currency == fill.currency
                    && current.value.lastKey.Compare(fill.Key()) < 0 && current.value.revision != MAX_UINT64)
              && TotalsFit(Base(current, fill), fill)
  {
    var s := Base(current, fill);
    if current.Some? {
      CompareIsTotalOrder(s.lastKey, fill.Key(), fill.Key());
    }
    if Fits(fill.price * fill.quantity) && s.revision != MAX_UINT64 {
      ArithmeticSucceedsExactly(s, fill, fill.price * fill.quantity);
      if current.None? || s.lastKey.Compare(fill.Key()) < 0 {
        ArithmeticKeepsSound(s, fill, fill.price * fill.quantity);
      }
    }
  }

  /** Which refusal a fill meets, the first that applies: it is no fill; it belongs to
      another position; it does not come after everything applied; it is in another
      currency; a total leaves the 64-bit range or the revisions are used up. */
  lemma RefusalExactly(current: Option<Snapshot>, fill: Fill)
    requires SoundBefore(current) && (fill.Valid() || fill.Unset())
    ensures Apply(current, fill) == Err(InvalidInput) <==> fill.Unset()
    ensures Apply(current, fill) == Err(PositionMismatch) <==>
              !fill.Unset() && current.Some? && current.value.position != fill.position
    ensures Apply(current, fill) == Err(OutOfOrderFill) <==>
              && !fill.Unset() && current.Some? && current.value.position == fill.position
              && current.value.lastKey.Compare(fill.Key()) >= 0
    ensures Apply(current, fill) == Err(CurrencyMismatch) <==>
              && !fill.Unset() && current.Some? && current.value.position == fill.position
              && current.value.lastKey.Compare(fill.Key()) < 0 && current.value.currency != fill.currency
              && Fits(fill.price * fill.quantity) && current.value.revision != MAX_UINT64
  {
    hide Advance, Acceptable, ApplyArithmetic;
    if current.Some? {
      CompareIsTotalOrder(current.value.lastKey, fill.Key(), fill.Key());
      assert !current.value.position.Unset() by { SoundIsSet(current.value); }
    }
    if fill.Valid() && Fits(fill.price * fill.quantity) {
      ApplyKeepsSound(current, fill);
      ArithmeticRefuses(Base(current, fill), fill, fill.price * fill.quantity);
    }
  }

  lemma SoundIsSet(s: Snapshot)
    requires Sound(s)
    ensures !s.position.Unset()
  {
  }

  lemma ArithmeticRefuses(s: Snapshot, fill: Fill, value: int64)
    requires (Sound(s) || s == Fresh(fill)) && fill.Valid()
    ensures ApplyArithmetic(s, fill, value).Err? ==> ApplyArithmetic(s, fill, value).error == ArithmeticOverflow
  {
    hide Advance;
  }

  /** The snapshot's totals are those of the fill history. */
  predicate Totals(s: Snapshot, fills: seq<Fill>) {
    && s.boughtQuantity == Quantity(fills, Buy) && s.soldQuantity == Quantity(fills, Sell)
    && s.boughtValue == Value(fills, Buy) && s.soldValue == Value(fills, Sell)
    && s.appliedChain == Chain(fills) && s.revision == |fills|
  }

  /** Conservation over a whole history. Net quantity, traded values and the
      applied chain are exactly those of the fills, and realised profit equals
      cash sold minus cash bought plus the signed open basis: no minor unit is
      created or lost by truncation. The only refusals are those listed. */
  lemma {:induction false} HistoryConserves(fills: seq<Fill>)
    requires AllValid(fills)
    ensures match History(fills)
            case Err(e) => ExpectedRefusal(e)
            case Ok(None) => fills == []
            case Ok(Some(s)) =>
              && fills != [] && Sound(s) && Totals(s, fills) && s.lastKey == fills[|fills| - 1].Key()
              && s.net == Quantity(fills, Buy) - Quantity(fills, Sell)
              && s.realized == Value(fills, Sell) - Value(fills, Buy) + Sign(s.net) * s.basis
  {
    hide Apply, Acceptable;
    if fills != [] {
      var before, last := fills[..|fills| - 1], fills[|fills| - 1];
      HistoryConserves(before);
      if History(before).Ok? {
        assert Totals(Base(History(before).value, last), before);
        ApplyKeepsSound(History(before).value, last);
      }
    }
  }

  lemma ApplyTracksExactBasis(current: Option<Snapshot>, fill: Fill, exact: Ratio, count: nat)
    requires SoundBefore(current) && fill.Valid() && Apply(current, fill).Ok?
    requires Tracks(BasisOf(current), exact, count)
    ensures Tracks(Apply(current, fill).value.snapshot.basis,
                   ExactBasis(NetOf(current), exact, fill.side, fill.quantity, fill.price),
                   PartialCloses(NetOf(current), count, fill.side, fill.quantity))
  {
    TransitionTracksExactBasis(NetOf(current), BasisOf(current), fill.side, fill.quantity, fill.price, exact, count);
  }

  lemma NothingTracked()
    ensures Tracks(0, Ratio(0, 1), 0)
  {
  }

  lemma SoundIsBacked(s: Option<Snapshot>)
    requires SoundBefore(s)
    ensures BasisOf(s) >= Magnitude(NetOf(s)) && (BasisOf(s) == 0 <==> NetOf(s) == 0) && NetOf(s) != MIN
    ensures s.Some? ==> s.value.net == s.value.boughtQuantity - s.value.soldQuantity
  {
  }

  /** The stored basis never falls below the exact weighted-average basis and
      exceeds it by at most one minor unit per partial close since the position
      was last opened or flipped; it covers one minor unit per unit held and is
      zero exactly when the position is flat. */
  lemma {:induction false} HistoryTracksExactBasis(fills: seq<Fill>)
    requires AllValid(fills) && History(fills).Ok?
    ensures var s := History(fills).value;
            && Tracks(BasisOf(s), ExactHistory(fills), PartialClosesIn(fills))
            && BasisOf(s) >= Magnitude(NetOf(s)) && (BasisOf(s) == 0 <==> NetOf(s) == 0) && NetOf(s) != MIN
  {
    hide Apply, Tracks, ExactBasis, PartialCloses, Totals;
    HistoryConserves(fills);
    SoundIsBacked(History(fills).value);
    if fills == [] {
      assert Tracks(0, Ratio(0, 1), 0) by { NothingTracked(); }
    } else {
      var before := fills[..|fills| - 1];
      HistoryTracksExactBasis(before);
      HistoryConserves(before);
      ApplyTracksExactBasis(History(before).value, fills[|fills| - 1], ExactHistory(before), PartialClosesIn(before));
    }
  }
}
