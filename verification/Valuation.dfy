/** Sums over sequences and their independence of order. */
module Sums {
  function Sum<T>(f: T -> int, s: seq<T>): int {
    if s == [] then 0 else Sum(f, s[..|s| - 1]) + f(s[|s| - 1])
  }

  lemma {:induction false} SumOfConcat<T>(f: T -> int, a: seq<T>, b: seq<T>)
    ensures Sum(f, a + b) == Sum(f, a) + Sum(f, b)
  {
    if b == [] {
      assert a + b == a;
    } else {
      assert (a + b)[..|a + b| - 1] == a + b[..|b| - 1];
      SumOfConcat(f, a, b[..|b| - 1]);
    }
  }

  lemma {:induction false} SumOfPermutation<T>(f: T -> int, a: seq<T>, b: seq<T>)
    requires multiset(a) == multiset(b)
    ensures Sum(f, a) == Sum(f, b)
  {
    if a == [] {
      assert |multiset(b)| == 0;
    } else {
      var n := |a| - 1;
      assert a == a[..n] + [a[n]];
      assert a[n] in multiset(b);
      var i :| 0 <= i < |b| && b[i] == a[n];
      assert b == b[..i] + ([b[i]] + b[i + 1..]);
      SumOfConcat(f, b[..i], [b[i]] + b[i + 1..]);
      SumOfConcat(f, [b[i]], b[i + 1..]);
      SumOfConcat(f, b[..i], b[i + 1..]);
      assert multiset(b[..i] + b[i + 1..]) == multiset(b) - multiset{b[i]};
      SumOfPermutation(f, a[..n], b[..i] + b[i + 1..]);
      assert Sum(f, [b[i]]) == f(b[i]) by { assert [b[i]][..0] == []; }
    }
  }
}

/** Marking positions to market and aggregating a portfolio. */
module Valuation {
  import opened Wrappers
  import opened Int64
  import opened AccountingModel
  import opened AccountingEngine
  import opened Products
  import opened Sorting
  import opened Sums

  datatype Status = Complete | Partial | Stale | Unavailable

  datatype Reason =
    | NoReason | MissingMark | StaleMark | InvalidPrice | ClockSkew | RevisionMismatch | MarkCurrencyMismatch

  datatype ValuationError = InvalidValuation | MoneyOverflow | PortfolioCurrencyMismatch

  datatype Mark = Mark(instrument: nat, price: int64, currency: string, lastTraded: bool, checksum: nat,
                       exchangeTime: Instant, ingestedAt: Instant, ready: bool)

  datatype Policy = Policy(maximumExchangeAge: int, maximumIngestionAge: int, clockSkewTolerance: int) {
    predicate Valid() {
      maximumExchangeAge > 0 && maximumIngestionAge > 0 && clockSkewTolerance >= 0
    }
  }

  datatype PositionValuation = PositionValuation(position: PositionId, currency: string, net: int64, realized: int64,
                                                 market: Option<int64>, unrealized: Option<int64>,
                                                 gross: Option<int64>, status: Status, reason: Reason)

  /** Why a mark may not be used at all, in the order of the tests. */
  function MarkDefect(s: Snapshot, mark: Mark, now: Instant, policy: Policy): Option<Reason> {
    var latest := now + policy.clockSkewTolerance;
    if mark.instrument != s.position.instrument || mark.checksum == 0 then Some(RevisionMismatch)
    else if !mark.lastTraded || mark.currency == "" || mark.price <= 0 then Some(InvalidPrice)
    else if mark.currency != s.currency then Some(MarkCurrencyMismatch)
    else if mark.exchangeTime > latest || mark.ingestedAt > latest then Some(ClockSkew)
    else if mark.exchangeTime > mark.ingestedAt + policy.clockSkewTolerance then Some(ClockSkew)
    else None
  }

  predicate Aged(mark: Mark, now: Instant, policy: Policy) {
    || !mark.ready || now - mark.exchangeTime > policy.maximumExchangeAge
    || now - mark.ingestedAt > policy.maximumIngestionAge
  }

  function Unvalued(s: Snapshot, reason: Reason): PositionValuation {
    PositionValuation(s.position, s.currency, s.net, s.realized, None, None, None, Unavailable, reason)
  }

  /** Market value, unrealised and gross profit of an open position at a price. */
  function MarkToMarket(s: Snapshot, price: int64): Result<(int64, int64, int64), ValuationError>
    requires s.net != 0 && price > 0 && s.basis >= 0
  {
    if s.net == MIN then Err(MoneyOverflow) else
    var quantity := Magnitude(s.net);
    if price > MAX / quantity then Err(MoneyOverflow) else
    WithinQuotient(price, quantity, MAX);
    Grows(1, price, quantity);
    var market: int64 := price * quantity;
    if s.net > 0 && market < MIN + s.basis then Err(MoneyOverflow) else
    if s.net < 0 && s.basis < MIN + market then Err(MoneyOverflow) else
    var unrealized: int64 := if s.net > 0 then market - s.basis else s.basis - market;
    match CheckedAdd(s.realized, unrealized)
    case None => Err(MoneyOverflow)
    case Some(gross) => Ok((market, unrealized, gross))
  }

  lemma WithinQuotient(price: int, quantity: int, limit: int)
    requires quantity > 0 && price > 0 && limit >= 0
    ensures price > limit / quantity <==> price * quantity > limit
  {
    var q := limit / quantity;
    assert q * quantity <= limit < (q + 1) * quantity;
    if price <= q {
      Grows(price, q, quantity);
    } else {
      Grows(q + 1, price, quantity);
    }
  }

  function EvaluatePosition(s: Snapshot, mark: Option<Mark>, now: Instant, policy: Policy)
    : Result<PositionValuation, ValuationError>
    requires s.basis >= 0 // what the snapshot constructor guarantees
  {
    if s.position.Unset() || now == 0 || !policy.Valid() then Err(InvalidValuation)
    else if s.net == 0 then
      Ok(Unvalued(s, NoReason).(status := Complete, market := Some(0), unrealized := Some(0),
                                gross := Some(s.realized)))
    else if mark.None? then Ok(Unvalued(s, MissingMark))
    else
      match MarkDefect(s, mark.value, now, policy)
      case Some(reason) => Ok(Unvalued(s, reason))
      case None =>
        match MarkToMarket(s, mark.value.price)
        case Err(e) => Err(e)
        case Ok((market, unrealized, gross)) =>
          var aged := Aged(mark.value, now, policy);
          Ok(PositionValuation(s.position, s.currency, s.net, s.realized, Some(market), Some(unrealized), Some(gross),
                               if aged then Stale else Complete, if aged then StaleMark else NoReason))
  }

  /** What makes a valuation usable: numbers are present exactly with the status
      Complete or Stale, and they conserve value. */
  predicate Usable(v: PositionValuation) {
    && (v.status in {Complete, Stale} <==> v.unrealized.Some?)
    && (v.unrealized.Some? <==> v.market.Some?)
    && (v.market.Some? ==> v.market.value >= 0)
    && v.status != Partial && (v.status == Stale ==> v.net != 0)
    && (v.net == 0 ==> v.market == Some(0) && v.status == Complete)
  }

  /** A valued position: realised plus unrealised profit is cash sold minus cash
      bought plus the signed market value, and the market value is price times
      units. The basis, and with it every truncation, has cancelled out. */
  lemma EvaluationConserves(s: Snapshot, mark: Option<Mark>, now: Instant, policy: Policy)
    requires Sound(s) && EvaluatePosition(s, mark, now, policy).Ok?
    ensures var v := EvaluatePosition(s, mark, now, policy).value;
            && Usable(v) && v.position == s.position && v.realized == s.realized && v.net == s.net
            && v.currency == s.currency
            && (v.unrealized.Some? ==>
                  && v.realized + v.unrealized.value == s.soldValue - s.boughtValue + Sign(s.net) * v.market.value
                  && v.gross == Some(v.realized + v.unrealized.value))
            && (v.market.Some? && s.net != 0 ==> mark.Some? && v.market.value == mark.value.price * Magnitude(s.net))
  {
    if s.net != 0 && mark.Some? && MarkDefect(s, mark.value, now, policy).None? {
      var quantity := Magnitude(s.net);
      WithinQuotient(mark.value.price, quantity, MAX);
      Grows(0, mark.value.price, quantity);
    }
  }

  /** A valuation fails only for an invalid request or because the market value
      or the gross profit does not fit; in particular the guards on the unrealised
      difference never fire. */
  lemma EvaluationFailsExactly(s: Snapshot, mark: Option<Mark>, now: Instant, policy: Policy)
    requires s.basis >= 0
    ensures EvaluatePosition(s, mark, now, policy) == Err(InvalidValuation) <==>
              || s.position.Unset() || now == 0 || policy.maximumExchangeAge <= 0 || policy.maximumIngestionAge <= 0
              || policy.clockSkewTolerance < 0
    ensures Sound(s) && now != 0 && policy.Valid() ==>
              (EvaluatePosition(s, mark, now, policy) == Err(MoneyOverflow) <==>
                 && s.net != 0 && mark.Some? && UsableMark(mark.value, s, now, policy)
                 && var market := mark.value.price * Magnitude(s.net);
                 !Fits(market) || !Fits(s.soldValue - s.boughtValue + Sign(s.net) * market))
    ensures EvaluatePosition(s, mark, now, policy) != Err(PortfolioCurrencyMismatch)
  {
    hide MarkToMarket, MarkDefect, Aged, UsableMark, Sound;
    if s.net != 0 && mark.Some? {
      UsableExactly(s, mark.value, now, policy);
      if MarkDefect(s, mark.value, now, policy).None? {
        MarketOverflows(s, mark.value.price);
        if Sound(s) {
          SoundIsSet(s);
          MarketFailsExactly(s, mark.value.price);
        }
      }
    }
  }

  lemma UsableExactly(s: Snapshot, mark: Mark, now: Instant, policy: Policy)
    ensures MarkDefect(s, mark, now, policy).None? <==> UsableMark(mark, s, now, policy)
    ensures UsableMark(mark, s, now, policy) ==> mark.price > 0
  {
  }

  lemma MarketOverflows(s: Snapshot, price: int64)
    requires s.net != 0 && price > 0 && s.basis >= 0
    ensures MarkToMarket(s, price).Err? ==> MarkToMarket(s, price).error == MoneyOverflow
  {
  }

  lemma MarketFailsExactly(s: Snapshot, price: int64)
    requires Sound(s) && s.net != 0 && price > 0
    ensures var market := price * Magnitude(s.net);
            MarkToMarket(s, price).Err? <==>
              !Fits(market) || !Fits(s.soldValue - s.boughtValue + Sign(s.net) * market)
  {
    hide AccountingModel.Acceptable;
    WithinQuotient(price, Magnitude(s.net), MAX);
    Grows(0, price, Magnitude(s.net));
  }

  /** The mark is one of the position's instrument that the market data vouches for. */
  predicate OfPosition(mark: Mark, s: Snapshot) {
    mark.instrument == s.position.instrument && mark.checksum != 0
  }

  predicate Priced(mark: Mark) {
    mark.lastTraded && mark.currency != "" && mark.price > 0
  }

  /** Neither from the future nor ingested before it was traded, within tolerance. */
  predicate Timely(mark: Mark, now: Instant, policy: Policy) {
    && mark.exchangeTime <= now + policy.clockSkewTolerance && mark.ingestedAt <= now + policy.clockSkewTolerance
    && mark.exchangeTime <= mark.ingestedAt + policy.clockSkewTolerance
  }

  predicate UsableMark(mark: Mark, s: Snapshot, now: Instant, policy: Policy) {
    OfPosition(mark, s) && Priced(mark) && mark.currency == s.currency && Timely(mark, now, policy)
  }

  predicate Recent(mark: Mark, now: Instant, policy: Policy) {
    && mark.ready && now - mark.exchangeTime <= policy.maximumExchangeAge
    && now - mark.ingestedAt <= policy.maximumIngestionAge
  }

  /** When a valuation is COMPLETE, STALE or UNAVAILABLE, and for what reason. */
  lemma StatusExactly(s: Snapshot, mark: Option<Mark>, now: Instant, policy: Policy)
    requires s.basis >= 0 && EvaluatePosition(s, mark, now, policy).Ok?
    ensures var v := EvaluatePosition(s, mark, now, policy).value;
            var usable := mark.Some? && UsableMark(mark.value, s, now, policy);
            && (v.status == Complete <==> s.net == 0 || (usable && Recent(mark.value, now, policy)))
            && (v.status == Stale <==> s.net != 0 && usable && !Recent(mark.value, now, policy))
            && (v.status == Unavailable <==> s.net != 0 && !usable)
            && (v.reason == NoReason <==> v.status == Complete) && (v.reason == StaleMark <==> v.status == Stale)
            && (v.reason == MissingMark <==> s.net != 0 && mark.None?)
            && (v.reason == RevisionMismatch <==> s.net != 0 && mark.Some? && !OfPosition(mark.value, s))
            && (v.reason == InvalidPrice <==>
                  s.net != 0 && mark.Some? && OfPosition(mark.value, s) && !Priced(mark.value))
            && (v.reason == MarkCurrencyMismatch <==>
                  && s.net != 0 && mark.Some? && OfPosition(mark.value, s) && Priced(mark.value)
                  && mark.value.currency != s.currency)
  {
    hide MarkToMarket;
  }

  const MAXIMUM_POSITIONS := 250

  datatype Totals = Totals(currency: string, realized: int64, unrealized: int64, long: int64, short: int64,
                           status: Status, open: nat, valued: nat, stale: nat, missing: nat, reasons: set<Reason>)

  datatype Portfolio = Portfolio(totals: Totals, status: Status, total: Option<int64>, grossExposure: Option<int64>,
                                 netExposure: Option<int64>)

  const NoTotals := Totals("", 0, 0, 0, 0, Complete, 0, 0, 0, 0, {})

  predicate InOrder(a: PositionValuation, b: PositionValuation) {
    a.position.Before(b.position)
  }

  lemma InOrderIsStrictOrder()
    ensures StrictOrder(InOrder)
  {
  }

  /** Counts and status after one more valuation. */
  function Count(t: Totals, v: PositionValuation): Totals {
    var opened' := t.(open := t.open + if v.net != 0 then 1 else 0);
    match v.status
    case Complete => opened'.(valued := t.valued + if v.net != 0 then 1 else 0)
    case Stale => opened'.(valued := t.valued + 1, stale := t.stale + 1, reasons := t.reasons + {v.reason},
                           status := if t.status == Complete then Stale else t.status)
    case _ => opened'.(missing := t.missing + 1, status := Partial, reasons := t.reasons + {v.reason})
  }

  /** Money after one more valuation; None when a sum does not fit. */
  function AddMoney(t: Totals, v: PositionValuation): Option<Totals> {
    var realized := CheckedAdd(t.realized, v.realized);
    if realized.None? then None else
    if v.unrealized.None? then Some(t.(realized := realized.value)) else
    var market := if v.market.Some? then v.market.value else 0;
    var unrealized := CheckedAdd(t.unrealized, v.unrealized.value);
    var long := if v.net > 0 then CheckedAdd(t.long, market) else Some(t.long);
    var short := if v.net < 0 then CheckedAdd(t.short, market) else Some(t.short);
    if unrealized.None? || long.None? || short.None? then None
    else Some(t.(realized := realized.value, unrealized := unrealized.value, long := long.value, short := short.value))
  }

  function AddValuation(portfolio: nat, t: Totals, previous: Option<PositionId>, v: PositionValuation)
    : Result<Totals, ValuationError>
  {
    if v.position.portfolio != portfolio || previous == Some(v.position) then Err(InvalidValuation) else
    var currency := if t.currency == "" then v.currency else t.currency;
    if v.currency != currency then Err(PortfolioCurrencyMismatch) else
    match AddMoney(t.(currency := currency), v)
    case None => Err(MoneyOverflow)
    case Some(money) => Ok(Count(money, v))
  }

  /** The totals of a sorted list of valuations. */
  function Fold(portfolio: nat, ordered: seq<PositionValuation>): Result<Totals, ValuationError> {
    if ordered == [] then Ok(NoTotals) else
    var n := |ordered| - 1;
    match Fold(portfolio, ordered[..n])
    case Err(e) => Err(e)
    case Ok(t) => AddValuation(portfolio, t, if n == 0 then None else Some(ordered[n - 1].position), ordered[n])
  }

  /** The published snapshot: derived totals only when every position is valued. */
  function Conclude(t: Totals): Result<Portfolio, ValuationError> {
    if t.currency == "" then Err(InvalidValuation) else
    var status := if t.open > 0 && t.valued == 0 then Unavailable else t.status;
    if status != Complete && status != Stale then Ok(Portfolio(t, status, None, None, None)) else
    var negativeShort: int64 := if t.short == MIN then MIN else -t.short;
    var total, gross, net :=
      CheckedAdd(t.realized, t.unrealized), CheckedAdd(t.long, t.short), CheckedAdd(t.long, negativeShort);
    if total.None? || gross.None? || net.None? then Err(MoneyOverflow)
    else Ok(Portfolio(t, status, total, gross, net))
  }

  function AggregateOrdered(portfolio: nat, ordered: seq<PositionValuation>): Result<Portfolio, ValuationError> {
    match Fold(portfolio, ordered)
    case Err(e) => Err(e)
    case Ok(t) => Conclude(t)
  }

  predicate Arranged(ordered: seq<PositionValuation>, valuations: seq<PositionValuation>) {
    Sorted(InOrder, ordered) && multiset(ordered) == multiset(valuations)
  }

  method Aggregate(portfolio: nat, revision: nat, valuations: seq<PositionValuation>, generatedAt: Instant)
    returns (result: Result<Portfolio, ValuationError>)
    ensures portfolio == 0 || revision == 0 || generatedAt == 0 || |valuations| > MAXIMUM_POSITIONS ==>
              result == Err(InvalidValuation)
    ensures portfolio != 0 && revision != 0 && generatedAt != 0 && |valuations| <= MAXIMUM_POSITIONS ==>
              exists ordered :: Arranged(ordered, valuations) && result == AggregateOrdered(portfolio, ordered)
  {
    hide AddValuation, Conclude, Sorted;
    if portfolio == 0 || revision == 0 || generatedAt == 0 || |valuations| > MAXIMUM_POSITIONS {
      return Err(InvalidValuation);
    }
    InOrderIsStrictOrder();
    var sorted := Sort(InOrder, valuations);
    assert Arranged(sorted, valuations);
    var t := NoTotals;
    for i := 0 to |sorted|
      invariant Fold(portfolio, sorted[..i]) == Ok(t)
    {
      assert sorted[..i + 1][..i] == sorted[..i];
      var next := AddValuation(portfolio, t, if i == 0 then None else Some(sorted[i - 1].position), sorted[i]);
      if next.Err? {
        FoldStops(portfolio, sorted, i + 1);
        return Err(next.error);
      }
      t := next.value;
    }
    assert sorted[..|sorted|] == sorted;
    result := Conclude(t);
  }

  lemma {:induction false} FoldStops(portfolio: nat, ordered: seq<PositionValuation>, n: nat)
    requires n <= |ordered| && Fold(portfolio, ordered[..n]).Err?
    ensures Fold(portfolio, ordered) == Fold(portfolio, ordered[..n])
    decreases |ordered|
  {
    hide AddValuation;
    if n < |ordered| {
      assert ordered[..|ordered| - 1][..n] == ordered[..n];
      FoldStops(portfolio, ordered[..|ordered| - 1], n);
    } else {
      assert ordered[..n] == ordered;
    }
  }

  /** The sums behind the totals. */
  function RealizedOf(v: PositionValuation): int { v.realized }
  function UnrealizedOf(v: PositionValuation): int { if v.unrealized.Some? then v.unrealized.value else 0 }
  function MarketOf(v: PositionValuation): int { if v.market.Some? then v.market.value else 0 }
  function SignedMarketOf(v: PositionValuation): int { Sign(v.net) * MarketOf(v) }
  function ExposureOf(v: PositionValuation): int { if v.net == 0 then 0 else MarketOf(v) }

  predicate AllUsable(valuations: seq<PositionValuation>) {
    forall v <- valuations :: Usable(v)
  }

  predicate Summed(t: Totals, ordered: seq<PositionValuation>) {
    && t.realized == Sum(RealizedOf, ordered) && t.unrealized == Sum(UnrealizedOf, ordered)
    && t.long - t.short == Sum(SignedMarketOf, ordered) && t.long + t.short == Sum(ExposureOf, ordered)
    && t.short >= 0 && t.long >= 0
    && (t.missing == 0 <==> forall v <- ordered :: v.status in {Complete, Stale})
    && (t.status == Partial <==> t.missing > 0) && t.status != Unavailable
    && (t.status == Complete <==> forall v <- ordered :: v.status == Complete)
  }

  lemma {:induction false} FoldSums(portfolio: nat, ordered: seq<PositionValuation>)
    requires AllUsable(ordered) && Fold(portfolio, ordered).Ok?
    ensures Summed(Fold(portfolio, ordered).value, ordered)
  {
    if ordered != [] {
      var n := |ordered| - 1;
      assert ordered == ordered[..n] + [ordered[n]];
      FoldSums(portfolio, ordered[..n]);
      assert Usable(ordered[n]);
      StepSums(portfolio, Fold(portfolio, ordered[..n]).value, ordered[..n], ordered[n],
               if n == 0 then None else Some(ordered[n - 1].position));
    }
  }

  lemma StepSums(portfolio: nat, t: Totals, before: seq<PositionValuation>, v: PositionValuation,
                 previous: Option<PositionId>)
    requires Summed(t, before) && Usable(v) && AddValuation(portfolio, t, previous, v).Ok?
    ensures Summed(AddValuation(portfolio, t, previous, v).value, before + [v])
  {
    assert (before + [v])[..|before|] == before;
  }

  /** One position of a portfolio as it is valued: its fill history and the mark
      offered for it. */
  datatype Holding = Holding(fills: seq<Fill>, mark: Option<Mark>, now: Instant, policy: Policy)

  /** The valuation is the one computed for the holding. */
  predicate Values(h: Holding, v: PositionValuation) {
    && AllValid(h.fills) && History(h.fills).Ok? && History(h.fills).value.Some?
    && History(h.fills).value.value.basis >= 0
    && EvaluatePosition(History(h.fills).value.value, h.mark, h.now, h.policy) == Ok(v)
  }

  predicate AllValue(holdings: seq<Holding>, valuations: seq<PositionValuation>) {
    |holdings| == |valuations| && forall i :: 0 <= i < |holdings| ==> Values(holdings[i], valuations[i])
  }

  function CashOf(h: Holding): int { Value(h.fills, Sell) - Value(h.fills, Buy) }

  lemma HoldingConserves(h: Holding, v: PositionValuation)
    requires Values(h, v)
    ensures Usable(v)
    ensures v.unrealized.Some? ==> RealizedOf(v) + UnrealizedOf(v) == CashOf(h) + SignedMarketOf(v)
  {
    hide EvaluatePosition, History;
    HistoryConserves(h.fills);
    EvaluationConserves(History(h.fills).value.value, h.mark, h.now, h.policy);
  }

  lemma {:induction false} HoldingsConserve(holdings: seq<Holding>, valuations: seq<PositionValuation>)
    requires AllValue(holdings, valuations)
    ensures AllUsable(valuations)
    ensures (forall v <- valuations :: v.status in {Complete, Stale}) ==>
              Sum(RealizedOf, valuations) + Sum(UnrealizedOf, valuations) ==
              Sum(CashOf, holdings) + Sum(SignedMarketOf, valuations)
  {
    hide Values;
    if holdings != [] {
      var n := |holdings| - 1;
      HoldingsConserve(holdings[..n], valuations[..n]);
      HoldingConserves(holdings[n], valuations[n]);
      assert valuations == valuations[..n] + [valuations[n]];
    }
  }

  /** The conservation law of a portfolio. Take any positions with any fill
      histories, any marks, and the valuations in any order of supply: whenever the
      aggregate is Complete or Stale, total profit is exactly what was sold minus
      what was bought plus the net exposure, and realised, unrealised and exposure
      totals are the sums over the positions. */
  lemma PortfolioConserves(portfolio: nat, holdings: seq<Holding>, valuations: seq<PositionValuation>,
                           ordered: seq<PositionValuation>)
    requires AllValue(holdings, valuations) && multiset(ordered) == multiset(valuations)
    requires AggregateOrdered(portfolio, ordered).Ok?
    requires AggregateOrdered(portfolio, ordered).value.status in {Complete, Stale}
    ensures var p := AggregateOrdered(portfolio, ordered).value;
            && p.total.Some? && p.netExposure.Some? && p.grossExposure.Some?
            && p.total.value == Sum(CashOf, holdings) + p.netExposure.value
            && p.total.value == Sum(RealizedOf, valuations) + Sum(UnrealizedOf, valuations)
            && p.netExposure.value == Sum(SignedMarketOf, valuations)
            && p.grossExposure.value == Sum(ExposureOf, valuations)
  {
    hide Values, Fold;
    HoldingsConserve(holdings, valuations);
    assert AllUsable(ordered) by {
      forall v | v in ordered ensures Usable(v) {
        assert v in multiset(valuations);
      }
    }
    FoldSums(portfolio, ordered);
    assert forall v :: v in valuations ==> v in ordered by {
      forall v | v in valuations ensures v in ordered {
        assert v in multiset(ordered);
      }
    }
    SumOfPermutation(RealizedOf, ordered, valuations);
    SumOfPermutation(UnrealizedOf, ordered, valuations);
    SumOfPermutation(SignedMarketOf, ordered, valuations);
    SumOfPermutation(ExposureOf, ordered, valuations);
  }

  /** Counting functions of one valuation. */
  function OpenOf(v: PositionValuation): int { if v.net != 0 then 1 else 0 }
  function ValuedOf(v: PositionValuation): int { if v.net != 0 && v.unrealized.Some? then 1 else 0 }
  function StaleOf(v: PositionValuation): int { if v.status == Stale then 1 else 0 }
  function MissingOf(v: PositionValuation): int { if v.unrealized.None? then 1 else 0 }

  /** The counts, the reasons and the status of a fold are those of its valuations. */
  predicate Counted(t: Totals, ordered: seq<PositionValuation>) {
    && t.open == Sum(OpenOf, ordered) && t.valued == Sum(ValuedOf, ordered)
    && t.stale == Sum(StaleOf, ordered) && t.missing == Sum(MissingOf, ordered)
    && t.status == (if t.missing > 0 then Partial else if t.stale > 0 then Stale else Complete)
    && Reasons(t.reasons, ordered)
  }

  predicate Reasons(reasons: set<Reason>, ordered: seq<PositionValuation>) {
    reasons == set v | v in ordered && v.status != Complete :: v.reason
  }

  lemma SumStep(f: PositionValuation -> int, ordered: seq<PositionValuation>, v: PositionValuation)
    ensures Sum(f, ordered + [v]) == Sum(f, ordered) + f(v)
  {
    assert (ordered + [v])[..|ordered|] == ordered;
  }

  lemma ReasonStep(reasons: set<Reason>, ordered: seq<PositionValuation>, v: PositionValuation)
    requires Reasons(reasons, ordered)
    ensures Reasons(if v.status == Complete then reasons else reasons + {v.reason}, ordered + [v])
  {
  }

  lemma CountStep(t: Totals, money: Totals, ordered: seq<PositionValuation>, v: PositionValuation)
    requires Counted(t, ordered) && Usable(v)
    requires money == t.(currency := money.currency, realized := money.realized, unrealized := money.unrealized,
                         long := money.long, short := money.short)
    ensures Counted(Count(money, v), ordered + [v])
  {
    hide Sum, Reasons;
    SumStep(OpenOf, ordered, v);
    SumStep(ValuedOf, ordered, v);
    SumStep(StaleOf, ordered, v);
    SumStep(MissingOf, ordered, v);
    ReasonStep(t.reasons, ordered, v);
  }

  lemma AddKeepsCounts(portfolio: nat, t: Totals, previous: Option<PositionId>, ordered: seq<PositionValuation>,
                       v: PositionValuation)
    requires Counted(t, ordered) && Usable(v) && AddValuation(portfolio, t, previous, v).Ok?
    ensures Counted(AddValuation(portfolio, t, previous, v).value, ordered + [v])
  {
    hide Count, Counted, Usable;
    var currency := if t.currency == "" then v.currency else t.currency;
    CountStep(t, AddMoney(t.(currency := currency), v).value, ordered, v);
  }

  lemma {:induction false} FoldCounts(portfolio: nat, ordered: seq<PositionValuation>)
    requires AllUsable(ordered) && Fold(portfolio, ordered).Ok?
    ensures Counted(Fold(portfolio, ordered).value, ordered)
  {
    hide AddValuation, Counted, Usable;
    if ordered == [] {
      NothingCounted();
    } else {
      var n := |ordered| - 1;
      assert ordered == ordered[..n] + [ordered[n]] && ordered[n] in ordered;
      assert AllUsable(ordered[..n]) by { assert forall v <- ordered[..n] :: v in ordered; }
      FoldCounts(portfolio, ordered[..n]);
      AddKeepsCounts(portfolio, Fold(portfolio, ordered[..n]).value,
                     if n == 0 then None else Some(ordered[n - 1].position), ordered[..n], ordered[n]);
    }
  }

  lemma NothingCounted()
    ensures Counted(NoTotals, [])
  {
  }

  /** When a portfolio is UNAVAILABLE, PARTIAL, STALE or COMPLETE, by how many of its
      positions are open, valued, stale and without a value; and that totals are
      published exactly in the last two cases. */
  lemma PortfolioStatusExactly(portfolio: nat, ordered: seq<PositionValuation>)
    requires AllUsable(ordered) && AggregateOrdered(portfolio, ordered).Ok?
    ensures var p := AggregateOrdered(portfolio, ordered).value;
            var missing, stale := Sum(MissingOf, ordered), Sum(StaleOf, ordered);
            && Counted(p.totals, ordered)
            && p.status == (if Sum(OpenOf, ordered) > 0 && Sum(ValuedOf, ordered) == 0 then Unavailable
                            else if missing > 0 then Partial else if stale > 0 then Stale else Complete)
            && (p.total.Some? <==> p.status in {Complete, Stale})
            && (p.netExposure.Some? <==> p.status in {Complete, Stale})
            && (p.grossExposure.Some? <==> p.status in {Complete, Stale})
  {
    hide Fold, AllUsable, Sum, Reasons;
    FoldCounts(portfolio, ordered);
  }

  /** Some total up to and including a valuation leaves the 64-bit range. */
  predicate Overflows(ordered: seq<PositionValuation>, i: nat)
    requires i < |ordered|
  {
    var upTo := ordered[..i + 1];
    || !Fits(Sum(RealizedOf, upTo)) || !Fits(Sum(UnrealizedOf, upTo))
    || !Fits(Sum(LongOf, upTo)) || !Fits(Sum(ShortOf, upTo))
  }

  function LongOf(v: PositionValuation): int { if v.net > 0 && v.unrealized.Some? then MarketOf(v) else 0 }
  function ShortOf(v: PositionValuation): int { if v.net < 0 && v.unrealized.Some? then MarketOf(v) else 0 }

  /** A valuation that is refused whatever was summed before it: of another portfolio,
      of the position before it, or in another currency than one before it. */
  predicate Foreign(portfolio: nat, ordered: seq<PositionValuation>, i: nat)
    requires i < |ordered|
  {
    ordered[i].position.portfolio != portfolio || (i > 0 && ordered[i - 1].position == ordered[i].position)
  }

  predicate Mixed(ordered: seq<PositionValuation>, i: nat)
    requires i < |ordered|
  {
    exists j :: 0 <= j < i && ordered[j].currency != "" && ordered[j].currency != ordered[i].currency
  }

  /** The error that a valuation by itself calls for, if any. */
  function Verdict(portfolio: nat, ordered: seq<PositionValuation>, i: nat): Option<ValuationError>
    requires i < |ordered|
  {
    if Foreign(portfolio, ordered, i) then Some(InvalidValuation)
    else if Mixed(ordered, i) then Some(PortfolioCurrencyMismatch)
    else if Overflows(ordered, i) then Some(MoneyOverflow)
    else None
  }

  /** The long and the short sums, and the currency: the one that some valuation
      names. */
  predicate Amounts(t: Totals, ordered: seq<PositionValuation>) {
    && t.realized == Sum(RealizedOf, ordered) && t.unrealized == Sum(UnrealizedOf, ordered)
    && t.long == Sum(LongOf, ordered) && t.short == Sum(ShortOf, ordered)
    && (t.currency == "" || exists j :: 0 <= j < |ordered| && ordered[j].currency == t.currency)
    && forall j :: 0 <= j < |ordered| ==> ordered[j].currency == "" || ordered[j].currency == t.currency
  }

  /** One valuation more: what is refused, with which error, and what is added. */
  lemma AddExactly(portfolio: nat, t: Totals, ordered: seq<PositionValuation>, n: nat)
    requires n < |ordered| && Amounts(t, ordered[..n])
    ensures var previous := if n == 0 then None else Some(ordered[n - 1].position);
            var result := AddValuation(portfolio, t, previous, ordered[n]);
            && (result.Ok? <==> Verdict(portfolio, ordered, n).None?)
            && (result.Err? ==> Verdict(portfolio, ordered, n) == Some(result.error))
            && (result.Ok? ==> Amounts(result.value, ordered[..n + 1]))
  {
    hide Sum, Count;
    var before, v := ordered[..n], ordered[n];
    assert ordered[..n + 1] == before + [v];
    SumStep(RealizedOf, before, v);
    SumStep(UnrealizedOf, before, v);
    SumStep(LongOf, before, v);
    SumStep(ShortOf, before, v);
    MixedExactly(t, ordered, n);
    CountKeepsMoney(v);
  }

  lemma MixedExactly(t: Totals, ordered: seq<PositionValuation>, n: nat)
    requires n < |ordered| && Amounts(t, ordered[..n])
    ensures Mixed(ordered, n) <==> t.currency != "" && ordered[n].currency != t.currency
  {
    assert forall j :: 0 <= j < n ==> ordered[..n][j] == ordered[j];
  }

  lemma CountKeepsMoney(v: PositionValuation)
    ensures forall t {:trigger Count(t, v)} ::
              var c := Count(t, v);
              && c.currency == t.currency && c.realized == t.realized && c.unrealized == t.unrealized
              && c.long == t.long && c.short == t.short
  {
  }

  /** Exactly what a portfolio refuses, and why: the first valuation that is foreign,
      mixed or too much decides. */
  lemma {:induction false} FoldExactly(portfolio: nat, ordered: seq<PositionValuation>)
    ensures Fold(portfolio, ordered).Ok? ==> Amounts(Fold(portfolio, ordered).value, ordered)
    ensures Fold(portfolio, ordered).Ok? <==>
              forall i :: 0 <= i < |ordered| ==> Verdict(portfolio, ordered, i).None?
    ensures Fold(portfolio, ordered).Err? ==>
              exists i :: 0 <= i < |ordered| &&
                          Verdict(portfolio, ordered, i) == Some(Fold(portfolio, ordered).error) &&
                          forall j :: 0 <= j < i ==> Verdict(portfolio, ordered, j).None?
  {
    hide AddValuation, Amounts, Verdict;
    if ordered == [] {
      NoAmounts();
    } else {
      var n := |ordered| - 1;
      FoldExactly(portfolio, ordered[..n]);
      forall i | 0 <= i < n ensures Verdict(portfolio, ordered[..n], i) == Verdict(portfolio, ordered, i) {
        PrefixJudgesAlike(portfolio, ordered, n, i);
      }
      assert ordered[..n + 1] == ordered;
      if Fold(portfolio, ordered[..n]).Ok? {
        AddExactly(portfolio, Fold(portfolio, ordered[..n]).value, ordered, n);
      }
    }
  }

  lemma NoAmounts()
    ensures Amounts(NoTotals, [])
  {
  }

  lemma PrefixJudgesAlike(portfolio: nat, ordered: seq<PositionValuation>, n: nat, i: nat)
    requires i < n <= |ordered|
    ensures Verdict(portfolio, ordered[..n], i) == Verdict(portfolio, ordered, i)
  {
    assert ordered[..n][..i + 1] == ordered[..i + 1];
    assert forall j :: 0 <= j < n ==> ordered[..n][j] == ordered[j];
  }

  /** Exactly when totals that were summed cannot be published, and why. */
  lemma ConcludeRefusesExactly(t: Totals)
    requires 0 <= t.long && 0 <= t.short
    ensures Conclude(t) == Err(InvalidValuation) <==> t.currency == ""
    ensures Conclude(t) == Err(MoneyOverflow) <==>
              && t.currency != "" && !(t.open > 0 && t.valued == 0) && t.status in {Complete, Stale}
              && (!Fits(t.realized + t.unrealized) || !Fits(t.long + t.short))
    ensures Conclude(t) != Err(PortfolioCurrencyMismatch)
  {
  }

  /** A fold that succeeds has met no position twice. */
  lemma {:induction false} FoldMeetsOnce(portfolio: nat, ordered: seq<PositionValuation>, j: nat)
    requires Sorted(InOrder, ordered) && Fold(portfolio, ordered).Ok? && j < |ordered|
    ensures forall i :: 0 <= i < j ==> InOrder(ordered[i], ordered[j])
  {
    hide AddValuation, InOrder, Sorted;
    var n := |ordered| - 1;
    SortedPrefix(ordered, n);
    if j < n {
      FoldMeetsOnce(portfolio, ordered[..n], j);
      assert forall i :: 0 <= i < j ==> ordered[..n][i] == ordered[i];
    } else if n > 0 {
      FoldMeetsOnce(portfolio, ordered[..n], n - 1);
      NextIsAnother(portfolio, Fold(portfolio, ordered[..n]).value, ordered, n);
      forall i | 0 <= i < n ensures InOrder(ordered[i], ordered[n]) {
        assert i < n - 1 ==> InOrder(ordered[..n][i], ordered[..n][n - 1]);
        InOrderIsTransitive(ordered[i], ordered[n - 1], ordered[n]);
      }
    }
  }

  lemma SortedPrefix(ordered: seq<PositionValuation>, n: nat)
    requires Sorted(InOrder, ordered) && n <= |ordered|
    ensures Sorted(InOrder, ordered[..n])
  {
  }

  lemma InOrderIsTransitive(a: PositionValuation, b: PositionValuation, c: PositionValuation)
    requires (a == b || InOrder(a, b)) && InOrder(b, c)
    ensures InOrder(a, c)
  {
  }

  lemma NextIsAnother(portfolio: nat, t: Totals, ordered: seq<PositionValuation>, n: nat)
    requires 0 < n < |ordered| && Sorted(InOrder, ordered)
    requires AddValuation(portfolio, t, Some(ordered[n - 1].position), ordered[n]).Ok?
    ensures InOrder(ordered[n - 1], ordered[n])
  {
    hide AddMoney, Count;
    assert !InOrder(ordered[n], ordered[n - 1]);
  }

  lemma FoldDeterminesOrder(portfolio: nat, a: seq<PositionValuation>, b: seq<PositionValuation>)
    requires Sorted(InOrder, a) && Sorted(InOrder, b) && multiset(a) == multiset(b) && Fold(portfolio, a).Ok?
    ensures a == b
  {
    hide Fold;
    forall x, y | x in a && y in a && x != y ensures InOrder(x, y) || InOrder(y, x) {
      var i :| 0 <= i < |a| && a[i] == x;
      var j :| 0 <= j < |a| && a[j] == y;
      FoldMeetsOnce(portfolio, a, i);
      FoldMeetsOnce(portfolio, a, j);
    }
    SortedIsUnique(InOrder, a, b);
  }

  /** The order of supply does not matter: whatever is supplied, every two sorted
      arrangements of it aggregate to the same portfolio, or both fail. */
  lemma AggregateIgnoresSupplyOrder(portfolio: nat, a: seq<PositionValuation>, b: seq<PositionValuation>)
    requires Sorted(InOrder, a) && Sorted(InOrder, b) && multiset(a) == multiset(b)
    ensures || AggregateOrdered(portfolio, a) == AggregateOrdered(portfolio, b)
            || (AggregateOrdered(portfolio, a).Err? && AggregateOrdered(portfolio, b).Err?)
  {
    hide Fold, Conclude;
    if Fold(portfolio, a).Ok? {
      FoldDeterminesOrder(portfolio, a, b);
    } else if Fold(portfolio, b).Ok? {
      FoldDeterminesOrder(portfolio, b, a);
    }
  }
}
