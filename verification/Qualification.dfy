/** The shadow ledger: signal records, one open position per underlying, trades.
    Times are nanoseconds, 0 standing for an absent time. */
module QualificationModel {
  import opened Wrappers
  import opened Int64
  import Products

  type Instant = int
  const SECOND: int := 1_000_000_000

  datatype Risk = Approved | Rejected

  datatype Quality = Complete | Partial | Invalid

  datatype Quote = Quote(instrument: string, bid: int64, ask: int64, ltp: int64, at: Instant)

  datatype Price = Price(minor: int64, source: string, quality: Quality)

  datatype QualificationError = InvalidInput | Duplicate | Conflict | NotFound | PositionOpen | NoPosition

  /** An identity is a digest of these parts, so it stands for them. */
  datatype QualificationId = QualificationId(underlying: string, signal: string, at: Instant, option: string,
                                             entry: int64, risk: Risk)

  datatype ObservationId = ObservationId(id: QualificationId, at: Instant, spot: int64, future: int64, bid: int64,
                                         ask: int64, ltp: int64, quality: Quality)

  datatype Horizon = Horizon(seconds: int, dueAt: Instant, observedAt: Instant, available: bool, reason: string,
                             spotMovement: int64, futureMovement: int64, mark: int64, change: int64, changeBps: int,
                             pnl: int64, quality: Quality)

  /** `rest` stands for the remaining fields, which are copied from the signal and
      only ever compared. */
  datatype SignalRecord = SignalRecord(id: QualificationId, signal: string, at: Instant, spot: int64, future: int64,
                                       risk: Risk, entry: Price, rest: nat, horizons: seq<Horizon>)

  datatype Position = Position(id: QualificationId, option: string, quantity: int64, entry: int64, entryAt: Instant,
                               mark: int64, mfe: int64, mae: int64, mfeAt: Instant, maeAt: Instant,
                               lastAt: Instant, last: Option<ObservationId>)

  datatype Trade = Trade(id: QualificationId, option: string, quantity: int64, entry: int64, exit: int64,
                         entryAt: Instant, exitAt: Instant, holdingSeconds: int, gross: int64, net: Option<int64>,
                         mfe: int64, mae: int64, mfeAt: Instant, maeAt: Instant)

  datatype Series = Series(records: seq<SignalRecord>, current: Option<Position>, trades: seq<Trade>)

  datatype Policy = Policy(horizons: seq<int>, lateness: int, cost: Option<int64>)

  predicate PolicyOk(p: Policy) {
    && |p.horizons| == 4 && p.lateness > 0 && p.horizons[0] > 0
    && forall i :: 0 < i < 4 ==> p.horizons[i - 1] < p.horizons[i]
  }

  /** Two's-complement wrap-around, as the source's unchecked arithmetic does. */
  function Wrap(x: int): (w: int64)
    ensures w == x <==> Fits(x)
  {
    (x - MIN) % (MAX - MIN + 1) + MIN
  }

  /** The price a shadow order would have met: the side of the book it crosses, or
      the last trade when there is no proper book. */
  function SelectPrice(q: Quote, entry: bool): (p: Option<Price>)
    ensures p.Some? ==> p.value.minor > 0
    ensures p.Some? && p.value.quality == Complete ==> q.bid <= p.value.minor <= q.ask
  {
    if q.instrument == "" || q.ltp <= 0 || q.at == 0 || q.bid < 0 || q.ask < 0 then None
    else if q.bid > 0 && q.ask > 0 && q.ask >= q.bid then
      Some(if entry then Price(q.ask, "BEST_ASK", Complete) else Price(q.bid, "BEST_BID", Complete))
    else Some(Price(q.ltp, "LTP_APPROXIMATION", Partial))
  }

  /** Entering and leaving on one quote costs exactly the spread when there is a proper
      book, and nothing when there is only a last price; other quotes give no price. */
  lemma CrossingCostsTheSpread(q: Quote)
    ensures var entry, exit := SelectPrice(q, true), SelectPrice(q, false);
            var given := q.instrument != "" && q.ltp > 0 && q.at != 0 && q.bid >= 0 && q.ask >= 0;
            var book := q.bid > 0 && q.ask >= q.bid;
            && (entry.Some? <==> given) && (exit.Some? <==> given)
            && (given && book ==>
                  && entry.value.minor - exit.value.minor == q.ask - q.bid && exit.value.minor == q.bid
                  && entry.value.quality == exit.value.quality == Complete)
            && (given && !book ==>
                  && entry == exit && entry.value.minor == q.ltp && entry.value.quality == Partial)
  {
  }

  function ApprovedIds(records: seq<SignalRecord>): seq<QualificationId> {
    if records == [] then [] else
    var n := |records| - 1;
    ApprovedIds(records[..n]) + if records[n].risk.Approved? then [records[n].id] else []
  }

  function TradeIds(trades: seq<Trade>): seq<QualificationId> {
    seq(|trades|, i requires 0 <= i < |trades| => trades[i].id)
  }

  function OpenIds(current: Option<Position>): seq<QualificationId> {
    if current.None? then [] else [current.value.id]
  }

  /** The approved signals are the trades, in order, and then the open position:
      nothing approved is lost, traded twice or traded out of turn. */
  predicate Balanced(s: Series) {
    ApprovedIds(s.records) == TradeIds(s.trades) + OpenIds(s.current)
  }

  predicate DistinctSignals(records: seq<SignalRecord>) {
    forall i, j :: 0 <= i < j < |records| ==> records[i].signal != records[j].signal || records[i].at != records[j].at
  }

  /** The largest and smallest change since the position was opened, the opening
      itself included, and who attains them. */
  predicate Extremes(mfe: int, mae: int, changes: seq<int>) {
    && mae <= 0 <= mfe && (mfe == 0 || mfe in changes) && (mae == 0 || mae in changes)
    && forall c <- changes :: mae <= c <= mfe
  }

  predicate PositionOk(p: Position, changes: seq<int>) {
    && p.entry > 0 && p.quantity > 0 && p.mark > 0 && p.id.entry == p.entry && Extremes(p.mfe, p.mae, changes)
    && p.mark - p.entry == (if changes == [] then 0 else changes[|changes| - 1])
  }

  predicate TradeOk(t: Trade) {
    && t.entry > 0 && t.exit > 0 && t.quantity > 0 && t.entryAt < t.exitAt
    && t.mae <= 0 <= t.mfe && t.mae <= t.exit - t.entry <= t.mfe
    && t.gross == Wrap((t.exit - t.entry) * t.quantity)
  }

  /** An available measurement was taken in its window and compares its mark with the
      entry price of the signal. */
  predicate HorizonOk(h: Horizon, entry: int64, lateness: int) {
    h.available ==>
      && h.observedAt != 0 && h.dueAt <= h.observedAt <= h.dueAt + lateness
      && h.mark > 0 && h.change == h.mark - entry
  }

  predicate RecordOk(p: Policy, r: SignalRecord) {
    && r.id.signal == r.signal && r.id.at == r.at && r.id.risk == r.risk && r.id.entry == r.entry.minor
    && |r.horizons| == |p.horizons|
    && forall i :: 0 <= i < |p.horizons| ==>
         r.horizons[i].dueAt == r.at + p.horizons[i] && HorizonOk(r.horizons[i], r.entry.minor, p.lateness)
  }

  predicate RecordsOk(p: Policy, records: seq<SignalRecord>) {
    DistinctSignals(records) && forall i :: 0 <= i < |records| ==> RecordOk(p, records[i])
  }

  predicate TradesOk(trades: seq<Trade>) {
    forall i :: 0 <= i < |trades| ==> TradeOk(trades[i])
  }

  /** Every measured change of a record lies within the excursions. */
  predicate Spans(r: SignalRecord, mae: int, mfe: int) {
    forall k :: 0 <= k < |r.horizons| && r.horizons[k].available ==> mae <= r.horizons[k].change <= mfe
  }

  predicate OpenSpans(records: seq<SignalRecord>, current: Option<Position>) {
    forall i :: 0 <= i < |records| && current.Some? && records[i].id == current.value.id ==>
      Spans(records[i], current.value.mae, current.value.mfe)
  }

  predicate TradesSpan(records: seq<SignalRecord>, trades: seq<Trade>) {
    forall i, j :: 0 <= i < |records| && 0 <= j < |trades| && records[i].id == trades[j].id ==>
      Spans(records[i], trades[j].mae, trades[j].mfe)
  }

  /** The ledger is in order: see the parts. In particular whatever a horizon
      measured is within the excursions of the position or trade it belongs to. */
  predicate SeriesOk(p: Policy, s: Series, changes: seq<int>) {
    && RecordsOk(p, s.records) && Balanced(s) && TradesOk(s.trades)
    && (s.current.Some? ==> PositionOk(s.current.value, changes))
    && OpenSpans(s.records, s.current) && TradesSpan(s.records, s.trades)
  }

  predicate Resolved(h: Horizon) {
    h.available || h.observedAt != 0
  }

  predicate HorizonsStay(before: seq<Horizon>, after: seq<Horizon>) {
    |after| == |before| && forall i :: 0 <= i < |before| && Resolved(before[i]) ==> after[i] == before[i]
  }

  /** Records are only appended, and a horizon once resolved is never touched. */
  predicate ResolvedStay(before: seq<SignalRecord>, after: seq<SignalRecord>) {
    && |before| <= |after|
    && forall i :: 0 <= i < |before| ==>
         && after[i] == before[i].(horizons := after[i].horizons)
         && HorizonsStay(before[i].horizons, after[i].horizons)
  }

  lemma ResolvedStayIsTransitive(a: seq<SignalRecord>, b: seq<SignalRecord>, c: seq<SignalRecord>)
    requires ResolvedStay(a, b) && ResolvedStay(b, c)
    ensures ResolvedStay(a, c)
  {
    forall i | 0 <= i < |a|
      ensures c[i] == a[i].(horizons := c[i].horizons) && HorizonsStay(a[i].horizons, c[i].horizons)
    {
      assert HorizonsStay(a[i].horizons, b[i].horizons) && HorizonsStay(b[i].horizons, c[i].horizons);
    }
  }

  /** Approved records are as many as trades and open positions together. */
  lemma ApprovedAreTradedOrOpen(p: Policy, s: Series, changes: seq<int>)
    requires SeriesOk(p, s, changes)
    ensures |ApprovedIds(s.records)| == |s.trades| + if s.current.Some? then 1 else 0
    ensures forall i, j :: 0 <= i < j < |s.trades| ==> s.trades[i].id != s.trades[j].id
    ensures forall i :: 0 <= i < |s.trades| && s.current.Some? ==> s.trades[i].id != s.current.value.id
  {
    ApprovedAreDistinct(p, s.records);
    var ids := ApprovedIds(s.records);
    forall i, j | 0 <= i < j < |s.trades| ensures s.trades[i].id != s.trades[j].id {
      assert TradeIds(s.trades)[i] == ids[i] && TradeIds(s.trades)[j] == ids[j];
    }
    forall i | 0 <= i < |s.trades| && s.current.Some? ensures s.trades[i].id != s.current.value.id {
      assert TradeIds(s.trades)[i] == ids[i] && ids[|s.trades|] == s.current.value.id;
    }
  }

  lemma {:induction false} ApprovedAreDistinct(p: Policy, records: seq<SignalRecord>)
    requires RecordsOk(p, records)
    ensures forall i, j :: 0 <= i < j < |ApprovedIds(records)| ==> ApprovedIds(records)[i] != ApprovedIds(records)[j]
    ensures forall id <- ApprovedIds(records) :: exists k :: 0 <= k < |records| && records[k].id == id
  {
    if records != [] {
      var n := |records| - 1;
      ApprovedAreDistinct(p, records[..n]);
      forall k | 0 <= k < n ensures records[..n][k].id != records[n].id {
        assert RecordOk(p, records[k]) && RecordOk(p, records[n]);
      }
      var before := ApprovedIds(records[..n]);
      forall i | 0 <= i < |before| ensures before[i] != records[n].id {
        assert before[i] in before;
      }
      forall id | id in ApprovedIds(records) ensures exists k :: 0 <= k < |records| && records[k].id == id {
        if id in ApprovedIds(records[..n]) {
          var k :| 0 <= k < n && records[..n][k].id == id;
          assert records[k].id == id;
        } else {
          assert records[n].id == id;
        }
      }
    }
  }

  /** A trade's gross profit is the true one exactly when the product fits, and then
      lies between its worst and best excursion times the quantity. */
  lemma GrossWithinExcursions(t: Trade)
    requires TradeOk(t)
    ensures t.gross == (t.exit - t.entry) * t.quantity <==> Fits((t.exit - t.entry) * t.quantity)
    ensures Fits((t.exit - t.entry) * t.quantity) ==> t.mae * t.quantity <= t.gross <= t.mfe * t.quantity
  {
    assert t.mae * t.quantity <= (t.exit - t.entry) * t.quantity by {
      Products.Grows(t.mae, t.exit - t.entry, t.quantity);
    }
    Products.Grows(t.exit - t.entry, t.mfe, t.quantity);
  }

  const MODULUS: int := MAX - MIN + 1

  /** How many times a product goes round the 64-bit range: 0 when it fits. */
  function Turns(x: int): int {
    (x - MIN) / MODULUS
  }

  lemma WrapTakesTurns(x: int)
    ensures Wrap(x) == x - Turns(x) * MODULUS && (Turns(x) == 0 <==> Fits(x))
  {
  }

  /** The excursion bound, exactly, in what is known before the close: the distance of
      the exit from the lowest and from the highest price seen, times the quantity,
      covers the turns that the product takes. */
  lemma ExcursionBoundExactly(t: Trade)
    requires TradeOk(t)
    ensures var change := t.exit - t.entry;
            var turned := Turns(change * t.quantity) * MODULUS;
            t.mae * t.quantity <= t.gross <= t.mfe * t.quantity <==>
              (change - t.mae) * t.quantity >= turned && (t.mfe - change) * t.quantity >= -turned
  {
    hide Wrap, Turns;
    var change := t.exit - t.entry;
    WrapTakesTurns(change * t.quantity);
    var low: int, high: int := t.mae, t.mfe;
    assert (change - low) * t.quantity == change * t.quantity - low * t.quantity;
    assert (high - change) * t.quantity == high * t.quantity - change * t.quantity;
  }
}

/** The engine that keeps the ledger. */
module QualificationEngine {
  import opened Wrappers
  import opened Int64
  import opened QualificationModel

  /** `otherwiseValid` stands for the checks on fields that the model does not
      carry, such as the session name. */
  datatype Signal = Signal(underlying: string, signal: string, at: Instant, spot: int64, spotAt: Instant,
                           future: int64, futureAt: Instant, option: string, quote: Quote, risk: Risk,
                           quantity: int64, otherwiseValid: bool, rest: nat)

  datatype Observation = Observation(underlying: string, id: QualificationId, at: Instant, spot: int64, future: int64,
                                     quote: Quote, quality: Quality)

  datatype Exit = Exit(underlying: string, id: QualificationId, option: string, at: Instant, quote: Quote)

  predicate SignalOk(i: Signal) {
    && i.otherwiseValid && i.signal != "" && i.at != 0 && i.spot > 0 && i.spotAt != 0 && i.future > 0
    && i.futureAt != 0 && i.option != "" && i.quote.instrument == i.option && i.quantity > 0
    && i.spotAt <= i.at && i.futureAt <= i.at && i.quote.at <= i.at
  }

  function NewHorizons(p: Policy, at: Instant): seq<Horizon> {
    seq(|p.horizons|, k requires 0 <= k < |p.horizons| =>
          Horizon(p.horizons[k] / SECOND, at + p.horizons[k], 0, false, "HORIZON_UNAVAILABLE", 0, 0, 0, 0, 0, 0,
                  Invalid))
  }

  function NewRecord(p: Policy, i: Signal, entry: Price): SignalRecord {
    SignalRecord(QualificationId(i.underlying, i.signal, i.at, i.option, entry.minor, i.risk), i.signal, i.at, i.spot,
                 i.future, i.risk, entry, i.rest, NewHorizons(p, i.at))
  }

  predicate SameSignal(a: SignalRecord, b: SignalRecord) {
    a.signal == b.signal && a.at == b.at
  }

  predicate SameContent(a: SignalRecord, b: SignalRecord) {
    a.(horizons := []) == b.(horizons := [])
  }

  /** What a signal should lead to. */
  function SignalVerdict(p: Policy, s: Series, i: Signal): Result<SignalRecord, QualificationError> {
    var price := SelectPrice(i.quote, true);
    if !SignalOk(i) || price.None? then Err(InvalidInput) else
    var record := NewRecord(p, i, price.value);
    if exists k :: 0 <= k < |s.records| && SameSignal(s.records[k], record) then
      if exists k :: 0 <= k < |s.records| && SameSignal(s.records[k], record) && SameContent(s.records[k], record) then
        Err(Duplicate)
      else Err(Conflict)
    else if i.risk.Approved? && s.current.Some? then Err(PositionOpen)
    else Ok(record)
  }

  function Recorded(s: Series, i: Signal, r: SignalRecord): Series {
    s.(records := s.records + [r],
       current := if i.risk.Rejected? then s.current else
                  Some(Position(r.id, i.option, i.quantity, r.entry.minor, i.at, r.entry.minor, 0, 0, 0, 0, 0, None)))
  }

  /** What becomes of a signal, by its fields and the records. */
  lemma SignalExactly(p: Policy, s: Series, i: Signal)
    ensures var verdict := SignalVerdict(p, s, i);
            var valid := && i.otherwiseValid && i.signal != "" && i.at != 0 && i.spot > 0 && i.spotAt != 0
                         && i.future > 0 && i.futureAt != 0 && i.option != "" && i.quote.instrument == i.option
                         && i.quantity > 0 && i.spotAt <= i.at && i.futureAt <= i.at && i.quote.at <= i.at
                         && SelectPrice(i.quote, true).Some?;
            var known := exists k :: 0 <= k < |s.records| && s.records[k].signal == i.signal && s.records[k].at == i.at;
            && (verdict == Err(InvalidInput) <==> !valid)
            && (verdict == Err(Duplicate) || verdict == Err(Conflict) <==> valid && known)
            && (verdict == Err(PositionOpen) <==> valid && !known && i.risk.Approved? && s.current.Some?)
            && (verdict.Ok? <==> valid && !known && (i.risk.Rejected? || s.current.None?))
            && (verdict.Ok? ==>
                  var r := verdict.value;
                  && r.signal == i.signal && r.at == i.at && r.spot == i.spot && r.future == i.future
                  && r.risk == i.risk && r.rest == i.rest && r.entry == SelectPrice(i.quote, true).value
                  && r.id == QualificationId(i.underlying, i.signal, i.at, i.option, r.entry.minor, i.risk)
                  && |r.horizons| == |p.horizons|
                  && forall k :: 0 <= k < |p.horizons| ==>
                       && r.horizons[k].dueAt == i.at + p.horizons[k] && !Resolved(r.horizons[k])
                       && r.horizons[k].seconds == p.horizons[k] / SECOND)
  {
    if SignalOk(i) && SelectPrice(i.quote, true).Some? {
      var record := NewRecord(p, i, SelectPrice(i.quote, true).value);
      assert forall k :: 0 <= k < |s.records| ==>
               (SameSignal(s.records[k], record) <==> s.records[k].signal == i.signal && s.records[k].at == i.at);
    }
  }

  /** A repeated signal is a duplicate exactly when all it says is what it said. */
  lemma RepeatedSignalExactly(p: Policy, s: Series, changes: seq<int>, i: Signal, k: nat)
    requires SeriesOk(p, s, changes) && k < |s.records| && s.records[k].signal == i.signal && s.records[k].at == i.at
    requires SignalOk(i) && SelectPrice(i.quote, true).Some?
    ensures var entry := SelectPrice(i.quote, true).value;
            var r := s.records[k];
            SignalVerdict(p, s, i) == Err(Duplicate) <==>
              && r.id == QualificationId(i.underlying, i.signal, i.at, i.option, entry.minor, i.risk)
              && r.spot == i.spot && r.future == i.future && r.risk == i.risk && r.entry == entry && r.rest == i.rest
  {
    var record := NewRecord(p, i, SelectPrice(i.quote, true).value);
    OneRecordPerSignal(p, s, changes, k);
    assert SameSignal(s.records[k], record);
    assert forall j :: 0 <= j < |s.records| && SameSignal(s.records[j], record) ==>
                         SameSignal(s.records[j], s.records[k]);
  }

  /** The position that an approved signal opens. */
  lemma OpenedAsSignalled(s: Series, i: Signal, r: SignalRecord)
    ensures var after := Recorded(s, i, r);
            && after.records == s.records + [r] && after.trades == s.trades
            && (i.risk.Rejected? ==> after.current == s.current)
            && (i.risk.Approved? ==>
                  && after.current.Some?
                  && var p := after.current.value;
                  && p.id == r.id && p.option == i.option && p.quantity == i.quantity && p.entryAt == i.at
                  && p.entry == p.mark == r.entry.minor && p.mfe == p.mae == 0 && p.lastAt == 0 && p.last.None?)
  {
  }

  lemma AppendApproved(records: seq<SignalRecord>, r: SignalRecord)
    ensures ApprovedIds(records + [r]) == ApprovedIds(records) + if r.risk.Approved? then [r.id] else []
  {
    assert (records + [r])[..|records|] == records;
  }

  lemma NewRecordSpans(p: Policy, i: Signal, entry: Price)
    ensures forall mae, mfe :: Spans(NewRecord(p, i, entry), mae, mfe)
  {
  }

  lemma NewIdIsNew(p: Policy, records: seq<SignalRecord>, r: SignalRecord)
    requires RecordsOk(p, records) && r.id.signal == r.signal && r.id.at == r.at
    requires forall k :: 0 <= k < |records| ==> !SameSignal(records[k], r)
    ensures forall k :: 0 <= k < |records| ==> records[k].id != r.id
  {
    forall k | 0 <= k < |records| ensures records[k].id != r.id {
      assert RecordOk(p, records[k]);
    }
  }

  lemma RecordingSpans(p: Policy, s: Series, i: Signal, r: SignalRecord)
    requires RecordsOk(p, s.records) && OpenSpans(s.records, s.current) && TradesSpan(s.records, s.trades)
    requires (forall k :: 0 <= k < |s.records| ==> !SameSignal(s.records[k], r)) && r == NewRecord(p, i, r.entry)
    ensures OpenSpans(Recorded(s, i, r).records, Recorded(s, i, r).current)
    ensures TradesSpan(Recorded(s, i, r).records, s.trades)
  {
    hide Spans, RecordsOk;
    NewRecordSpans(p, i, r.entry);
    NewIdIsNew(p, s.records, r);
  }

  lemma RecordingRecords(p: Policy, records: seq<SignalRecord>, i: Signal, r: SignalRecord)
    requires RecordsOk(p, records) && r == NewRecord(p, i, r.entry)
    requires forall k :: 0 <= k < |records| ==> !SameSignal(records[k], r)
    ensures RecordsOk(p, records + [r])
  {
    assert RecordOk(p, r);
  }

  lemma RecordingKeepsOk(p: Policy, s: Series, changes: seq<int>, i: Signal)
    requires SeriesOk(p, s, changes) && SignalVerdict(p, s, i).Ok?
    ensures SeriesOk(p, Recorded(s, i, SignalVerdict(p, s, i).value), if i.risk.Approved? then [] else changes)
  {
    hide TradesOk, RecordsOk, OpenSpans, TradesSpan, NewHorizons, ApprovedIds, TradeIds;
    var r := SignalVerdict(p, s, i).value;
    RecordingSpans(p, s, i, r);
    RecordingRecords(p, s.records, i, r);
    AppendApproved(s.records, r);
    assert i.risk.Approved? ==> TradeIds(s.trades) + [] == TradeIds(s.trades);
  }

  lemma AppendIsStable(records: seq<SignalRecord>, r: SignalRecord)
    ensures ResolvedStay(records, records) && ResolvedStay(records, records + [r])
  {
    assert forall i :: 0 <= i < |records| ==> HorizonsStay(records[i].horizons, records[i].horizons);
  }

  function IdOf(o: Observation): ObservationId {
    ObservationId(o.id, o.at, o.spot, o.future, o.quote.bid, o.quote.ask, o.quote.ltp, o.quality)
  }

  /** Why an observation is refused, if it is. */
  function ObservationRefusal(s: Series, o: Observation): Option<QualificationError> {
    if o.at == 0 || o.spot <= 0 || o.future <= 0 || o.quality.Invalid? then Some(InvalidInput)
    else if s.current.None? || s.current.value.id != o.id then Some(NoPosition) else
    var position := s.current.value;
    if o.quote.instrument != position.option || o.at < position.entryAt || o.quote.at > o.at then Some(InvalidInput)
    else if position.lastAt != 0 && o.at <= position.lastAt then
      Some(if o.at == position.lastAt && Some(IdOf(o)) == position.last then Duplicate else Conflict)
    else if SelectPrice(o.quote, false).None? then Some(InvalidInput)
    else None
  }

  /** The excursions after one more change. */
  function Excursion(p: Position, change: int64, at: Instant): Position {
    var up := if change > p.mfe then p.(mfe := change, mfeAt := at) else p;
    if change < up.mae then up.(mae := change, maeAt := at) else up
  }

  function Observed(p: Position, o: Observation, mark: int64): Position
    requires p.entry > 0 && mark > 0
  {
    Excursion(p, mark - p.entry, o.at).(mark := mark, lastAt := o.at, last := Some(IdOf(o)))
  }

  /** One horizon at an observation: already resolved or not yet due, too late, or
      measured. */
  function Measured(h: Horizon, r: SignalRecord, p: Position, o: Observation, mark: Price, lateness: int): Horizon
    requires p.entry > 0 && mark.minor > 0
  {
    if Resolved(h) || o.at < h.dueAt then h
    else if o.at - h.dueAt > lateness then h.(observedAt := o.at, reason := "HORIZON_UNAVAILABLE")
    else
      var change: int64 := mark.minor - p.entry;
      h.(available := true, reason := "NONE", observedAt := o.at, spotMovement := Wrap(o.spot - r.spot),
         futureMovement := Wrap(o.future - r.future), mark := mark.minor, change := change,
         changeBps := TruncatedDivide(Wrap(change * 10_000), p.entry), pnl := Wrap(change * p.quantity),
         quality := mark.quality)
  }

  /** What an observation does to a horizon. One that is resolved or not yet due it
      leaves; one that is due it resolves: within the window with the movements since
      the signal, the profit of the position at the mark and its basis points of the
      entry, truncated; after the window as missed. */
  lemma HorizonExactly(h: Horizon, r: SignalRecord, p: Position, o: Observation, mark: Price, lateness: int)
    requires p.entry > 0 && mark.minor > 0 && o.spot > 0 && o.future > 0 && r.spot > 0 && r.future > 0 && o.at != 0
    ensures var next := Measured(h, r, p, o, mark, lateness);
            var change := mark.minor - p.entry;
            && (Resolved(h) || o.at < h.dueAt ==> next == h)
            && (!Resolved(h) && o.at >= h.dueAt ==>
                  && Resolved(next) && next.observedAt == o.at && next.dueAt == h.dueAt && next.seconds == h.seconds
                  && (next.available <==> o.at <= h.dueAt + lateness))
            && (!Resolved(h) && next.available ==>
                  && next.mark == mark.minor && next.change == change && next.quality == mark.quality
                  && next.spotMovement == o.spot - r.spot && next.futureMovement == o.future - r.future
                  && (next.pnl == change * p.quantity <==> Fits(change * p.quantity))
                  && (Fits(change * 10_000) && change >= 0 ==>
                        next.changeBps * p.entry <= change * 10_000 < (next.changeBps + 1) * p.entry)
                  && (Fits(change * 10_000) && change <= 0 ==>
                        (next.changeBps - 1) * p.entry < change * 10_000 <= next.changeBps * p.entry))
  {
  }

  function MeasuredAll(hs: seq<Horizon>, r: SignalRecord, p: Position, o: Observation, mark: Price, lateness: int):
    (result: seq<Horizon>)
    requires p.entry > 0 && mark.minor > 0
    ensures |result| == |hs|
  {
    seq(|hs|, k requires 0 <= k < |hs| => Measured(hs[k], r, p, o, mark, lateness))
  }

  function MeasuredRecord(r: SignalRecord, p: Position, o: Observation, mark: Price, lateness: int): SignalRecord
    requires p.entry > 0 && mark.minor > 0
  {
    if r.id != o.id then r else r.(horizons := MeasuredAll(r.horizons, r, p, o, mark, lateness))
  }

  function MeasuredRecords(rs: seq<SignalRecord>, p: Position, o: Observation, mark: Price, lateness: int):
    (result: seq<SignalRecord>)
    requires p.entry > 0 && mark.minor > 0
    ensures |result| == |rs|
  {
    seq(|rs|, k requires 0 <= k < |rs| => MeasuredRecord(rs[k], p, o, mark, lateness))
  }

  lemma {:induction false} SameApproved(before: seq<SignalRecord>, after: seq<SignalRecord>)
    requires |after| == |before|
    requires forall i :: 0 <= i < |before| ==> after[i].risk == before[i].risk && after[i].id == before[i].id
    ensures ApprovedIds(after) == ApprovedIds(before)
  {
    if before != [] {
      SameApproved(before[..|before| - 1], after[..|after| - 1]);
    }
  }

  lemma MeasuringRecord(p: Policy, r: SignalRecord, position: Position, o: Observation, mark: Price)
    requires RecordOk(p, r) && position.entry > 0 && mark.minor > 0 && o.at != 0
    requires position.id == o.id && position.id.entry == position.entry
    ensures RecordOk(p, MeasuredRecord(r, position, o, mark, p.lateness))
    ensures HorizonsStay(r.horizons, MeasuredRecord(r, position, o, mark, p.lateness).horizons)
  {
    hide Wrap, TruncatedDivide;
  }

  /** An observation resolves horizons within their window or as missed, and touches
      no resolved one. */
  lemma MeasuringKeepsOk(p: Policy, rs: seq<SignalRecord>, position: Position, o: Observation, mark: Price)
    requires RecordsOk(p, rs) && position.entry > 0 && mark.minor > 0 && o.at != 0
    requires position.id == o.id && position.id.entry == position.entry
    ensures RecordsOk(p, MeasuredRecords(rs, position, o, mark, p.lateness))
    ensures ResolvedStay(rs, MeasuredRecords(rs, position, o, mark, p.lateness))
    ensures ApprovedIds(MeasuredRecords(rs, position, o, mark, p.lateness)) == ApprovedIds(rs)
  {
    hide RecordOk, MeasuredAll, HorizonsStay;
    var after := MeasuredRecords(rs, position, o, mark, p.lateness);
    forall i | 0 <= i < |rs| ensures RecordOk(p, after[i]) && HorizonsStay(rs[i].horizons, after[i].horizons) {
      MeasuringRecord(p, rs[i], position, o, mark);
    }
    SameApproved(rs, after);
  }

  lemma ExcursionKeepsExtremes(p: Position, changes: seq<int>, change: int64, at: Instant)
    requires Extremes(p.mfe, p.mae, changes)
    ensures Extremes(Excursion(p, change, at).mfe, Excursion(p, change, at).mae, changes + [change])
  {
    assert change in changes + [change];
  }

  /** The series after an accepted observation. */
  function AfterObservation(policy: Policy, s: Series, o: Observation): Series
    requires ObservationRefusal(s, o).None? && s.current.value.entry > 0
  {
    var position, mark := s.current.value, SelectPrice(o.quote, false).value;
    s.(current := Some(Observed(position, o, mark.minor)),
       records := MeasuredRecords(s.records, position, o, mark, policy.lateness))
  }

  lemma MeasuringSpans(r: SignalRecord, position: Position, o: Observation, mark: Price, lateness: int)
    requires position.entry > 0 && mark.minor > 0 && Spans(r, position.mae, position.mfe)
    ensures var moved := Observed(position, o, mark.minor);
            Spans(MeasuredRecord(r, position, o, mark, lateness), moved.mae, moved.mfe)
  {
    hide Wrap, TruncatedDivide;
  }

  /** Measured changes stay within the excursions, which the observation widens
      first; records of trades are not measured again. */
  lemma ObservingSpans(p: Policy, s: Series, changes: seq<int>, o: Observation)
    requires SeriesOk(p, s, changes) && ObservationRefusal(s, o).None? && s.current.value.entry > 0
    ensures OpenSpans(AfterObservation(p, s, o).records, AfterObservation(p, s, o).current)
    ensures TradesSpan(AfterObservation(p, s, o).records, s.trades)
  {
    hide Spans, RecordsOk, Balanced, TradesOk, PositionOk, MeasuredRecord, Observed, SelectPrice;
    ApprovedAreTradedOrOpen(p, s, changes);
    var position, mark := s.current.value, SelectPrice(o.quote, false).value;
    var after := AfterObservation(p, s, o);
    ObservedKeepsId(position, o, mark.minor);
    forall i | 0 <= i < |s.records| ensures
      && after.records[i].id == s.records[i].id
      && (s.records[i].id != o.id ==> after.records[i] == s.records[i])
      && (s.records[i].id == o.id ==> Spans(after.records[i], after.current.value.mae, after.current.value.mfe))
    {
      MeasuredKeepsId(s.records[i], position, o, mark, p.lateness);
      if s.records[i].id == o.id {
        MeasuringSpans(s.records[i], position, o, mark, p.lateness);
      }
    }
  }

  lemma MeasuredKeepsId(r: SignalRecord, position: Position, o: Observation, mark: Price, lateness: int)
    requires position.entry > 0 && mark.minor > 0
    ensures MeasuredRecord(r, position, o, mark, lateness).id == r.id
    ensures r.id != o.id ==> MeasuredRecord(r, position, o, mark, lateness) == r
  {
  }

  lemma ObservedKeepsId(position: Position, o: Observation, mark: int64)
    requires position.entry > 0 && mark > 0
    ensures Observed(position, o, mark).id == position.id
  {
  }

  lemma ObservingKeepsOk(p: Policy, s: Series, changes: seq<int>, o: Observation)
    requires SeriesOk(p, s, changes) && ObservationRefusal(s, o).None?
    ensures s.current.value.entry > 0
    ensures var mark := SelectPrice(o.quote, false).value.minor;
            && SeriesOk(p, AfterObservation(p, s, o), changes + [mark - s.current.value.entry])
            && AfterObservation(p, s, o).current.value.mark == mark
    ensures ResolvedStay(s.records, AfterObservation(p, s, o).records)
  {
    hide RecordsOk, Balanced, TradesOk, ResolvedStay, Extremes, MeasuredRecords, OpenSpans, TradesSpan;
    ObservingSpans(p, s, changes, o);
    var position, mark := s.current.value, SelectPrice(o.quote, false).value;
    MeasuringKeepsOk(p, s.records, position, o, mark);
    ExcursionKeepsExtremes(position, changes, mark.minor - position.entry, o.at);
    BalanceFollows(s, AfterObservation(p, s, o));
  }

  /** Why an exit is refused, if it is. */
  function ExitRefusal(s: Series, e: Exit): Option<QualificationError> {
    if e.option == "" || e.at == 0 || e.quote.instrument != e.option || SelectPrice(e.quote, false).None? then
      Some(InvalidInput)
    else if s.current.None? || s.current.value.id != e.id then Some(NoPosition)
    else if s.current.value.option != e.option || e.at <= s.current.value.entryAt || e.quote.at > e.at then
      Some(InvalidInput)
    else None
  }

  function TradeOf(policy: Policy, p: Position, e: Exit, exit: int64): Trade
    requires p.entry > 0 && exit > 0
  {
    var q := Excursion(p, exit - p.entry, e.at);
    var gross := Wrap((exit - p.entry) * p.quantity);
    Trade(e.id, e.option, p.quantity, p.entry, exit, p.entryAt, e.at, TruncatedDivide(e.at - p.entryAt, SECOND), gross,
          if policy.cost.Some? then Some(Wrap(gross - policy.cost.value)) else None, q.mfe, q.mae, q.mfeAt, q.maeAt)
  }

  /** An observation is accepted exactly when it is one, of the open position, of its
      option, not before its entry nor quoted after itself, and later than the last. */
  lemma ObservedExactly(s: Series, o: Observation)
    ensures ObservationRefusal(s, o).None? <==>
              && o.at != 0 && o.spot > 0 && o.future > 0 && !o.quality.Invalid?
              && s.current.Some? && s.current.value.id == o.id && o.quote.instrument == s.current.value.option
              && o.at >= s.current.value.entryAt && o.quote.at <= o.at
              && (s.current.value.lastAt == 0 || o.at > s.current.value.lastAt) && SelectPrice(o.quote, false).Some?
    ensures ObservationRefusal(s, o) == Some(NoPosition) <==>
              && o.at != 0 && o.spot > 0 && o.future > 0 && !o.quality.Invalid?
              && (s.current.None? || s.current.value.id != o.id)
    ensures ObservationRefusal(s, o) in {Some(Duplicate), Some(Conflict)} <==>
              && o.at != 0 && o.spot > 0 && o.future > 0 && !o.quality.Invalid?
              && s.current.Some? && s.current.value.id == o.id && o.quote.instrument == s.current.value.option
              && o.at >= s.current.value.entryAt && o.quote.at <= o.at
              && s.current.value.lastAt != 0 && o.at <= s.current.value.lastAt
    ensures ObservationRefusal(s, o) == Some(Duplicate) ==>
              s.current.Some? && s.current.value.last == Some(IdOf(o)) && s.current.value.lastAt == o.at
    ensures ObservationRefusal(s, o) == Some(Conflict) ==>
              s.current.Some? && (s.current.value.last != Some(IdOf(o)) || s.current.value.lastAt != o.at)
    ensures ObservationRefusal(s, o).None? && s.current.value.entry > 0 ==>
              var p, price := s.current.value, SelectPrice(o.quote, false).value.minor;
              var q, change := Observed(p, o, price), price - p.entry;
              && q.id == p.id && q.option == p.option && q.quantity == p.quantity && q.entry == p.entry
              && q.entryAt == p.entryAt && q.mark == price && q.lastAt == o.at
              && q.mfe == (if change > p.mfe then change else p.mfe)
              && q.mfeAt == (if change > p.mfe then o.at else p.mfeAt)
              && q.mae == (if change < p.mae then change else p.mae)
              && q.maeAt == (if change < p.mae then o.at else p.maeAt)
  {
  }

  /** An exit is accepted exactly when it prices the open position's option after its
      entry; and what the trade then tells. */
  lemma ExitExactly(policy: Policy, s: Series, e: Exit)
    ensures ExitRefusal(s, e).None? <==>
              && e.option != "" && e.at != 0 && e.quote.instrument == e.option && SelectPrice(e.quote, false).Some?
              && s.current.Some? && s.current.value.id == e.id && s.current.value.option == e.option
              && e.at > s.current.value.entryAt && e.quote.at <= e.at
    ensures ExitRefusal(s, e).None? && s.current.value.entry > 0 ==>
              var p, price := s.current.value, SelectPrice(e.quote, false).value.minor;
              var t := TradeOf(policy, p, e, price);
              && t.id == p.id && t.option == p.option && t.quantity == p.quantity && t.entry == p.entry
              && t.exit == price && t.entryAt == p.entryAt && t.exitAt == e.at
              && t.holdingSeconds * SECOND <= e.at - p.entryAt < (t.holdingSeconds + 1) * SECOND
              && t.mfe == (if price - p.entry > p.mfe then price - p.entry else p.mfe)
              && t.mae == (if price - p.entry < p.mae then price - p.entry else p.mae)
              && t.mfeAt == (if price - p.entry > p.mfe then e.at else p.mfeAt)
              && t.maeAt == (if price - p.entry < p.mae then e.at else p.maeAt)
              && (t.net.Some? <==> policy.cost.Some?)
              && (t.net.Some? && Fits(t.gross - policy.cost.value) ==> t.net.value == t.gross - policy.cost.value)
  {
  }

  lemma TradeIsOk(policy: Policy, p: Position, changes: seq<int>, e: Exit, exit: int64)
    requires PositionOk(p, changes) && exit > 0 && p.entryAt < e.at && p.id == e.id
    ensures var trade := TradeOf(policy, p, e, exit);
            TradeOk(trade) && trade.id == p.id && trade.mae <= p.mae && p.mfe <= trade.mfe
  {
    hide Wrap;
    ExcursionKeepsExtremes(p, changes, exit - p.entry, e.at);
    assert exit - p.entry in changes + [exit - p.entry];
  }

  lemma ClosingKeepsOk(p: Policy, s: Series, changes: seq<int>, e: Exit)
    requires SeriesOk(p, s, changes) && ExitRefusal(s, e).None?
    ensures s.current.value.entry > 0
    ensures var trade := TradeOf(p, s.current.value, e, SelectPrice(e.quote, false).value.minor);
            SeriesOk(p, s.(trades := s.trades + [trade], current := None), []) && TradeOk(trade)
  {
    hide RecordsOk, TradeOf, TradeOk, Spans, TradesSpan, Extremes;
    var position := s.current.value;
    var trade := TradeOf(p, position, e, SelectPrice(e.quote, false).value.minor);
    TradeIsOk(p, position, changes, e, SelectPrice(e.quote, false).value.minor);
    assert TradeIds(s.trades + [trade]) == TradeIds(s.trades) + [position.id];
    ClosingSpans(s.records, s.trades, position, trade);
  }

  lemma ClosingSpans(records: seq<SignalRecord>, trades: seq<Trade>, position: Position, trade: Trade)
    requires OpenSpans(records, Some(position)) && TradesSpan(records, trades) && trade.id == position.id
    requires trade.mae <= position.mae && position.mfe <= trade.mfe
    ensures TradesSpan(records, trades + [trade])
  {
    forall i, j | 0 <= i < |records| && 0 <= j < |trades + [trade]| && records[i].id == (trades + [trade])[j].id
      ensures Spans(records[i], (trades + [trade])[j].mae, (trades + [trade])[j].mfe)
    {
      if j == |trades| {
        assert Spans(records[i], position.mae, position.mfe);
      }
    }
  }

  /** The horizon that a missed-horizon notice is about. */
  predicate Awaits(r: SignalRecord, id: QualificationId, h: Horizon, horizon: int) {
    r.id == id && h.seconds * SECOND == horizon && !Resolved(h)
  }

  predicate ReasonOk(reason: string) {
    reason == "SESSION_ENDED" || reason == "RESTART_GAP" || reason == "HORIZON_UNAVAILABLE"
  }

  /** Resolving one waiting horizon as missed keeps the ledger in order. */
  lemma MissingKeepsOk(p: Policy, s: Series, changes: seq<int>, i: nat, k: nat, at: Instant, reason: string)
    requires SeriesOk(p, s, changes) && i < |s.records| && k < |s.records[i].horizons|
    requires !Resolved(s.records[i].horizons[k])
    ensures SeriesOk(p, s.(records := Missed(s.records, i, k, at, reason)), changes)
    ensures ResolvedStay(s.records, Missed(s.records, i, k, at, reason))
  {
    hide TradesOk, PositionOk, ApprovedIds, Spans;
    var after := Missed(s.records, i, k, at, reason);
    assert RecordOk(p, s.records[i]);
    assert RecordOk(p, after[i]);
    SameApproved(s.records, after);
    forall j | 0 <= j < |s.records| ensures HorizonsStay(s.records[j].horizons, after[j].horizons) {
    }
    MissingSpans(s.records, i, k, at, reason);
  }

  lemma MissingSpans(rs: seq<SignalRecord>, i: nat, k: nat, at: Instant, reason: string)
    requires i < |rs| && k < |rs[i].horizons| && !Resolved(rs[i].horizons[k])
    ensures forall j, mae, mfe :: 0 <= j < |rs| && Spans(rs[j], mae, mfe) ==>
              Spans(Missed(rs, i, k, at, reason)[j], mae, mfe)
    ensures forall j :: 0 <= j < |rs| ==> Missed(rs, i, k, at, reason)[j].id == rs[j].id
  {
    var after := Missed(rs, i, k, at, reason);
    forall j, mae, mfe | 0 <= j < |rs| && Spans(rs[j], mae, mfe) ensures Spans(after[j], mae, mfe) {
    }
  }

  function Missed(rs: seq<SignalRecord>, i: nat, k: nat, at: Instant, reason: string): seq<SignalRecord>
    requires i < |rs| && k < |rs[i].horizons|
  {
    var r := rs[i];
    rs[i := r.(horizons := r.horizons[k := r.horizons[k].(observedAt := at, reason := reason)])]
  }

  /** A signal recorded and its position closed, if both are accepted. */
  function Traded(p: Policy, s: Series, i: Signal, e: Exit): Option<Series> {
    var verdict := SignalVerdict(p, s, i);
    if verdict.Err? then None else
    var held := Recorded(s, i, verdict.value);
    if ExitRefusal(held, e).Some? || held.current.value.entry <= 0 then None else
    var trade := TradeOf(p, held.current.value, e, SelectPrice(e.quote, false).value.minor);
    Some(held.(trades := s.trades + [trade], current := None))
  }

  /** A signal to buy one option, at an instant and a price, and its exit. */
  function SampleSignal(at: Instant, price: int64, quantity: int64): Signal {
    Signal("NIFTY", "S", at, 1, at, 1, at, "O", Quote("O", price, price, price, at), Approved, quantity, true, 0)
  }

  function SampleExit(at: Instant, price: int64, entry: int64, exitAt: Instant): Exit {
    Exit("NIFTY", QualificationId("NIFTY", "S", at, "O", entry, Approved), "O", exitAt,
         Quote("O", price, price, price, exitAt))
  }

  const Empty := Series([], None, [])

  lemma SampleTrade(p: Policy, s: Series, at: Instant, entry: int64, exit: int64, quantity: int64)
    requires s.current.None? && at > 0 && entry > 0 && exit > 0 && quantity > 0
    requires forall k :: 0 <= k < |s.records| ==> s.records[k].at != at
    ensures var next := Traded(p, s, SampleSignal(at, entry, quantity), SampleExit(at, exit, entry, at + 1));
            && next.Some? && next.value.current.None? && |next.value.trades| == |s.trades| + 1
            && next.value.trades[..|s.trades|] == s.trades && |next.value.records| == |s.records| + 1
            && next.value.records[..|s.records|] == s.records && next.value.records[|s.records|].at == at
            && var t := next.value.trades[|s.trades|];
               && t.gross == Wrap((exit - entry) * quantity) && t.entry == entry && t.exit == exit &&
                  t.quantity == quantity
               && t.mfe == (if exit > entry then exit - entry else 0) &&
                  t.mae == (if exit < entry then exit - entry else 0)
  {
    hide Wrap;
    var i, e := SampleSignal(at, entry, quantity), SampleExit(at, exit, entry, at + 1);
    assert SelectPrice(i.quote, true) == Some(Price(entry, "BEST_ASK", Complete));
    assert SelectPrice(e.quote, false) == Some(Price(exit, "BEST_BID", Complete));
    var r := NewRecord(p, i, Price(entry, "BEST_ASK", Complete));
    assert forall k :: 0 <= k < |s.records| ==> !SameSignal(s.records[k], r);
    assert SignalVerdict(p, s, i) == Ok(r);
    assert ExitRefusal(Recorded(s, i, r), e).None?;
  }

  /** Without a fitting product the bound can fail: a position of 2^62 units bought at
      1 and closed at 3, which the engine accepts, wraps to a loss below its worst
      excursion, which is none. */
  lemma WrappedGrossEscapes(p: Policy)
    ensures var next := Traded(p, Empty, SampleSignal(1, 1, 0x4000_0000_0000_0000), SampleExit(1, 3, 1, 2));
            next.Some? && |next.value.trades| == 1 &&
            var t := next.value.trades[0];
            t.gross == MIN < t.mae * t.quantity && (t.exit - t.entry) * t.quantity == MAX + 1
  {
    SampleTrade(p, Empty, 1, 1, 3, 0x4000_0000_0000_0000);
  }

  /** And it can hold: the same quantity bought at 3, seen at 1 and closed at 5 wraps
      exactly to its worst excursion. A fitting product is sufficient for the bound,
      not necessary. */
  lemma WrappedGrossMayStay(p: Policy)
    ensures var i := SampleSignal(1, 3, 0x4000_0000_0000_0000);
            var verdict := SignalVerdict(p, Empty, i);
            verdict.Ok? &&
            var held := Recorded(Empty, i, verdict.value);
            var o := Observation("NIFTY", verdict.value.id, 2, 1, 1, Quote("O", 1, 1, 1, 2), Complete);
            ObservationRefusal(held, o).None? && held.current.value.entry > 0 &&
            var seen := AfterObservation(p, held, o);
            var e := SampleExit(1, 5, 3, 3);
            ExitRefusal(seen, e).None? && seen.current.value.entry > 0 &&
            var t := TradeOf(p, seen.current.value, e, 5);
            !Fits((t.exit - t.entry) * t.quantity) && t.mae * t.quantity <= t.gross <= t.mfe * t.quantity
  {
    hide MeasuredRecords;
    var i := SampleSignal(1, 3, 0x4000_0000_0000_0000);
    assert SelectPrice(i.quote, true) == Some(Price(3, "BEST_ASK", Complete));
    assert SignalVerdict(p, Empty, i) == Ok(NewRecord(p, i, Price(3, "BEST_ASK", Complete)));
    var held := Recorded(Empty, i, NewRecord(p, i, Price(3, "BEST_ASK", Complete)));
    var o := Observation("NIFTY", held.current.value.id, 2, 1, 1, Quote("O", 1, 1, 1, 2), Complete);
    assert AfterObservation(p, held, o).current.value.mae == -2;
  }

  class Engine {
    const policy: Policy
    var series: map<string, Series>
    var revision: nat
    ghost var changes: map<string, seq<int>>

    ghost predicate Valid()
      reads this
    {
      && PolicyOk(policy) && series.Keys == changes.Keys
      && forall u <- series :: SeriesOk(policy, series[u], changes[u])
    }

    constructor (policy: Policy)
      requires PolicyOk(policy)
      ensures Valid() && this.policy == policy && series.Keys == {"NIFTY", "BANKNIFTY"} && revision == 0
      ensures forall u <- series :: series[u] == Series([], None, [])
    {
      this.policy := policy;
      series := map["NIFTY" := Series([], None, []), "BANKNIFTY" := Series([], None, [])];
      changes := map["NIFTY" := [], "BANKNIFTY" := []];
      revision := 0;
    }

    /** Nothing but the series of one underlying may differ. */
    twostate predicate OnlyAt(underlying: string)
      reads this
    {
      && series.Keys == old(series.Keys) && changes.Keys == old(changes.Keys)
      && (forall u <- series :: u != underlying ==> series[u] == old(series[u]))
      && (forall u <- changes :: u != underlying ==> changes[u] == old(changes[u]))
    }

    twostate predicate Same()
      reads this
    {
      series == old(series) && changes == old(changes) && revision == old(revision)
    }

    /** Records a signal. An approved one opens a position only where none is open. */
    method RecordSignal(i: Signal) returns (result: Result<SignalRecord, QualificationError>)
      requires Valid()
      modifies this
      ensures Valid() && OnlyAt(i.underlying) && (result.Err? ==> Same())
      ensures i.underlying !in series ==> result == Err(InvalidInput)
      ensures i.underlying in series ==> result == SignalVerdict(policy, old(series[i.underlying]), i)
      ensures result.Ok? ==>
                && series[i.underlying] == Recorded(old(series[i.underlying]), i, result.value)
                && ResolvedStay(old(series[i.underlying].records), series[i.underlying].records)
                && revision == old(revision) + 1
    {
      hide SeriesOk, ResolvedStay, NewHorizons, SelectPrice;
      var price := SelectPrice(i.quote, true);
      if i.underlying !in series || !SignalOk(i) || price.None? {
        return Err(InvalidInput);
      }
      var s := series[i.underlying];
      var record := NewRecord(policy, i, price.value);
      for k := 0 to |s.records|
        invariant forall j :: 0 <= j < k ==> !SameSignal(s.records[j], record)
      {
        if SameSignal(s.records[k], record) {
          OneRecordPerSignal(policy, s, changes[i.underlying], k);
          return Err(if SameContent(s.records[k], record) then Duplicate else Conflict);
        }
      }
      if i.risk.Approved? && s.current.Some? {
        return Err(PositionOpen);
      }
      RecordingKeepsOk(policy, s, changes[i.underlying], i);
      AppendIsStable(s.records, record);
      series := series[i.underlying := Recorded(s, i, record)];
      if i.risk.Approved? {
        changes := changes[i.underlying := []];
      }
      revision := revision + 1;
      return Ok(record);
    }

    /** Marks the open position and resolves the horizons that are due. */
    method Observe(o: Observation) returns (error: Option<QualificationError>)
      requires Valid()
      modifies this
      ensures Valid() && OnlyAt(o.underlying) && (error.Some? ==> Same())
      ensures o.underlying !in series ==> error == Some(InvalidInput)
      ensures o.underlying in series ==> error == ObservationRefusal(old(series[o.underlying]), o)
      ensures error.None? ==>
                var before, after := old(series[o.underlying]), series[o.underlying];
                && before.current.Some? && before.current.value.entry > 0
                && after == AfterObservation(policy, before, o) && ResolvedStay(before.records, after.records)
                && changes[o.underlying] ==
                   old(changes[o.underlying]) + [after.current.value.mark - before.current.value.entry]
                && revision == old(revision) + 1
    {
      hide SeriesOk, ResolvedStay, Observed, MeasuredRecords;
      if o.underlying !in series {
        return Some(InvalidInput);
      }
      var s := series[o.underlying];
      error := ObservationRefusal(s, o);
      if error.Some? {
        return;
      }
      ObservingKeepsOk(policy, s, changes[o.underlying], o);
      var position, mark := s.current.value, SelectPrice(o.quote, false).value;
      var moved := Observed(position, o, mark.minor);
      var records := Measure(s.records, position, o, mark);
      series := series[o.underlying := s.(current := Some(moved), records := records)];
      changes := changes[o.underlying := changes[o.underlying] + [mark.minor - position.entry]];
      revision := revision + 1;
    }

    /** The loop over the records and horizons of an observation. */
    method Measure(records: seq<SignalRecord>, position: Position, o: Observation, mark: Price)
      returns (result: seq<SignalRecord>)
      requires position.entry > 0 && mark.minor > 0
      ensures result == MeasuredRecords(records, position, o, mark, policy.lateness)
    {
      hide Measured;
      result := records;
      for i := 0 to |records|
        invariant |result| == |records|
        invariant forall j :: 0 <= j < i ==> result[j] == MeasuredRecord(records[j], position, o, mark, policy.lateness)
        invariant forall j :: i <= j < |records| ==> result[j] == records[j]
      {
        var r := records[i];
        if r.id != o.id {
          continue;
        }
        var horizons := r.horizons;
        for k := 0 to |horizons|
          invariant |horizons| == |r.horizons|
          invariant forall j :: 0 <= j < k ==>
                    horizons[j] == Measured(r.horizons[j], r, position, o, mark, policy.lateness)
          invariant forall j :: k <= j < |horizons| ==> horizons[j] == r.horizons[j]
        {
          horizons := horizons[k := Measured(horizons[k], r, position, o, mark, policy.lateness)];
        }
        assert horizons == MeasuredAll(r.horizons, r, position, o, mark, policy.lateness);
        result := result[i := r.(horizons := horizons)];
      }
    }

    /** Resolves one waiting horizon as missed: exactly one, or none is waiting. */
    method MarkHorizonUnavailable(underlying: string, id: QualificationId, horizon: int, at: Instant, reason: string)
      returns (error: Option<QualificationError>)
      requires Valid()
      modifies this
      ensures Valid() && OnlyAt(underlying) && (error.Some? ==> Same())
      ensures error == Some(InvalidInput) <==>
                || underlying !in series || horizon <= 0 || at == 0
                || reason !in {"SESSION_ENDED", "RESTART_GAP", "HORIZON_UNAVAILABLE"}
      ensures error.None? ==>
                var before, after := old(series[underlying]), series[underlying];
                && ResolvedStay(before.records, after.records) && revision == old(revision) + 1
                && exists i, k :: 0 <= i < |before.records| && 0 <= k < |before.records[i].horizons| &&
                                  before.records[i].id == id && !Resolved(before.records[i].horizons[k]) &&
                                  before.records[i].horizons[k].seconds * SECOND == horizon &&
                                  after == before.(records := Missed(before.records, i, k, at, reason))
      ensures error == Some(NotFound) ==>
                var records := series[underlying].records;
                forall i, k :: 0 <= i < |records| && 0 <= k < |records[i].horizons| ==>
                  || records[i].id != id || records[i].horizons[k].seconds * SECOND != horizon
                  || Resolved(records[i].horizons[k])
    {
      hide SeriesOk, ResolvedStay;
      if underlying !in series || horizon <= 0 || at == 0 || !ReasonOk(reason) {
        return Some(InvalidInput);
      }
      var s := series[underlying];
      for i := 0 to |s.records|
        invariant forall j, k :: 0 <= j < i && 0 <= k < |s.records[j].horizons| ==>
                    !Awaits(s.records[j], id, s.records[j].horizons[k], horizon)
        invariant Same()
      {
        var r := s.records[i];
        for k := 0 to |r.horizons|
          invariant forall j :: 0 <= j < k ==> !Awaits(r, id, r.horizons[j], horizon)
          invariant Same()
        {
          if Awaits(r, id, r.horizons[k], horizon) {
            MissingKeepsOk(policy, s, changes[underlying], i, k, at, reason);
            series := series[underlying := s.(records := Missed(s.records, i, k, at, reason))];
            revision := revision + 1;
            return None;
          }
        }
      }
      return Some(NotFound);
    }

    /** Closes the open position into a trade. */
    method Close(e: Exit) returns (result: Result<Trade, QualificationError>)
      requires Valid()
      modifies this
      ensures Valid() && OnlyAt(e.underlying) && (result.Err? ==> Same())
      ensures e.underlying !in series ==> result == Err(InvalidInput)
      ensures e.underlying in series && ExitRefusal(old(series[e.underlying]), e).Some? ==>
                result == Err(ExitRefusal(old(series[e.underlying]), e).value)
      ensures e.underlying in series && ExitRefusal(old(series[e.underlying]), e).None? ==>
                && result.Ok? && TradeOk(result.value) && revision == old(revision) + 1
                && old(series[e.underlying]).current.value.entry > 0
                && result.value == TradeOf(policy, old(series[e.underlying]).current.value, e,
                                           SelectPrice(e.quote, false).value.minor)
                && series[e.underlying] ==
                   old(series[e.underlying]).(trades := old(series[e.underlying]).trades + [result.value],
                                              current := None)
    {
      hide SeriesOk, TradeOk;
      if e.underlying !in series {
        return Err(InvalidInput);
      }
      var s := series[e.underlying];
      var refusal := ExitRefusal(s, e);
      if refusal.Some? {
        return Err(refusal.value);
      }
      ClosingKeepsOk(policy, s, changes[e.underlying], e);
      var trade := TradeOf(policy, s.current.value, e, SelectPrice(e.quote, false).value.minor);
      series := series[e.underlying := s.(trades := s.trades + [trade], current := None)];
      changes := changes[e.underlying := []];
      revision := revision + 1;
      return Ok(trade);
    }
  }

  lemma OneRecordPerSignal(p: Policy, s: Series, changes: seq<int>, k: nat)
    requires SeriesOk(p, s, changes) && k < |s.records|
    ensures forall j :: 0 <= j < |s.records| && SameSignal(s.records[j], s.records[k]) ==> j == k
  {
  }

  lemma BalanceFollows(before: Series, after: Series)
    requires Balanced(before) && after.trades == before.trades && OpenIds(after.current) == OpenIds(before.current)
    requires ApprovedIds(after.records) == ApprovedIds(before.records)
    ensures Balanced(after)
  {
  }
}

/** The statistics of a series, accumulated in one pass. */
module Scorecards {
  import opened Wrappers
  import opened Int64
  import opened QualificationModel
  import opened QualificationEngine

  datatype Scorecard = Scorecard(accepted: nat, rejected: nat, openObservations: nat, wins: nat, losses: nat, flat: nat,
                                 gross: int64, mfe: int64, mae: int64, drawdown: int64)

  /** The profit after the first n trades. */
  function Cumulative(trades: seq<Trade>, n: nat): int
    requires n <= |trades|
  {
    if n == 0 then 0 else Cumulative(trades, n - 1) + trades[n - 1].gross
  }

  /** The fall from one point of the profit curve to a later one. */
  function Drop(trades: seq<Trade>, i: nat, j: nat): int
    requires i <= j <= |trades|
  {
    Cumulative(trades, i) - Cumulative(trades, j)
  }

  /** Every profit along the way fits in 64 bits. */
  predicate CurveFits(trades: seq<Trade>) {
    forall i :: 0 <= i <= |trades| ==> Fits(Cumulative(trades, i))
  }

  /** Every fall fits in 64 bits. */
  predicate FallsFit(trades: seq<Trade>) {
    forall i, j :: 0 <= i <= j <= |trades| ==> Drop(trades, i, j) <= MAX
  }

  /** d is the largest fall from any point to any later one among the first n. */
  predicate IsLargestDrop(trades: seq<Trade>, n: nat, d: int)
    requires n <= |trades|
  {
    && (forall i, j :: 0 <= i <= j <= n ==> Drop(trades, i, j) <= d)
    && exists i, j :: 0 <= i <= j <= n && Drop(trades, i, j) == d
  }

  predicate IsPeak(trades: seq<Trade>, n: nat, peak: int)
    requires n <= |trades|
  {
    && (forall i :: 0 <= i <= n ==> Cumulative(trades, i) <= peak)
    && exists i :: 0 <= i <= n && Cumulative(trades, i) == peak
  }

  lemma PeakStep(trades: seq<Trade>, n: nat, peak: int, next: int)
    requires n < |trades| && IsPeak(trades, n, peak)
    requires next == if Cumulative(trades, n + 1) > peak then Cumulative(trades, n + 1) else peak
    ensures IsPeak(trades, n + 1, next)
  {
    var i :| 0 <= i <= n && Cumulative(trades, i) == peak;
    assert Cumulative(trades, if Cumulative(trades, n + 1) > peak then n + 1 else i) == next;
  }

  /** The largest fall up to a new point is the larger of the old one and the fall
      from the peak to the point. */
  lemma DropStep(trades: seq<Trade>, n: nat, d: int, peak: int, next: int)
    requires n < |trades| && IsLargestDrop(trades, n, d) && IsPeak(trades, n + 1, peak)
    requires var fall := peak - Cumulative(trades, n + 1); next == if fall > d then fall else d
    ensures IsLargestDrop(trades, n + 1, next)
  {
    hide Cumulative;
    var p :| 0 <= p <= n + 1 && Cumulative(trades, p) == peak;
    assert Drop(trades, p, n + 1) == peak - Cumulative(trades, n + 1);
    var i, j :| 0 <= i <= j <= n && Drop(trades, i, j) == d;
    if peak - Cumulative(trades, n + 1) > d {
      assert Drop(trades, p, n + 1) == next;
    } else {
      assert Drop(trades, i, j) == next;
    }
  }

  lemma DropStart(trades: seq<Trade>)
    ensures IsLargestDrop(trades, 0, 0) && IsPeak(trades, 0, 0)
  {
    assert Drop(trades, 0, 0) == 0 && Cumulative(trades, 0) == 0;
  }

  predicate Won(t: Trade) { t.gross > 0 }

  predicate Lost(t: Trade) { t.gross < 0 }

  function Count(trades: seq<Trade>, n: nat, p: Trade -> bool): nat
    requires n <= |trades|
  {
    if n == 0 then 0 else Count(trades, n - 1, p) + if p(trades[n - 1]) then 1 else 0
  }

  /** The running profit, its peak and the largest fall so far, in the source's
      wrapping arithmetic. */
  datatype Point = Point(running: int64, peak: int64, drawdown: int64)

  function CurveAt(trades: seq<Trade>, n: nat): Point
    requires n <= |trades|
  {
    if n == 0 then Point(0, 0, 0) else
    var before := CurveAt(trades, n - 1);
    var running := Wrap(before.running + trades[n - 1].gross);
    var peak := if running > before.peak then running else before.peak;
    Point(running, peak, if Wrap(peak - running) > before.drawdown then Wrap(peak - running) else before.drawdown)
  }

  lemma WrapAdd(a: int, b: int)
    ensures Wrap(Wrap(a) + b) == Wrap(a + b)
  {
  }

  /** The running profit is the true one, wrapped; so it is true exactly when the
      true one fits. */
  lemma {:induction false} RunningIsWrapped(trades: seq<Trade>, n: nat)
    requires n <= |trades|
    ensures CurveAt(trades, n).running == Wrap(Cumulative(trades, n))
  {
    hide Wrap;
    if n > 0 {
      RunningIsWrapped(trades, n - 1);
      WrapAdd(Cumulative(trades, n - 1), trades[n - 1].gross);
    } else {
      assert Wrap(0) == 0;
    }
  }

  /** While profits and falls fit, the pass knows the peak and the largest fall. */
  lemma {:induction false} PassIsExact(trades: seq<Trade>, n: nat)
    requires n <= |trades| && CurveFits(trades) && FallsFit(trades)
    ensures IsPeak(trades, n, CurveAt(trades, n).peak) && IsLargestDrop(trades, n, CurveAt(trades, n).drawdown)
  {
    hide IsPeak, IsLargestDrop, Wrap;
    if n == 0 {
      DropStart(trades);
    } else {
      PassIsExact(trades, n - 1);
      RunningIsWrapped(trades, n);
      assert Fits(Cumulative(trades, n));
      var before, after := CurveAt(trades, n - 1), CurveAt(trades, n);
      PeakStep(trades, n - 1, before.peak, after.peak);
      FallFits(trades, n, after.peak);
      DropStep(trades, n - 1, before.drawdown, after.peak, after.drawdown);
    }
  }

  /** When the profits fit, the drawdown is the largest fall from any point to any
      later one if and only if every fall fits. */
  lemma DrawdownHoldsExactly(trades: seq<Trade>)
    requires CurveFits(trades)
    ensures IsLargestDrop(trades, |trades|, CurveAt(trades, |trades|).drawdown) <==> FallsFit(trades)
  {
    hide CurveAt, Cumulative;
    if FallsFit(trades) {
      PassIsExact(trades, |trades|);
    }
  }

  lemma FallFits(trades: seq<Trade>, n: nat, peak: int)
    requires FallsFit(trades) && n <= |trades| && IsPeak(trades, n, peak)
    ensures Fits(peak - Cumulative(trades, n))
  {
    hide Cumulative;
    var p :| 0 <= p <= n && Cumulative(trades, p) == peak;
    assert Drop(trades, p, n) <= MAX;
  }

  /** The scorecard. Every record is counted once as accepted or rejected, every
      trade once as won, lost or flat; the excursions are the extremes over the
      trades; the profit is the true sum exactly when that fits, and the drawdown,
      when the profits fit, is the largest fall exactly when the falls fit. */
  method Score(s: Series) returns (c: Scorecard)
    ensures c.accepted == |ApprovedIds(s.records)| && c.accepted + c.rejected == |s.records|
    ensures c.openObservations == if s.current.Some? then 1 else 0
    ensures c.wins == Count(s.trades, |s.trades|, Won) && c.losses == Count(s.trades, |s.trades|, Lost)
    ensures c.wins + c.losses + c.flat == |s.trades|
    ensures IsExcursion(s.trades, |s.trades|, c.mae, c.mfe)
    ensures c.gross == Wrap(Cumulative(s.trades, |s.trades|))
    ensures c.gross == Cumulative(s.trades, |s.trades|) <==> Fits(Cumulative(s.trades, |s.trades|))
    ensures CurveFits(s.trades) ==> (IsLargestDrop(s.trades, |s.trades|, c.drawdown) <==> FallsFit(s.trades))
  {
    hide Wrap, IsLargestDrop, FallsFit, CurveFits, Cumulative, IsExcursion, ApprovedIds;
    NoExcursion(s.trades);
    var accepted := CountApproved(s.records);
    var gross, drawdown := Curve(s.trades);
    c := Scorecard(accepted, |s.records| - accepted, if s.current.Some? then 1 else 0, 0, 0, 0, gross, 0, 0, drawdown);
    for n := 0 to |s.trades|
      invariant c.accepted == accepted && c.rejected == |s.records| - accepted && c.gross == gross
      invariant c.drawdown == drawdown && c.openObservations == if s.current.Some? then 1 else 0
      invariant c.wins == Count(s.trades, n, Won) && c.losses == Count(s.trades, n, Lost)
      invariant c.wins + c.losses + c.flat == n
      invariant IsExcursion(s.trades, n, c.mae, c.mfe)
    {
      var t := s.trades[n];
      if t.gross > 0 {
        c := c.(wins := c.wins + 1);
      } else if t.gross < 0 {
        c := c.(losses := c.losses + 1);
      } else {
        c := c.(flat := c.flat + 1);
      }
      ExcursionStep(s.trades, n, c.mae, c.mfe);
      c := c.(mfe := if t.mfe > c.mfe then t.mfe else c.mfe, mae := if t.mae < c.mae then t.mae else c.mae);
    }
  }

  lemma NoExcursion(trades: seq<Trade>)
    ensures IsExcursion(trades, 0, 0, 0)
  {
  }

  lemma ExcursionStep(trades: seq<Trade>, n: nat, mae: int, mfe: int)
    requires n < |trades| && IsExcursion(trades, n, mae, mfe)
    ensures var t := trades[n];
            IsExcursion(trades, n + 1, if t.mae < mae then t.mae else mae, if t.mfe > mfe then t.mfe else mfe)
  {
  }

  /** The worst and best excursion among the first n trades: each is 0 or a trade's,
      and no trade's is beyond it. */
  predicate IsExcursion(trades: seq<Trade>, n: nat, mae: int, mfe: int)
    requires n <= |trades|
  {
    && mae <= 0 <= mfe && (forall i :: 0 <= i < n ==> mae <= trades[i].mae && trades[i].mfe <= mfe)
    && (mae == 0 || exists i :: 0 <= i < n && trades[i].mae == mae)
    && (mfe == 0 || exists i :: 0 <= i < n && trades[i].mfe == mfe)
  }

  method CountApproved(records: seq<SignalRecord>) returns (accepted: nat)
    ensures accepted == |ApprovedIds(records)| <= |records|
  {
    accepted := 0;
    for n := 0 to |records|
      invariant accepted == |ApprovedIds(records[..n])| <= n
    {
      assert records[..n + 1][..n] == records[..n];
      if records[n].risk.Approved? {
        accepted := accepted + 1;
      }
    }
    assert records[..|records|] == records;
  }

  /** The running profit, its peak and the fall from it. */
  method Curve(trades: seq<Trade>) returns (running: int64, drawdown: int64)
    ensures running == CurveAt(trades, |trades|).running && drawdown == CurveAt(trades, |trades|).drawdown
    ensures running == Wrap(Cumulative(trades, |trades|))
    ensures CurveFits(trades) ==> (IsLargestDrop(trades, |trades|, drawdown) <==> FallsFit(trades))
  {
    hide Wrap, IsLargestDrop, FallsFit, CurveFits, Cumulative;
    var peak: int64 := 0;
    running, drawdown := 0, 0;
    for n := 0 to |trades|
      invariant Point(running, peak, drawdown) == CurveAt(trades, n)
    {
      running := Wrap(running + trades[n].gross);
      if running > peak {
        peak := running;
      }
      if Wrap(peak - running) > drawdown {
        drawdown := Wrap(peak - running);
      }
    }
    RunningIsWrapped(trades, |trades|);
    if CurveFits(trades) {
      DrawdownHoldsExactly(trades);
    }
  }

  /** A series that the engine builds from three accepted trades of 2^62 units: profit
      2^62, then back to 0, then to -2^62. Every profit fits, the fall from the first
      to the last is 2^63, which does not, and the drawdown reported is half of it. */
  lemma DrawdownWraps(p: Policy) returns (s: Series)
    ensures exists a, b: Series ::
              && Traded(p, Empty, SampleSignal(1, 1, 0x4000_0000_0000_0000), SampleExit(1, 2, 1, 2)) == Some(a)
              && Traded(p, a, SampleSignal(3, 2, 0x4000_0000_0000_0000), SampleExit(3, 1, 2, 4)) == Some(b)
              && Traded(p, b, SampleSignal(5, 2, 0x4000_0000_0000_0000), SampleExit(5, 1, 2, 6)) == Some(s)
    ensures |s.trades| == 3 && CurveFits(s.trades) && !FallsFit(s.trades) && Drop(s.trades, 1, 3) == MAX + 1
    ensures CurveAt(s.trades, 3).drawdown == 0x4000_0000_0000_0000 &&
            !IsLargestDrop(s.trades, 3, CurveAt(s.trades, 3).drawdown)
  {
    hide Traded, IsLargestDrop;
    var q := 0x4000_0000_0000_0000;
    SampleTrade(p, Empty, 1, 1, 2, q);
    var a := Traded(p, Empty, SampleSignal(1, 1, q), SampleExit(1, 2, 1, 2)).value;
    SampleTrade(p, a, 3, 2, 1, q);
    var b := Traded(p, a, SampleSignal(3, 2, q), SampleExit(3, 1, 2, 4)).value;
    assert b.records[0] == b.records[..1][0] == a.records[0];
    SampleTrade(p, b, 5, 2, 1, q);
    s := Traded(p, b, SampleSignal(5, 2, q), SampleExit(5, 1, 2, 6)).value;
    assert s.trades[0] == s.trades[..2][0] == b.trades[0] == b.trades[..1][0] == a.trades[0];
    assert s.trades[1] == s.trades[..2][1] == b.trades[1];
    SampleCurve(s.trades);
  }

  lemma SampleCurve(trades: seq<Trade>)
    requires |trades| == 3 && trades[0].gross == 0x4000_0000_0000_0000
    requires trades[1].gross == trades[2].gross == -0x4000_0000_0000_0000
    ensures CurveFits(trades) && !FallsFit(trades) && Drop(trades, 1, 3) == MAX + 1
    ensures CurveAt(trades, 3).drawdown == 0x4000_0000_0000_0000 &&
            !IsLargestDrop(trades, 3, CurveAt(trades, 3).drawdown)
  {
    hide IsLargestDrop;
    assert Cumulative(trades, 0) == 0 && Cumulative(trades, 1) == 0x4000_0000_0000_0000;
    assert Cumulative(trades, 2) == 0 && Cumulative(trades, 3) == -0x4000_0000_0000_0000;
    assert CurveAt(trades, 0) == Point(0, 0, 0);
    assert CurveAt(trades, 1) == Point(0x4000_0000_0000_0000, 0x4000_0000_0000_0000, 0);
    assert CurveAt(trades, 2) == Point(0, 0x4000_0000_0000_0000, 0x4000_0000_0000_0000);
    assert Drop(trades, 1, 3) == MAX + 1;
    DrawdownHoldsExactly(trades);
  }

  /** When a profit leaves 64 bits the drawdown can be wrong as well: after three
      accepted trades that gain 3 * 2^61 each, the profit never falls, and a drawdown is
      reported. */
  lemma RiseReportedAsFall(p: Policy) returns (s: Series)
    ensures exists a, b: Series ::
              && Traded(p, Empty, SampleSignal(1, 1, 0x6000_0000_0000_0000), SampleExit(1, 2, 1, 2)) == Some(a)
              && Traded(p, a, SampleSignal(3, 1, 0x6000_0000_0000_0000), SampleExit(3, 2, 1, 4)) == Some(b)
              && Traded(p, b, SampleSignal(5, 1, 0x6000_0000_0000_0000), SampleExit(5, 2, 1, 6)) == Some(s)
    ensures |s.trades| == 3 && !CurveFits(s.trades) && IsLargestDrop(s.trades, 3, 0)
    ensures CurveAt(s.trades, 3).drawdown > 0
  {
    hide Traded, IsLargestDrop;
    var q := 0x6000_0000_0000_0000;
    SampleTrade(p, Empty, 1, 1, 2, q);
    var a := Traded(p, Empty, SampleSignal(1, 1, q), SampleExit(1, 2, 1, 2)).value;
    SampleTrade(p, a, 3, 1, 2, q);
    var b := Traded(p, a, SampleSignal(3, 1, q), SampleExit(3, 2, 1, 4)).value;
    assert b.records[0] == b.records[..1][0] == a.records[0];
    SampleTrade(p, b, 5, 1, 2, q);
    s := Traded(p, b, SampleSignal(5, 1, q), SampleExit(5, 2, 1, 6)).value;
    assert s.trades[0] == s.trades[..2][0] == b.trades[0] == b.trades[..1][0] == a.trades[0];
    assert s.trades[1] == s.trades[..2][1] == b.trades[1];
    RisingCurve(s.trades);
  }

  lemma RisingCurve(trades: seq<Trade>)
    requires |trades| == 3 && trades[0].gross == trades[1].gross == trades[2].gross == 0x6000_0000_0000_0000
    ensures !CurveFits(trades) && IsLargestDrop(trades, 3, 0) && CurveAt(trades, 3).drawdown > 0
  {
    assert Cumulative(trades, 0) == 0 && Cumulative(trades, 1) == 0x6000_0000_0000_0000;
    assert Cumulative(trades, 2) == 0xc000_0000_0000_0000 && Cumulative(trades, 3) == 0x1_2000_0000_0000_0000;
    assert Drop(trades, 0, 0) == 0;
    assert CurveAt(trades, 0) == Point(0, 0, 0);
    assert CurveAt(trades, 1) == Point(0x6000_0000_0000_0000, 0x6000_0000_0000_0000, 0);
    assert CurveAt(trades, 2) == Point(-0x4000_0000_0000_0000, 0x6000_0000_0000_0000, 0);
    assert CurveAt(trades, 3).running == 0x2000_0000_0000_0000;
  }
}
