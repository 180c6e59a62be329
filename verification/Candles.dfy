/** One-minute candles, as a grouping of ticks. Times are nanoseconds from the
    zero time; 0 stands for an absent time. */
module CandleModel {
  import opened Int64

  type Instant = int
  const MINUTE: int := 60_000_000_000
  const MAXIMUM_CANDLES: nat := 64

  datatype Tick = Tick(event: string, instrument: string, at: Instant, price: int64)

  datatype Candle = Candle(event: string, openTime: Instant, closeTime: Instant, first: int64, high: int64, low: int64,
                           last: int64, ticks: nat, lastAt: Instant, sources: seq<string>)

  function Minute(at: Instant): (m: Instant)
    ensures m <= at < m + MINUTE
  {
    at / MINUTE * MINUTE
  }

  predicate Ascending(ticks: seq<Tick>) {
    forall i, j :: 0 <= i < j < |ticks| ==> ticks[i].at < ticks[j].at
  }

  /** The ticks of one minute. */
  function InMinute(ticks: seq<Tick>, m: Instant): seq<Tick> {
    if ticks == [] then [] else
    var n := |ticks| - 1;
    InMinute(ticks[..n], m) + if Minute(ticks[n].at) == m then [ticks[n]] else []
  }

  /** The minutes that have ticks, each once, in order of appearance. */
  function Minutes(ticks: seq<Tick>): seq<Instant> {
    if ticks == [] then [] else
    var n := |ticks| - 1;
    var before := Minutes(ticks[..n]);
    if Minute(ticks[n].at) in before then before else before + [Minute(ticks[n].at)]
  }

  function Highest(group: seq<Tick>): int64
    requires group != []
  {
    var n := |group| - 1;
    if n == 0 || group[n].price > Highest(group[..n]) then group[n].price else Highest(group[..n])
  }

  function Lowest(group: seq<Tick>): int64
    requires group != []
  {
    var n := |group| - 1;
    if n == 0 || group[n].price < Lowest(group[..n]) then group[n].price else Lowest(group[..n])
  }

  /** The extremes are prices of the group, and bound every price of it. */
  lemma {:induction false} ExtremesOfGroup(group: seq<Tick>) returns (top: nat, bottom: nat)
    requires group != []
    ensures top < |group| && group[top].price == Highest(group)
    ensures bottom < |group| && group[bottom].price == Lowest(group)
    ensures forall i :: 0 <= i < |group| ==> Lowest(group) <= group[i].price <= Highest(group)
  {
    var n := |group| - 1;
    top, bottom := n, n;
    if n > 0 {
      var t, b := ExtremesOfGroup(group[..n]);
      forall i | 0 <= i < n ensures Lowest(group[..n]) <= group[i].price <= Highest(group[..n]) {
        assert group[..n][i] == group[i];
      }
      top := if group[n].price > Highest(group[..n]) then n else t;
      bottom := if group[n].price < Lowest(group[..n]) then n else b;
    }
  }

  function Events(group: seq<Tick>): seq<string> {
    seq(|group|, i requires 0 <= i < |group| => group[i].event)
  }

  /** The candle of a group of ticks that share a minute. */
  function Summary(m: Instant, group: seq<Tick>): Candle {
    if group == [] then Candle("", m, 0, 0, 0, 0, 0, 0, 0, []) else
    var n := |group| - 1;
    Candle(group[n].event, m, 0, group[0].price, Highest(group), Lowest(group), group[n].price, |group|, group[n].at,
           Events(group))
  }

  /** All ticks at once: one candle for each minute. */
  function Batch(ticks: seq<Tick>): (candles: seq<Candle>)
    ensures |candles| == |Minutes(ticks)|
  {
    seq(|Minutes(ticks)|, i requires 0 <= i < |Minutes(ticks)| =>
          Summary(Minutes(ticks)[i], InMinute(ticks, Minutes(ticks)[i])))
  }

  predicate Increasing(s: seq<Instant>) {
    forall i, j :: 0 <= i < j < |s| ==> s[i] < s[j]
  }

  /** On ascending ticks the minutes are strictly increasing, exactly those that
      have a tick, and the last is that of the last tick. */
  lemma {:induction false} MinutesAreExact(ticks: seq<Tick>)
    requires Ascending(ticks)
    ensures Increasing(Minutes(ticks)) && (ticks != [] ==> Minutes(ticks) != [])
    ensures ticks != [] ==> Minutes(ticks)[|Minutes(ticks)| - 1] == Minute(ticks[|ticks| - 1].at)
    ensures forall m :: m in Minutes(ticks) <==> InMinute(ticks, m) != []
  {
    if ticks != [] {
      var n := |ticks| - 1;
      MinutesAreExact(ticks[..n]);
      if n > 0 {
        assert ticks[n - 1].at < ticks[n].at;
        MinuteIsMonotone(ticks[n - 1].at, ticks[n].at);
        LastIsGreatest(Minutes(ticks[..n]), Minute(ticks[n].at));
      }
    }
  }

  lemma MinuteIsMonotone(a: Instant, b: Instant)
    requires a <= b
    ensures Minute(a) <= Minute(b) && (Minute(b) - Minute(a)) % MINUTE == 0
  {
  }

  lemma LastIsGreatest(s: seq<Instant>, m: Instant)
    requires Increasing(s) && s != [] && s[|s| - 1] <= m
    ensures m in s ==> m == s[|s| - 1]
    ensures m != s[|s| - 1] ==> Increasing(s + [m])
  {
  }

  function Fresh(t: Tick): Candle {
    Candle(t.event, Minute(t.at), 0, t.price, t.price, t.price, t.price, 1, t.at, [t.event])
  }

  /** A tick added to the candle of its minute. */
  function Extended(c: Candle, t: Tick): Candle {
    c.(high := if t.price > c.high then t.price else c.high,
       low := if t.price < c.low then t.price else c.low,
       last := t.price, lastAt := t.at, event := t.event, ticks := c.ticks + 1, sources := c.sources + [t.event])
  }

  lemma SummaryExtends(m: Instant, group: seq<Tick>, t: Tick)
    requires group != []
    ensures Summary(m, group + [t]) == Extended(Summary(m, group), t)
  {
    assert (group + [t])[..|group|] == group;
  }

  lemma SummaryStarts(t: Tick)
    ensures Summary(Minute(t.at), [t]) == Fresh(t)
  {
  }

  predicate Joins(ticks: seq<Tick>, t: Tick) {
    ticks != [] && Minute(ticks[|ticks| - 1].at) == Minute(t.at)
  }

  /** How the minutes and the candles grow by one tick. */
  function Grown(candles: seq<Candle>, t: Tick, joins: bool): seq<Candle>
    requires joins ==> candles != []
  {
    if joins then candles[..|candles| - 1] + [Extended(candles[|candles| - 1], t)] else candles + [Fresh(t)]
  }

  lemma MinutesGrow(ticks: seq<Tick>, t: Tick)
    requires Ascending(ticks + [t])
    ensures Ascending(ticks) && (ticks != [] ==> Minutes(ticks) != [])
    ensures ticks != [] ==> Minutes(ticks)[|Minutes(ticks)| - 1] == Minute(ticks[|ticks| - 1].at)
    ensures Increasing(Minutes(ticks))
    ensures Minutes(ticks + [t]) == if Joins(ticks, t) then Minutes(ticks) else Minutes(ticks) + [Minute(t.at)]
    ensures Joins(ticks, t) <==> InMinute(ticks, Minute(t.at)) != []
  {
    var all := ticks + [t];
    assert all[..|ticks|] == ticks;
    assert Ascending(ticks) by { assert forall i :: 0 <= i < |ticks| ==> ticks[i] == all[i]; }
    MinutesAreExact(ticks);
    if ticks != [] {
      assert all[|ticks| - 1].at < all[|ticks|].at;
      MinuteIsMonotone(ticks[|ticks| - 1].at, t.at);
      LastIsGreatest(Minutes(ticks), Minute(t.at));
    }
  }

  /** Adding a tick to ascending ticks changes the last candle, or starts one. */
  lemma BatchGrows(ticks: seq<Tick>, t: Tick)
    requires Ascending(ticks + [t])
    ensures Joins(ticks, t) ==> Batch(ticks) != []
    ensures Batch(ticks + [t]) == Grown(Batch(ticks), t, Joins(ticks, t))
  {
    hide Summary, Extended, Fresh, Minutes, InMinute, Joins, Ascending;
    MinutesGrow(ticks, t);
    var all, m := ticks + [t], Minute(t.at);
    forall i | 0 <= i < |Minutes(ticks)| && Minutes(ticks)[i] != m ensures Batch(all)[i] == Batch(ticks)[i] {
      MinuteGrows(ticks, t, Minutes(ticks)[i]);
    }
    MinuteGrows(ticks, t, m);
    if Joins(ticks, t) {
      SummaryExtends(m, InMinute(ticks, m), t);
      var n := |Minutes(ticks)| - 1;
      assert Minutes(ticks)[n] == m && Minutes(all) == Minutes(ticks) by { JoinsIsSameMinute(ticks, t); }
      assert forall i :: 0 <= i < n ==> Batch(all)[i] == Batch(ticks)[i];
      assert Batch(all)[n] == Summary(m, InMinute(ticks, m) + [t]);
      assert Batch(all) == Batch(ticks)[..n] + [Extended(Batch(ticks)[n], t)];
    } else {
      SummaryStarts(t);
      assert forall i :: 0 <= i < |Minutes(ticks)| ==> Minutes(ticks)[i] != m by { NotJoined(ticks, t); }
      var n := |Minutes(ticks)|;
      assert InMinute(all, m) == [] + [t] == [t] && Minutes(all) == Minutes(ticks) + [m];
      assert Batch(all)[n] == Summary(m, [t]);
      assert forall i :: 0 <= i < n ==> Batch(all)[i] == Batch(ticks)[i];
      assert Batch(all) == Batch(ticks) + [Fresh(t)];
    }
  }

  lemma JoinsIsSameMinute(ticks: seq<Tick>, t: Tick)
    ensures Joins(ticks, t) ==> ticks != [] && Minute(ticks[|ticks| - 1].at) == Minute(t.at)
  {
  }

  lemma NotJoined(ticks: seq<Tick>, t: Tick)
    requires Ascending(ticks + [t]) && !Joins(ticks, t)
    ensures forall i :: 0 <= i < |Minutes(ticks)| ==> Minutes(ticks)[i] != Minute(t.at)
  {
    MinutesGrow(ticks, t);
    MinutesAreExact(ticks);
  }

  lemma MinuteGrows(ticks: seq<Tick>, t: Tick, m: Instant)
    ensures InMinute(ticks + [t], m) == if Minute(t.at) == m then InMinute(ticks, m) + [t] else InMinute(ticks, m)
  {
    assert (ticks + [t])[..|ticks|] == ticks;
  }

  function TickTotal(candles: seq<Candle>): nat {
    if candles == [] then 0 else TickTotal(candles[..|candles| - 1]) + candles[|candles| - 1].ticks
  }

  /** No accepted tick is lost and none is in two candles. */
  lemma {:induction false} BatchConservesTicks(ticks: seq<Tick>)
    requires Ascending(ticks)
    ensures TickTotal(Batch(ticks)) == |ticks|
  {
    hide Batch, Fresh, Extended;
    if ticks == [] {
      assert |Batch(ticks)| == 0;
    } else {
      var n := |ticks| - 1;
      BatchConservesTicks(ticks[..n]);
      assert ticks[..n] + [ticks[n]] == ticks;
      BatchGrows(ticks[..n], ticks[n]);
      TotalGrows(Batch(ticks[..n]), ticks[n], Joins(ticks[..n], ticks[n]));
    }
  }

  lemma TotalGrows(candles: seq<Candle>, t: Tick, joins: bool)
    requires joins ==> candles != []
    ensures TickTotal(Grown(candles, t, joins)) == TickTotal(candles) + 1
  {
    var after := Grown(candles, t, joins);
    assert after[..|after| - 1] == if joins then candles[..|candles| - 1] else candles;
  }
}

/** The aggregator that builds candles tick by tick. */
module CandleAggregation {
  import opened Wrappers
  import opened CandleModel

  datatype CandleError = CandleInvalid | DuplicateTick | OutOfOrderTick

  datatype Series = Series(instrument: string, current: Option<Candle>, completed: seq<Candle>, lastEvent: string,
                           lastAt: Instant, duplicates: nat, outOfOrder: nat, gapMinutes: nat)

  function Closed(c: Candle): Candle {
    c.(closeTime := c.openTime + MINUTE)
  }

  function ClosedAll(candles: seq<Candle>): seq<Candle> {
    seq(|candles|, i requires 0 <= i < |candles| => Closed(candles[i]))
  }

  /** The last 64 of a list of candles. */
  function Recent(candles: seq<Candle>): seq<Candle> {
    if |candles| <= MAXIMUM_CANDLES then candles else candles[|candles| - MAXIMUM_CANDLES..]
  }

  /** They are the latest ones, in their order, and all of them up to 64. */
  lemma RecentAreTheLatest(candles: seq<Candle>)
    ensures |Recent(candles)| == if |candles| < MAXIMUM_CANDLES then |candles| else MAXIMUM_CANDLES
    ensures forall i :: 0 <= i < |Recent(candles)| ==>
              Recent(candles)[i] == candles[|candles| - |Recent(candles)| + i]
  {
  }

  /** A series is what grouping the accepted ticks would give: the open candle is
      the last group, the completed ones are the last 64 groups before it, and the
      minutes from the first group to the last are the completed groups plus the
      gaps. */
  predicate Represents(s: Series, ticks: seq<Tick>) {
    && Ascending(ticks)
    && s.lastEvent == (if ticks == [] then "" else ticks[|ticks| - 1].event)
    && s.lastAt == (if ticks == [] then 0 else ticks[|ticks| - 1].at)
    && (ticks != [] ==> s.lastAt != 0)
    && CandlesMatch(s, Batch(ticks))
  }

  predicate CandlesMatch(s: Series, candles: seq<Candle>) {
    if candles == [] then s.current == None && s.completed == [] && s.gapMinutes == 0 else
      var n := |candles| - 1;
      && s.current == Some(candles[n]) && s.completed == Recent(ClosedAll(candles[..n]))
      && candles[n].openTime - candles[0].openTime == MINUTE * (n + s.gapMinutes)
  }

  /** Why a tick is refused, if it is. */
  function Refusal(s: Series, t: Tick): Option<CandleError> {
    if t.instrument != s.instrument || t.at == 0 || t.price <= 0 then Some(CandleInvalid)
    else if t.event == s.lastEvent then Some(DuplicateTick)
    else if s.lastAt != 0 && t.at <= s.lastAt then Some(OutOfOrderTick)
    else None
  }

  /** Each refusal of a tick, by its fields and what the series has seen. */
  lemma RefusalExactly(s: Series, t: Tick)
    ensures var valid := t.instrument == s.instrument && t.at != 0 && t.price > 0;
            && (Refusal(s, t) == Some(CandleInvalid) <==> !valid)
            && (Refusal(s, t) == Some(DuplicateTick) <==> valid && t.event == s.lastEvent)
            && (Refusal(s, t) == Some(OutOfOrderTick) <==>
                  valid && t.event != s.lastEvent && s.lastAt != 0 && t.at <= s.lastAt)
            && (Refusal(s, t).None? <==> valid && t.event != s.lastEvent && (s.lastAt == 0 || t.at > s.lastAt))
  {
  }

  /** The candle that a tick completes: the one before it, if it starts another. */
  function Finished(ticks: seq<Tick>, t: Tick): Option<Candle> {
    if ticks == [] || Joins(ticks, t) || Batch(ticks) == [] then None
    else Some(Closed(Batch(ticks)[|Batch(ticks)| - 1]))
  }

  class CandleAggregator {
    var series: map<string, Series>
    ghost var ticks: map<string, seq<Tick>>

    ghost predicate Valid()
      reads this
    {
      && series.Keys == ticks.Keys
      && forall u <- series :: Represents(series[u], ticks[u])
    }

    constructor (spots: map<string, string>)
      ensures Valid() && series.Keys == spots.Keys
      ensures forall u <- spots :: ticks[u] == [] && series[u].instrument == spots[u]
    {
      series := map u <- spots :: Series(spots[u], None, [], "", 0, 0, 0, 0);
      ticks := map u <- spots :: [];
    }

    /** Accepts or refuses one tick. A refused tick changes at most a counter. An
        accepted one is added to the accepted ticks, of which the series remains the
        grouping; the branch for a tick in an earlier minute is never taken. */
    method Accept(underlying: string, t: Tick) returns (result: Result<Option<Candle>, CandleError>)
      requires Valid()
      modifies this
      ensures Valid() && series.Keys == old(series.Keys)
      ensures forall u <- series :: u != underlying ==> series[u] == old(series[u]) && ticks[u] == old(ticks[u])
      ensures underlying !in series ==> result == Err(CandleInvalid) && series == old(series)
      ensures underlying in series ==>
                var refusal := Refusal(old(series[underlying]), t);
                && (refusal.Some? ==>
                      && result == Err(refusal.value) && ticks == old(ticks)
                      && series[underlying] == Counted(old(series[underlying]), refusal.value))
                && (refusal.None? ==>
                      && ticks == old(ticks[underlying := ticks[underlying] + [t]])
                      && result == Ok(Finished(old(ticks[underlying]), t))
                      && series[underlying].instrument == old(series[underlying].instrument)
                      && series[underlying].duplicates == old(series[underlying].duplicates)
                      && series[underlying].outOfOrder == old(series[underlying].outOfOrder))
    {
      hide Represents, Refusal, Finished;
      if underlying !in series {
        return Err(CandleInvalid);
      }
      var s := series[underlying];
      var refusal := Refusal(s, t);
      if refusal.Some? {
        CountingKeepsGrouping(s, ticks[underlying], refusal.value);
        series := series[underlying := Counted(s, refusal.value)];
        return Err(refusal.value);
      }
      var next, finished := Advance(s, t, ticks[underlying]);
      series := series[underlying := next];
      ticks := ticks[underlying := ticks[underlying] + [t]];
      return Ok(finished);
    }
  }

  /** What an accepted tick does to its series. */
  method Advance(before: Series, t: Tick, ghost ticks: seq<Tick>) returns (s: Series, finished: Option<Candle>)
    requires Represents(before, ticks) && Refusal(before, t).None?
    ensures Represents(s, ticks + [t]) && finished == Finished(ticks, t)
    ensures s.instrument == before.instrument && s.duplicates == before.duplicates && s.outOfOrder == before.outOfOrder
  {
    hide Batch, Minute, Ascending, Grown, Extended, Fresh, Recent, ClosedAll, Joins;
    AcceptedKeepsAscending(before, ticks, t);
    LastCandle(ticks, t);
    BatchGrows(ticks, t);
    var minute := Minute(t.at);
    s := before.(lastEvent := t.event, lastAt := t.at);
    finished := None;
    if s.current.None? {
      s := s.(current := Some(Fresh(t)));
    } else if minute == s.current.value.openTime {
      s := s.(current := Some(Extended(s.current.value, t)));
    } else if minute < s.current.value.openTime {
      assert false;
    } else {
      var completed := Closed(s.current.value);
      var gap := (minute - completed.openTime) / MINUTE - 1;
      if gap > 0 {
        s := s.(gapMinutes := s.gapMinutes + gap);
      }
      s := s.(completed := Recent(s.completed + [completed]), current := Some(Fresh(t)));
      finished := Some(completed);
    }
    MatchGrows(before, s, Batch(ticks), t, Joins(ticks, t));
  }

  function Counted(s: Series, error: CandleError): Series {
    match error
    case DuplicateTick => s.(duplicates := s.duplicates + 1)
    case OutOfOrderTick => s.(outOfOrder := s.outOfOrder + 1)
    case CandleInvalid => s
  }

  /** A refused tick is counted by its refusal and changes nothing else. */
  lemma CountedExactly(s: Series, error: CandleError)
    ensures var c := Counted(s, error);
            && c.duplicates == s.duplicates + (if error == DuplicateTick then 1 else 0)
            && c.outOfOrder == s.outOfOrder + (if error == OutOfOrderTick then 1 else 0)
            && c.(duplicates := s.duplicates, outOfOrder := s.outOfOrder) == s
  {
  }

  lemma CountingKeepsGrouping(s: Series, ticks: seq<Tick>, error: CandleError)
    requires Represents(s, ticks)
    ensures Represents(Counted(s, error), ticks)
  {
  }

  lemma AcceptedKeepsAscending(s: Series, ticks: seq<Tick>, t: Tick)
    requires Represents(s, ticks) && Refusal(s, t).None?
    ensures Ascending(ticks + [t])
  {
  }

  /** The open candle is of the last tick's minute, which is not after that of a
      later tick, and a whole number of minutes before it. */
  lemma LastCandle(ticks: seq<Tick>, t: Tick)
    requires Ascending(ticks + [t])
    ensures (Batch(ticks) == []) == (ticks == [])
    ensures ticks != [] ==>
              var current := Batch(ticks)[|Batch(ticks)| - 1];
              && current.openTime == Minute(ticks[|ticks| - 1].at) <= Minute(t.at)
              && (Minute(t.at) - current.openTime) % MINUTE == 0
              && (Joins(ticks, t) <==> Minute(t.at) == current.openTime)
    ensures ticks == [] ==> !Joins(ticks, t)
  {
    hide Minute, InMinute;
    MinutesGrow(ticks, t);
    if ticks != [] {
      assert (ticks + [t])[|ticks| - 1].at < (ticks + [t])[|ticks|].at;
      MinuteIsMonotone(ticks[|ticks| - 1].at, t.at);
    }
  }

  /** One step of the aggregator keeps its series the grouping. */
  lemma MatchGrows(before: Series, after: Series, candles: seq<Candle>, t: Tick, joins: bool)
    requires CandlesMatch(before, candles) && (joins ==> candles != [])
    requires joins ==> candles[|candles| - 1].openTime == Minute(t.at)
    requires !joins && candles != [] ==>
               && candles[|candles| - 1].openTime < Minute(t.at)
               && (Minute(t.at) - candles[|candles| - 1].openTime) % MINUTE == 0
    requires joins ==>
               && after.current == Some(Extended(before.current.value, t)) && after.completed == before.completed
               && after.gapMinutes == before.gapMinutes
    requires !joins ==> after.current == Some(Fresh(t))
    requires !joins && candles == [] ==> after.completed == [] && after.gapMinutes == 0
    requires !joins && candles != [] ==>
               && after.completed == Recent(before.completed + [Closed(before.current.value)])
               && after.gapMinutes ==
                  before.gapMinutes + (Minute(t.at) - before.current.value.openTime) / MINUTE - 1
    ensures CandlesMatch(after, Grown(candles, t, joins))
  {
    var grown := Grown(candles, t, joins);
    var n := |grown| - 1;
    if joins {
      assert grown[..n] == candles[..n];
    } else if candles != [] {
      assert grown[..n] == candles == candles[..n - 1] + [candles[n - 1]];
      assert ClosedAll(candles) == ClosedAll(candles[..n - 1]) + [Closed(candles[n - 1])];
    }
  }
}
