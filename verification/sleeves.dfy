/** The forward test's sleeves (research/strategy_search/fwd_run.py:39-92, bt.py:63-102, bt_listing.py:32-98,
    bt_pump.py:22-27) as functions of the tables, and their freedom from look-ahead: appending bars leaves every day
    but the last one unchanged. */
module Sleeves {
  import opened Lists
  import opened Sums
  import opened Engine
  import opened Listing
  import opened Overlay

  /** The tables of one run: bars and settled funding rates, one row a day. */
  datatype Tables = Tables(bars: seq<BarRow>, funding: seq<Row>)

  predicate Sound(t: Tables) { |t.bars| == |t.funding| && |t.bars| >= 1 }

  /** Today's tables append rows to yesterday's; the last day's funding may still have been growing. */
  predicate Extends(today: Tables, yesterday: Tables) {
    && Sound(today) && Sound(yesterday)
    && yesterday.bars <= today.bars
    && yesterday.funding[..|yesterday.bars| - 1] <= today.funding
  }

  /** A sleeve. What the library computes from the rows up to a day is an arbitrary function of those rows: the
      symbols with an event on the day, the live basket, the ranked weights, the trailing deviation. */
  datatype Sleeve =
    | EventSleeve(rule: Rule, hits: seq<BarRow> -> seq<string>, hedge: Hedge, live: seq<BarRow> -> set<string>)
    | RankSleeve(signal: (seq<BarRow>, seq<Row>) -> Row, target: real, deviation: seq<real> -> Option<real>)

  // ---------------------------------------------------------------- events

  function EventAt(row: nat): string -> Event { s => Event(s, row) }

  function Events(bars: seq<BarRow>, hits: seq<BarRow> -> seq<string>): seq<Event> {
    if bars == [] then []
    else Events(bars[..|bars| - 1], hits) + Map(hits(bars), EventAt(|bars| - 1))
  }

  lemma {:induction false} EventsListed(bars: seq<BarRow>, hits: seq<BarRow> -> seq<string>)
    ensures forall e :: e in Events(bars, hits) ==> e.listed < |bars|
  {
    if bars != [] {
      EventsListed(bars[..|bars| - 1], hits);
    }
  }

  // ---------------------------------------------------------------- causality of the event book

  lemma {:induction false} VolumesSame(bars: seq<BarRow>, more: seq<BarRow>, lo: nat, hi: nat, s: string)
    requires bars <= more && lo <= hi <= |bars|
    ensures Volumes(more[lo..hi], s) == Volumes(bars[lo..hi], s)
  {
    assert more[lo..hi] == bars[lo..hi];
  }

  /** Whether an event is held on a final day does not depend on later bars. */
  lemma HeldOnCausal(bars: seq<BarRow>, more: seq<BarRow>, rule: Rule, e: Event, i: int)
    requires bars <= more && i <= |bars| - 2
    ensures HeldOn(more, rule, e, i) <==> HeldOn(bars, rule, e, i)
    ensures StopsOn(more, rule, e, i) <==> StopsOn(bars, rule, e, i)
  {
    var start := e.listed + rule.delay;
    if start <= i {
      VolumesSame(bars, more, e.listed, start, e.symbol);
      assert forall j :: start <= j <= i ==> more[j] == bars[j];
    }
  }

  /** Events of later rows change nothing on a final day. */
  lemma {:induction false} RawRowCausal(bars: seq<BarRow>, more: seq<BarRow>, events: seq<Event>, later: seq<Event>,
                                        rule: Rule, i: int)
    requires bars <= more && i <= |bars| - 2
    requires forall e :: e in later ==> e.listed >= |bars|
    ensures RawRow(more, events + later, rule, i - 1) == RawRow(bars, events, rule, i - 1)
    ensures OverrideRow(more, events + later, rule, i) == OverrideRow(bars, events, rule, i)
  {
    if later != [] {
      var n := |later| - 1;
      assert (events + later)[..|events + later| - 1] == events + later[..n];
      assert later[n] in later;
      RawRowCausal(bars, more, events, later[..n], rule, i);
    } else if events != [] {
      var n := |events| - 1;
      assert events + later == events && (events + later)[..n] == events[..n] + [];
      HeldOnCausal(bars, more, rule, events[n], i);
      RawRowCausal(bars, more, events[..n], [], rule, i);
    }
  }

  lemma {:induction false} EventsAppend(bars: seq<BarRow>, more: seq<BarRow>, hits: seq<BarRow> -> seq<string>)
    returns (later: seq<Event>)
    requires bars <= more
    ensures Events(more, hits) == Events(bars, hits) + later
    ensures forall e :: e in later ==> e.listed >= |bars|
  {
    if |more| == |bars| {
      later := [];
      assert more == bars;
    } else {
      var n := |more| - 1;
      var front := EventsAppend(bars, more[..n], hits);
      later := front + Map(hits(more), EventAt(n));
    }
  }

  // ---------------------------------------------------------------- weights

  ghost function EventWeights(t: Tables, rule: Rule, hits: seq<BarRow> -> seq<string>, kind: Hedge,
                              live: seq<BarRow> -> set<string>): (w: seq<Row>)
    ensures |w| == |t.bars|
  {
    seq(|t.bars|, r requires 0 <= r < |t.bars| =>
      Hedged(Capped(RawRow(t.bars, Events(t.bars, hits), rule, r), rule.grossCap), live(t.bars[..r + 1]), kind))
  }

  function EventOverride(t: Tables, rule: Rule, hits: seq<BarRow> -> seq<string>): (w: seq<Row>)
    ensures |w| == |t.bars|
  {
    seq(|t.bars|, i requires 0 <= i < |t.bars| => OverrideRow(t.bars, Events(t.bars, hits), rule, i))
  }

  lemma EventRowsCausal(bars: seq<BarRow>, more: seq<BarRow>, rule: Rule, hits: seq<BarRow> -> seq<string>, i: int)
    requires bars <= more && i <= |bars| - 2
    ensures RawRow(more, Events(more, hits), rule, i - 1) == RawRow(bars, Events(bars, hits), rule, i - 1)
    ensures OverrideRow(more, Events(more, hits), rule, i) == OverrideRow(bars, Events(bars, hits), rule, i)
  {
    var later := EventsAppend(bars, more, hits);
    RawRowCausal(bars, more, Events(bars, hits), later, rule, i);
  }

  lemma EventWeightsCausal(today: Tables, yesterday: Tables, rule: Rule, hits: seq<BarRow> -> seq<string>, kind: Hedge,
                           live: seq<BarRow> -> set<string>)
    requires Extends(today, yesterday)
    ensures forall r :: 0 <= r <= |yesterday.bars| - 3 ==>
              EventWeights(today, rule, hits, kind, live)[r] == EventWeights(yesterday, rule, hits, kind, live)[r]
  {
    hide Hedged, Capped, RawRow, Events;
    forall r | 0 <= r <= |yesterday.bars| - 3
      ensures EventWeights(today, rule, hits, kind, live)[r] == EventWeights(yesterday, rule, hits, kind, live)[r]
    {
      EventRowsCausal(yesterday.bars, today.bars, rule, hits, r + 1);
      assert r + 1 - 1 == r;
      assert today.bars[..r + 1] == yesterday.bars[..r + 1];
    }
  }

  lemma EventOverrideCausal(today: Tables, yesterday: Tables, rule: Rule, hits: seq<BarRow> -> seq<string>, i: nat)
    requires Extends(today, yesterday) && i <= |yesterday.bars| - 2
    ensures RowAt(EventOverride(today, rule, hits), i) == RowAt(EventOverride(yesterday, rule, hits), i)
  {
    EventRowsCausal(yesterday.bars, today.bars, rule, hits, i);
  }

  // ---------------------------------------------------------------- the volatility target

  function RankRow(t: Tables, signal: (seq<BarRow>, seq<Row>) -> Row, r: nat): Row
    requires Sound(t) && r < |t.bars|
  {
    signal(t.bars[..r + 1], t.funding[..r + 1])
  }

  function Carried(row: Row, bars: BarRow, next: BarRow): string -> real {
    s => Cell(row, s) * OpenToOpen(bars, next, s)
  }

  /** The unscaled book's returns on the first n days. */
  ghost function Port(t: Tables, signal: (seq<BarRow>, seq<Row>) -> Row, n: nat): seq<real>
    requires Sound(t) && n <= |t.bars|
  {
    if n == 0 then []
    else
      var i := n - 1;
      var row := if i == 0 then map[] else RankRow(t, signal, i - 1);
      Port(t, signal, i) + [SumOver(row.Keys, Carried(row, t.bars[i], RowAt(t.bars, i + 1)))]
  }

  /** The unscaled rank book, one row a day. */
  function RankRows(t: Tables, signal: (seq<BarRow>, seq<Row>) -> Row): (w: seq<Row>)
    requires Sound(t)
    ensures |w| == |t.bars|
  {
    seq(|t.bars|, r requires 0 <= r < |t.bars| => RankRow(t, signal, r))
  }

  /** The returns the volatility target reads are what the engine's gross profit of the unscaled book is on every day on
      which no held symbol has its last bar. */
  lemma PortIsGross(t: Tables, signal: (seq<BarRow>, seq<Row>) -> Row, n: nat, i: nat)
    requires Sound(t) && i < n <= |t.bars|
    requires var v := DayView(RankRows(t, signal), t.bars, t.funding, [], i);
      forall s :: Ends(v, s) ==> Cell(v.held, s) == 0.0
    ensures |Port(t, signal, n)| == n
    ensures Port(t, signal, n)[i] == Sum(Gross, DayView(RankRows(t, signal), t.bars, t.funding, [], i))
  {
    PortAt(t, signal, n, i);
    CarriedIsGross(DayView(RankRows(t, signal), t.bars, t.funding, [], i));
  }

  /** The return of day i is that of the row decided the day before. */
  lemma {:induction false} PortAt(t: Tables, signal: (seq<BarRow>, seq<Row>) -> Row, n: nat, i: nat)
    requires Sound(t) && i < n <= |t.bars|
    ensures |Port(t, signal, n)| == n
    ensures var row := RowAt(RankRows(t, signal), i - 1);
      Port(t, signal, n)[i] == SumOver(row.Keys, Carried(row, t.bars[i], RowAt(t.bars, i + 1)))
  {
    hide RankRow, SumOver, Carried;
    if i < n - 1 {
      PortAt(t, signal, n - 1, i);
    } else if n > 1 {
      PortAt(t, signal, n - 1, n - 2);
    }
  }

  lemma CarriedIsGross(v: View)
    requires forall s :: Ends(v, s) ==> Cell(v.held, s) == 0.0
    ensures SumOver(v.held.Keys, Carried(v.held, v.bars, v.next)) == Sum(Gross, v)
  {
    assert forall s :: CellsOf(Gross, v)(s) == Carried(v.held, v.bars, v.next)(s);
    assert forall s :: s !in v.held ==> CellsOf(Gross, v)(s) == 0.0;
    SumOverSupport(v.held.Keys, Columns(v), CellsOf(Gross, v));
    SumOverSame(v.held.Keys, Carried(v.held, v.bars, v.next), CellsOf(Gross, v));
  }

  const SCALE_CAP := 10.0
  const GROSS_CAP: Price := 3.0

  /** bt.vol_target: the scale of row r reads the returns before r. */
  function VolScale(past: seq<real>, target: real, deviation: seq<real> -> Option<real>): real {
    match deviation(past)
    case None => 0.0
    case Some(v) => if v > 0.0 then MinReal(target / v, SCALE_CAP) else SCALE_CAP
  }

  /** The scale is zero without a deviation, at most ten, and below ten it brings the deviation to the target. */
  lemma VolScaleMeaning(past: seq<real>, target: real, deviation: seq<real> -> Option<real>)
    requires target >= 0.0 && (deviation(past).Some? ==> deviation(past).value >= 0.0)
    ensures 0.0 <= VolScale(past, target, deviation) <= 10.0
    ensures deviation(past).None? ==> VolScale(past, target, deviation) == 0.0
    ensures deviation(past).Some? ==>
              var risk := Times(VolScale(past, target, deviation), deviation(past).value);
              risk <= target && (VolScale(past, target, deviation) < 10.0 ==> risk == target)
  {
    if deviation(past).Some? && deviation(past).value > 0.0 {
      Quotient(target, deviation(past).value, SCALE_CAP);
    }
  }

  function Scaled(row: Row, k: real): Row { map s | s in row :: row[s] * k }

  ghost function RankWeights(t: Tables, signal: (seq<BarRow>, seq<Row>) -> Row, target: real,
                             deviation: seq<real> -> Option<real>): (w: seq<Row>)
    requires Sound(t)
    ensures |w| == |t.bars|
  {
    seq(|t.bars|, r requires 0 <= r < |t.bars| =>
      Capped(Scaled(RankRow(t, signal, r), VolScale(Port(t, signal, r), target, deviation)), GROSS_CAP))
  }

  lemma {:induction false} PortCausal(today: Tables, yesterday: Tables, signal: (seq<BarRow>, seq<Row>) -> Row, n: nat)
    requires Extends(today, yesterday) && n <= |yesterday.bars| - 1
    ensures Port(today, signal, n) == Port(yesterday, signal, n)
  {
    if n != 0 {
      PortCausal(today, yesterday, signal, n - 1);
      if n >= 2 {
        RankRowCausal(today, yesterday, signal, n - 2);
      }
      assert RowAt(today.bars, n) == RowAt(yesterday.bars, n) && today.bars[n - 1] == yesterday.bars[n - 1];
    }
  }

  lemma RankRowCausal(today: Tables, yesterday: Tables, signal: (seq<BarRow>, seq<Row>) -> Row, r: nat)
    requires Extends(today, yesterday) && r <= |yesterday.bars| - 2
    ensures RankRow(today, signal, r) == RankRow(yesterday, signal, r)
  {
    assert today.bars[..r + 1] == yesterday.bars[..r + 1];
    assert today.funding[..r + 1] == yesterday.funding[..|yesterday.bars| - 1][..r + 1] == yesterday.funding[..r + 1];
  }

  lemma RankWeightsCausal(today: Tables, yesterday: Tables, signal: (seq<BarRow>, seq<Row>) -> Row, target: real,
                          deviation: seq<real> -> Option<real>)
    requires Extends(today, yesterday)
    ensures forall r :: 0 <= r <= |yesterday.bars| - 3 ==>
              RankWeights(today, signal, target, deviation)[r] == RankWeights(yesterday, signal, target, deviation)[r]
  {
    forall r | 0 <= r <= |yesterday.bars| - 3
      ensures RankWeights(today, signal, target, deviation)[r] == RankWeights(yesterday, signal, target, deviation)[r]
    {
      PortCausal(today, yesterday, signal, r);
      RankRowCausal(today, yesterday, signal, r);
    }
  }

  // ---------------------------------------------------------------- profit of the final days

  /** The trailing medians by day, each a function of the bars up to it. */
  function Medians(bars: seq<BarRow>, median: seq<BarRow> -> Row): (r: seq<Row>)
    ensures |r| == |bars|
  {
    seq(|bars|, i requires 0 <= i < |bars| => median(bars[..i + 1]))
  }

  ghost function SleeveDay(t: Tables, s: Sleeve, median: seq<BarRow> -> Row, day: nat): real
    requires Sound(t)
  {
    var medians := Medians(t.bars, median);
    match s
    case EventSleeve(rule, hits, hedge, live) =>
      RunDayOverridden(EventWeights(t, rule, hits, hedge, live), EventOverride(t, rule, hits), t.bars, t.funding, medians, day)
    case RankSleeve(signal, target, deviation) =>
      RunDay(RankWeights(t, signal, target, deviation), t.bars, t.funding, medians, 1.0, day)
  }

  /** The profit of day d needs the open of d + 1: every day but the last one is final. */
  ghost function SleevePnl(t: Tables, s: Sleeve, median: seq<BarRow> -> Row): (r: seq<real>)
    requires Sound(t)
    ensures |r| == |t.bars| - 1
  {
    seq(|t.bars| - 1, d requires 0 <= d < |t.bars| - 1 => SleeveDay(t, s, median, d))
  }

  /** A day of an event sleeve: the row decided the day before, capped and hedged, earns the day's prices, with the stop
      returns of the events that stop on it in place of theirs (and the last move where one stops on its last bar). */
  lemma EventDay(t: Tables, rule: Rule, hits: seq<BarRow> -> seq<string>, kind: Hedge, live: seq<BarRow> -> set<string>,
                 median: seq<BarRow> -> Row, d: nat) returns (v: View, stops: Row)
    requires Sound(t) && 1 <= d < |t.bars| - 1
    ensures SleevePnl(t, EventSleeve(rule, hits, kind, live), median)[d] ==
            Substituted(v, stops) + SumOver(stops.Keys, LastMove(v, stops))
    ensures v.held == Hedged(Capped(RawRow(t.bars, Events(t.bars, hits), rule, d - 1), rule.grossCap), live(t.bars[..d]), kind)
    ensures v.bars == t.bars[d] && v.next == t.bars[d + 1] && v.rates == t.funding[d]
    ensures stops == OverrideRow(t.bars, Events(t.bars, hits), rule, d)
    ensures forall s :: s in v.held ==> s in v.slip && v.slip[s] == Slippage(median(t.bars[..d]), s)
  {
    var w := EventWeights(t, rule, hits, kind, live);
    v := DayView(w, t.bars, t.funding, Medians(t.bars, median), d);
    stops := RowAt(EventOverride(t, rule, hits), d);
    hide Hedged, Capped, RawRow, Events, OverrideRow, Substituted, LastMove, OverriddenPnl;
    OverrideSubstitutes(v, stops);
    assert t.bars[..d - 1 + 1] == t.bars[..d];
  }

  lemma ViewCausal(today: Tables, yesterday: Tables, w: seq<Row>, v: seq<Row>, median: seq<BarRow> -> Row, d: nat)
    requires Extends(today, yesterday) && d <= |yesterday.bars| - 2
    requires |w| == |today.bars| && |v| == |yesterday.bars|
    requires forall r :: 0 <= r <= |yesterday.bars| - 3 ==> w[r] == v[r]
    ensures DayView(w, today.bars, today.funding, Medians(today.bars, median), d) ==
            DayView(v, yesterday.bars, yesterday.funding, Medians(yesterday.bars, median), d)
  {
    assert RowAt(w, d - 1) == RowAt(v, d - 1) && RowAt(w, d - 2) == RowAt(v, d - 2);
    assert today.funding[d] == yesterday.funding[..|yesterday.bars| - 1][d] == yesterday.funding[d];
    if d >= 1 {
      assert today.bars[..d] == yesterday.bars[..d];
      assert Medians(today.bars, median)[d - 1] == Medians(yesterday.bars, median)[d - 1];
    }
  }

  /** No look-ahead: the profit of an already final day is recomputed unchanged from extended tables. */
  lemma SleevePnlStable(today: Tables, yesterday: Tables, s: Sleeve, median: seq<BarRow> -> Row)
    requires Extends(today, yesterday)
    ensures SleevePnl(yesterday, s, median) <= SleevePnl(today, s, median)
  {
    forall d | 0 <= d < |yesterday.bars| - 1
      ensures SleeveDay(today, s, median, d) == SleeveDay(yesterday, s, median, d)
    {
      match s
      case EventSleeve(rule, hits, hedge, live) =>
        EventWeightsCausal(today, yesterday, rule, hits, hedge, live);
        ViewCausal(today, yesterday, EventWeights(today, rule, hits, hedge, live),
                   EventWeights(yesterday, rule, hits, hedge, live), median, d);
        EventOverrideCausal(today, yesterday, rule, hits, d);
      case RankSleeve(signal, target, deviation) =>
        RankWeightsCausal(today, yesterday, signal, target, deviation);
        ViewCausal(today, yesterday, RankWeights(today, signal, target, deviation),
                   RankWeights(yesterday, signal, target, deviation), median, d);
    }
  }

  // ---------------------------------------------------------------- the equal-risk base series

  /** combo.unit_vol: a day's profit per unit of the volatility known the day before. */
  function Unit(pnl: seq<real>, vol: Vol, d: nat): Option<real>
    requires d < |pnl|
  {
    var v := vol(pnl[..d]);
    if v.Some? && v.value > 0.01 then Some(pnl[d] / v.value) else None
  }

  /** The units of day d that exist, over the sleeves. */
  function Units(pnls: seq<seq<real>>, vol: Vol, d: nat): seq<real>
    requires forall k :: 0 <= k < |pnls| ==> d < |pnls[k]|
  {
    if pnls == [] then []
    else
      var n := |pnls| - 1;
      var u := Unit(pnls[n], vol, d);
      Units(pnls[..n], vol, d) + if u.Some? then [u.value] else []
  }

  function Identity(): real -> real { x => x }

  /** The first n days of the base series, from row first on: days without any unit are dropped. */
  function Base(pnls: seq<seq<real>>, vol: Vol, first: nat, n: nat): seq<Day>
    requires forall k :: 0 <= k < |pnls| ==> n <= |pnls[k]|
  {
    if n == 0 then []
    else
      var units := Units(pnls, vol, n - 1);
      Base(pnls, vol, first, n - 1) +
      if n - 1 >= first && units != [] then [Day(n - 1, SumBy(units, Identity()) / |units| as real)] else []
  }

  /** The sleeves with a usable volatility the day before. */
  function Trading(pnls: seq<seq<real>>, vol: Vol, d: nat): set<nat>
    requires forall k :: 0 <= k < |pnls| ==> d < |pnls[k]|
  {
    set k: nat | k < |pnls| && vol(pnls[k][..d]).Some? && vol(pnls[k][..d]).value > 0.01
  }

  /** A sleeve's profit of the day over its volatility. */
  function PerRisk(pnls: seq<seq<real>>, vol: Vol, d: nat): nat -> real
    requires forall k :: 0 <= k < |pnls| ==> d < |pnls[k]|
  {
    (k: nat) => if k in Trading(pnls, vol, d) then pnls[k][d] / vol(pnls[k][..d]).value else 0.0
  }

  lemma LastSleeve(pnls: seq<seq<real>>, vol: Vol, d: nat)
    requires pnls != [] && forall k :: 0 <= k < |pnls| ==> d < |pnls[k]|
    ensures var n, s, u := |pnls| - 1, Trading(pnls, vol, d), Unit(pnls[|pnls| - 1], vol, d);
      && Trading(pnls[..n], vol, d) == s - {n}
      && (u.Some? <==> n in s) && (u.Some? ==> PerRisk(pnls, vol, d)(n) == u.value)
      && forall k :: k in s - {n} ==> PerRisk(pnls[..n], vol, d)(k) == PerRisk(pnls, vol, d)(k)
  {
    var n := |pnls| - 1;
    assert forall k :: 0 <= k < n ==> pnls[..n][k] == pnls[k];
  }

  lemma {:induction false} UnitsSum(pnls: seq<seq<real>>, vol: Vol, d: nat)
    requires forall k :: 0 <= k < |pnls| ==> d < |pnls[k]|
    ensures |Units(pnls, vol, d)| == |Trading(pnls, vol, d)|
    ensures SumBy(Units(pnls, vol, d), Identity()) == SumOver(Trading(pnls, vol, d), PerRisk(pnls, vol, d))
  {
    if pnls == [] {
      assert Trading(pnls, vol, d) == {};
    } else {
      hide Trading, PerRisk, Unit, SumBy, SumOver;
      var n := |pnls| - 1;
      var s, f := Trading(pnls, vol, d), PerRisk(pnls, vol, d);
      UnitsSum(pnls[..n], vol, d);
      LastSleeve(pnls, vol, d);
      SumOverSame(s - {n}, PerRisk(pnls[..n], vol, d), f);
      OneMoreUnit(Units(pnls[..n], vol, d), s, n, f);
    }
  }

  lemma OneMoreUnit(units: seq<real>, s: set<nat>, n: nat, f: nat -> real)
    requires |units| == |s - {n}| && SumBy(units, Identity()) == SumOver(s - {n}, f)
    ensures var more := units + if n in s then [f(n)] else [];
      |more| == |s| && SumBy(more, Identity()) == SumOver(s, f)
  {
    hide SumBy, SumOver;
    if n in s {
      SumOverRemove(s, n, f);
      SumSnoc(units, f(n), Identity());
    } else {
      assert s - {n} == s && units + [] == units;
    }
  }

  /** What the base series holds: exactly the days from row first on with a trading sleeve, each with the mean over the
      trading sleeves of their profit per unit of risk. */
  lemma {:induction false} BaseMeaning(pnls: seq<seq<real>>, vol: Vol, first: nat, n: nat, x: Day)
    requires forall k :: 0 <= k < |pnls| ==> n <= |pnls[k]|
    ensures x in Base(pnls, vol, first, n) <==>
              first <= x.row < n && Trading(pnls, vol, x.row) != {} &&
              Times(x.value, |Trading(pnls, vol, x.row)| as real) ==
                SumOver(Trading(pnls, vol, x.row), PerRisk(pnls, vol, x.row))
  {
    hide Units, Trading, PerRisk, SumOver, SumBy;
    if n != 0 {
      BaseMeaning(pnls, vol, first, n - 1, x);
      UnitsSum(pnls, vol, n - 1);
      MeanTimes(SumBy(Units(pnls, vol, n - 1), Identity()), |Units(pnls, vol, n - 1)|, x.value);
    }
  }

  lemma MeanTimes(sum: real, count: nat, x: real)
    ensures count > 0 ==> (x == sum / count as real <==> Times(x, count as real) == sum)
  {
  }

  lemma {:induction false} BaseInOrder(pnls: seq<seq<real>>, vol: Vol, first: nat, n: nat)
    requires forall k :: 0 <= k < |pnls| ==> n <= |pnls[k]|
    ensures InOrder(Base(pnls, vol, first, n))
    ensures forall i :: 0 <= i < |Base(pnls, vol, first, n)| ==> first <= Base(pnls, vol, first, n)[i].row < n
  {
    if n != 0 {
      BaseInOrder(pnls, vol, first, n - 1);
    }
  }

  predicate SamePrefixes(pnls: seq<seq<real>>, more: seq<seq<real>>, n: nat) {
    |pnls| == |more| && forall k :: 0 <= k < |pnls| ==> n <= |pnls[k]| && n <= |more[k]| && pnls[k][..n] == more[k][..n]
  }

  lemma {:induction false} UnitsSame(pnls: seq<seq<real>>, more: seq<seq<real>>, vol: Vol, d: nat)
    requires SamePrefixes(pnls, more, d + 1)
    ensures Units(more, vol, d) == Units(pnls, vol, d)
  {
    if pnls != [] {
      var n := |pnls| - 1;
      UnitsSame(pnls[..n], more[..n], vol, d);
      var p, q := pnls[n][..d + 1], more[n][..d + 1];
      assert pnls[n][..d] == p[..d] && more[n][..d] == q[..d] && pnls[n][d] == p[d] && more[n][d] == q[d];
    }
  }

  lemma {:induction false} BaseSame(pnls: seq<seq<real>>, more: seq<seq<real>>, vol: Vol, first: nat, n: nat)
    requires SamePrefixes(pnls, more, n)
    ensures Base(pnls, vol, first, n) == Base(more, vol, first, n)
  {
    if n != 0 {
      forall k | 0 <= k < |pnls| ensures pnls[k][..n - 1] == more[k][..n - 1] {
        assert pnls[k][..n - 1] == pnls[k][..n][..n - 1] && more[k][..n - 1] == more[k][..n][..n - 1];
      }
      BaseSame(pnls, more, vol, first, n - 1);
      UnitsSame(pnls, more, vol, n - 1);
    }
  }

  lemma {:induction false} BaseGrows(pnls: seq<seq<real>>, vol: Vol, first: nat, n: nat, m: nat)
    requires n <= m && forall k :: 0 <= k < |pnls| ==> m <= |pnls[k]|
    ensures Base(pnls, vol, first, n) <= Base(pnls, vol, first, m)
  {
    if n < m {
      BaseGrows(pnls, vol, first, n, m - 1);
    }
  }

  lemma BaseExtends(pnls: seq<seq<real>>, more: seq<seq<real>>, vol: Vol, first: nat, n: nat, m: nat)
    requires SamePrefixes(pnls, more, n) && n <= m && forall k :: 0 <= k < |more| ==> m <= |more[k]|
    ensures Base(pnls, vol, first, n) <= Base(more, vol, first, m)
  {
    BaseSame(pnls, more, vol, first, n);
    BaseGrows(more, vol, first, n, m);
  }
}
