/** The event book of bt_listing.listing_book and its hedge (research/strategy_search/bt_listing.py:32-89). */
module Listing {
  import opened Lists
  import opened Sums
  import opened Engine

  const STOP_SLIPPAGE := 0.005

  /** A symbol and the row of its event. */
  datatype Event = Event(symbol: string, listed: nat)

  /** The parameters of a book; median is the library's median of the non-empty cells, None for no cells. */
  datatype Rule = Rule(
    delay: nat, hold: nat, stop: Option<real>, size: real, grossCap: Price, minVolume: real, side: int,
    median: seq<real> -> Option<real>)

  function Volumes(bars: seq<BarRow>, s: string): seq<real> {
    if bars == [] then []
    else
      var last := bars[|bars| - 1];
      Volumes(bars[..|bars| - 1], s) + if s in last then [last[s].volume] else []
  }

  /** Enough liquidity in the bars from the event to the decision, and a bar to enter on. */
  predicate Tradable(bars: seq<BarRow>, rule: Rule, e: Event)
    requires e.listed + rule.delay < |bars|
  {
    var start := e.listed + rule.delay;
    var seen := if rule.delay == 0 then None else rule.median(Volumes(bars[e.listed..start], e.symbol));
    seen.Some? && seen.value >= rule.minVolume && e.symbol in bars[start]
  }

  function Entry(bars: seq<BarRow>, rule: Rule, e: Event): Price
    requires e.listed + rule.delay < |bars| && e.symbol in bars[e.listed + rule.delay]
  {
    bars[e.listed + rule.delay][e.symbol].open
  }

  /** The day's high (short) or low (long) reaches the stop. */
  predicate StopHit(bar: Bar, entry: Price, rule: Rule) {
    rule.stop.Some? &&
    ((rule.side < 0 && bar.high >= Times(entry, 1.0 + rule.stop.value)) ||
     (rule.side > 0 && bar.low <= Times(entry, 1.0 - rule.stop.value)))
  }

  function StopReturn(bar: Bar, entry: Price, rule: Rule): real
    requires rule.stop.Some?
  {
    var fill := if rule.side < 0 then Times(MaxReal(bar.open, Times(entry, 1.0 + rule.stop.value)), 1.0 + STOP_SLIPPAGE)
                else Times(MinReal(bar.open, Times(entry, 1.0 - rule.stop.value)), 1.0 - STOP_SLIPPAGE);
    fill / bar.open - 1.0
  }

  /** The event's trade is on during day i: admitted, not timed out before the last two bars, never without a bar
      so far, and not stopped on an earlier day. */
  predicate HeldOn(bars: seq<BarRow>, rule: Rule, e: Event, i: int) {
    var start := e.listed + rule.delay;
    && start < |bars| - 1 && Tradable(bars, rule, e)
    && start <= i <= MinInt(start + rule.hold - 1, |bars| - 2)
    && (forall j :: start <= j <= i ==> e.symbol in bars[j])
    && (forall j :: start <= j < i ==> !StopHit(bars[j][e.symbol], Entry(bars, rule, e), rule))
  }

  predicate StopsOn(bars: seq<BarRow>, rule: Rule, e: Event, i: int) {
    HeldOn(bars, rule, e, i) && StopHit(bars[i][e.symbol], Entry(bars, rule, e), rule)
  }

  /** The bar's high of a short, or low of a long, is a loss of at least the stop's share of the entry. */
  predicate Losing(bar: Bar, entry: Price, rule: Rule) {
    rule.stop.Some? &&
    var limit := Times(entry, rule.stop.value);
    ((rule.side < 0 && limit <= bar.high as real - entry as real) || (rule.side > 0 && limit <= entry as real - bar.low as real))
  }

  lemma StopIsLoss(bar: Bar, entry: Price, rule: Rule)
    ensures StopHit(bar, entry, rule) <==> Losing(bar, entry, rule)
  {
    if rule.stop.Some? {
      assert Times(entry, 1.0 + rule.stop.value) == entry as real + Times(entry, rule.stop.value);
      assert Times(entry, 1.0 - rule.stop.value) == entry as real - Times(entry, rule.stop.value);
    }
  }

  /** When an event is held: from its delay on for at most its holding time, never on the last bar of the table, with
      enough volume between the event and the decision, a bar on every day so far, and no losing day before. */
  lemma HeldMeaning(bars: seq<BarRow>, rule: Rule, e: Event, i: int)
    ensures HeldOn(bars, rule, e, i) <==>
              var start := e.listed + rule.delay;
              && start <= i <= |bars| - 2 && i < start + rule.hold && rule.delay > 0
              && var seen := rule.median(Volumes(bars[e.listed..start], e.symbol));
              && seen.Some? && rule.minVolume <= seen.value
              && (forall j :: start <= j <= i ==> e.symbol in bars[j])
              && forall j :: start <= j < i ==> !Losing(bars[j][e.symbol], bars[start][e.symbol].open, rule)
  {
    var start := e.listed + rule.delay;
    hide StopHit, Losing, Volumes;
    if start <= i <= |bars| - 2 && forall j :: start <= j <= i ==> e.symbol in bars[j] {
      forall j | start <= j < i
        ensures StopHit(bars[j][e.symbol], Entry(bars, rule, e), rule) <==>
                Losing(bars[j][e.symbol], bars[start][e.symbol].open, rule)
      {
        StopIsLoss(bars[j][e.symbol], Entry(bars, rule, e), rule);
      }
    }
  }

  function Position(rule: Rule): real { rule.side as real * rule.size }

  /** The weights decided at the close of row r: every symbol some event holds on day r + 1. */
  function RawRow(bars: seq<BarRow>, events: seq<Event>, rule: Rule, r: int): Row {
    if events == [] then map[]
    else
      var e := events[|events| - 1];
      var before := RawRow(bars, events[..|events| - 1], rule, r);
      if HeldOn(bars, rule, e, r + 1) then before[e.symbol := Position(rule)] else before
  }

  /** The stop returns of day i; a later event of one symbol overwrites an earlier one. */
  function OverrideRow(bars: seq<BarRow>, events: seq<Event>, rule: Rule, i: int): Row {
    if events == [] then map[]
    else
      var e := events[|events| - 1];
      var before := OverrideRow(bars, events[..|events| - 1], rule, i);
      if StopsOn(bars, rule, e, i) then before[e.symbol := StopReturn(bars[i][e.symbol], Entry(bars, rule, e), rule)]
      else before
  }

  function AbsCell(row: Row): string -> real { s => Abs(Cell(row, s)) }

  /** Scale a row down evenly when its gross exceeds the cap. */
  ghost function Capped(row: Row, cap: Price): Row {
    var over := MaxReal(SumOver(row.Keys, AbsCell(row)) / cap, 1.0);
    map s | s in row :: row[s] / over
  }

  ghost function GrossOf(row: Row): real { SumOver(row.Keys, AbsCell(row)) }

  /** Capping keeps every symbol, every sign and every ratio between weights; a row within the cap stays as it is, and a
      row above it ends at the cap. */
  lemma CappedMeaning(row: Row, cap: Price)
    ensures var r := Capped(row, cap);
      && r.Keys == row.Keys && GrossOf(r) <= cap
      && (GrossOf(row) <= cap ==> r == row)
      && (GrossOf(row) > cap ==> GrossOf(r) == cap)
      && (forall s :: s in row ==> (r[s] > 0.0 <==> row[s] > 0.0) && (r[s] < 0.0 <==> row[s] < 0.0))
      && forall s, t :: s in row && t in row ==> r[s] * row[t] == r[t] * row[s]
  {
    hide Capped, GrossOf;
    CappedGross(row, cap);
    forall s | s in row ensures var r := Capped(row, cap);
      s in r && (r[s] > 0.0 <==> row[s] > 0.0) && (r[s] < 0.0 <==> row[s] < 0.0)
    {
      CappedCell(row, cap, s);
    }
    forall s, t | s in row && t in row ensures var r := Capped(row, cap); r[s] * row[t] == r[t] * row[s] {
      CappedCell(row, cap, s);
      CappedCell(row, cap, t);
      SameRatio(Capped(row, cap)[s], Capped(row, cap)[t], OverOf(row, cap));
    }
  }

  /** How many times the cap a row is, and at least once. */
  ghost function OverOf(row: Row, cap: Price): real { MaxReal(GrossOf(row) / cap, 1.0) }

  lemma CappedCell(row: Row, cap: Price, s: string)
    requires s in row
    ensures var r := Capped(row, cap);
      && r.Keys == row.Keys && row[s] == Times(r[s], OverOf(row, cap))
      && AbsCell(row)(s) == Times(AbsCell(r)(s), OverOf(row, cap))
      && (r[s] > 0.0 <==> row[s] > 0.0) && (r[s] < 0.0 <==> row[s] < 0.0)
      && (OverOf(row, cap) == 1.0 ==> r[s] == row[s])
  {
    assert Capped(row, cap).Keys == row.Keys;
    hide SumOver;
    Divided(row[s], OverOf(row, cap));
  }

  lemma CappedGross(row: Row, cap: Price)
    ensures var r := Capped(row, cap);
      && r.Keys == row.Keys && GrossOf(r) <= cap
      && (GrossOf(row) <= cap ==> r == row)
      && (GrossOf(row) > cap ==> GrossOf(r) == cap)
  {
    var r, over := Capped(row, cap), OverOf(row, cap);
    assert r.Keys == row.Keys;
    hide Capped, AbsCell, SumOver;
    forall s | s in row.Keys
      ensures AbsCell(row)(s) == Times(AbsCell(r)(s), over) && (over == 1.0 ==> r[s] == row[s])
    {
      CappedCell(row, cap, s);
    }
    SumOverTimes(row.Keys, AbsCell(row), AbsCell(r), over);
    CapReached(GrossOf(row), GrossOf(r), cap, over);
  }

  lemma Divided(x: real, k: real)
    requires k >= 1.0
    ensures x == Times(x / k, k) && Abs(x) == Times(Abs(x / k), k)
    ensures (x / k > 0.0 <==> x > 0.0) && (x / k < 0.0 <==> x < 0.0)
  {
    assert x / k * k == x;
  }

  lemma CapReached(gross: real, capped: real, cap: Price, over: real)
    requires gross == Times(capped, over) && over == MaxReal(gross / cap, 1.0)
    ensures gross <= cap ==> over == 1.0 && capped == gross
    ensures gross > cap ==> capped == cap
  {
    var share := gross / cap;
    assert share * cap == gross;
    if gross > cap {
      assert share > 1.0;
      assert capped * share == cap * share;
    } else {
      assert share <= 1.0;
    }
  }

  lemma SameRatio(x: real, y: real, k: real)
    ensures x * Times(y, k) == y * Times(x, k)
  {
  }

  lemma {:induction false} RawRowMeaning(bars: seq<BarRow>, events: seq<Event>, rule: Rule, r: int)
    ensures forall s :: s in RawRow(bars, events, rule, r) <==>
              exists e :: e in events && e.symbol == s && HeldOn(bars, rule, e, r + 1)
    ensures forall s :: s in RawRow(bars, events, rule, r) ==> RawRow(bars, events, rule, r)[s] == Position(rule)
  {
    if events != [] {
      var n := |events| - 1;
      RawRowMeaning(bars, events[..n], rule, r);
      assert events == events[..n] + [events[n]];
    }
  }

  /** Event k stops on day i, and no later event of its symbol does. */
  predicate LastStop(bars: seq<BarRow>, events: seq<Event>, rule: Rule, i: int, s: string, k: int) {
    0 <= k < |events| && events[k].symbol == s && StopsOn(bars, rule, events[k], i)
    && forall j :: k < j < |events| && events[j].symbol == s ==> !StopsOn(bars, rule, events[j], i)
  }

  /** A symbol has a stop return on exactly the days some event of it stops, and it is that of the last such event. */
  lemma {:induction false} OverrideRowMeaning(bars: seq<BarRow>, events: seq<Event>, rule: Rule, i: int, s: string)
    ensures s in OverrideRow(bars, events, rule, i) <==> exists k :: LastStop(bars, events, rule, i, s, k)
    ensures forall k :: LastStop(bars, events, rule, i, s, k) && s in OverrideRow(bars, events, rule, i) ==>
              (OverrideRow(bars, events, rule, i)[s] == StopReturn(bars[i][s], Entry(bars, rule, events[k]), rule))
  {
    if events != [] {
      hide StopsOn, StopReturn, Entry, LastStop;
      var n := |events| - 1;
      OverrideRowMeaning(bars, events[..n], rule, i, s);
      forall k ensures LastStop(bars, events, rule, i, s, k) <==>
        if events[n].symbol == s && StopsOn(bars, rule, events[n], i) then k == n
        else LastStop(bars, events[..n], rule, i, s, k)
        ensures LastStop(bars, events[..n], rule, i, s, k) ==> 0 <= k < n && events[..n][k] == events[k]
      {
        LastStopSnoc(bars, events, rule, i, s, k);
      }
    }
  }

  lemma LastStopSnoc(bars: seq<BarRow>, events: seq<Event>, rule: Rule, i: int, s: string, k: int)
    requires events != []
    ensures var n := |events| - 1;
      LastStop(bars, events, rule, i, s, k) <==>
      if events[n].symbol == s && StopsOn(bars, rule, events[n], i) then k == n
      else LastStop(bars, events[..n], rule, i, s, k)
    ensures LastStop(bars, events[..|events| - 1], rule, i, s, k) ==> 0 <= k < |events| - 1
  {
    hide StopsOn;
    var n := |events| - 1;
    assert forall j :: 0 <= j < n ==> events[..n][j] == events[j];
  }

  // ---------------------------------------------------------------- the loops

  /** listing_book: one event after another writes its weights and its stop. */
  method ListingBook(bars: seq<BarRow>, events: seq<Event>, rule: Rule) returns (weights: seq<Row>, override: seq<Row>)
    requires forall e :: e in events ==> e.listed < |bars|
    ensures |weights| == |bars| == |override|
    ensures forall r :: 0 <= r < |bars| ==> weights[r] == Capped(RawRow(bars, events, rule, r), rule.grossCap)
    ensures forall r :: 0 <= r < |bars| ==> GrossOf(weights[r]) <= rule.grossCap
    ensures forall i :: 0 <= i < |bars| ==> override[i] == OverrideRow(bars, events, rule, i)
  {
    var raw: seq<Row> := seq(|bars|, _ => map[]);
    override := seq(|bars|, _ => map[]);
    for k := 0 to |events|
      invariant |raw| == |bars| == |override|
      invariant forall r :: 0 <= r < |bars| ==> raw[r] == RawRow(bars, events[..k], rule, r)
      invariant forall i :: 0 <= i < |bars| ==> override[i] == OverrideRow(bars, events[..k], rule, i)
    {
      assert events[..k + 1][..k] == events[..k];
      raw, override := BookEvent(bars, events[k], rule, raw, override);
    }
    assert events[..|events|] == events;
    weights := CapRows(raw, rule.grossCap);
  }

  method CapRows(raw: seq<Row>, cap: Price) returns (weights: seq<Row>)
    ensures |weights| == |raw|
    ensures forall r :: 0 <= r < |raw| ==> weights[r] == Capped(raw[r], cap) && GrossOf(weights[r]) <= cap
  {
    weights := [];
    for r := 0 to |raw|
      invariant |weights| == r
      invariant forall q :: 0 <= q < r ==> weights[q] == Capped(raw[q], cap) && GrossOf(weights[q]) <= cap
    {
      var row := CapRow(raw[r], cap);
      weights := weights + [row];
    }
  }

  /** The rows on which a trade held from start to end (exclusive) is written. */
  ghost predicate WeightsWritten(raw0: seq<Row>, raw: seq<Row>, s: string, w: real, start: int, end: int) {
    |raw| == |raw0| && forall r :: 0 <= r < |raw| ==> raw[r] == if start <= r + 1 < end then raw0[r][s := w] else raw0[r]
  }

  /** The scan of one trade has reached day i: a bar every day, and no stop before the last day scanned. */
  ghost predicate Scanned(bars: seq<BarRow>, rule: Rule, e: Event, i: int, stopped: bool) {
    var start := e.listed + rule.delay;
    && start < |bars| - 1 && Tradable(bars, rule, e)
    && start <= i <= MaxInt(MinInt(start + rule.hold - 1, |bars| - 2) + 1, start)
    && (forall j :: start <= j < i ==> e.symbol in bars[j])
    && (forall j :: start <= j < i - 1 ==> !StopHit(bars[j][e.symbol], Entry(bars, rule, e), rule))
    && (stopped <==> i > start && StopHit(bars[i - 1][e.symbol], Entry(bars, rule, e), rule))
  }

  /** Where the scan stops is where the trade ends. */
  lemma ScanMeaning(bars: seq<BarRow>, rule: Rule, e: Event, i: int, stopped: bool)
    requires Scanned(bars, rule, e, i, stopped)
    requires i > MinInt(e.listed + rule.delay + rule.hold - 1, |bars| - 2) || stopped || e.symbol !in bars[i]
    ensures forall j :: HeldOn(bars, rule, e, j) <==> e.listed + rule.delay <= j < i
    ensures forall j :: StopsOn(bars, rule, e, j) <==> stopped && j == i - 1
  {
    var start := e.listed + rule.delay;
    forall j ensures HeldOn(bars, rule, e, j) <==> start <= j < i {
      if stopped && j >= i {
        assert StopHit(bars[i - 1][e.symbol], Entry(bars, rule, e), rule);
      }
    }
    forall j ensures StopsOn(bars, rule, e, j) <==> stopped && j == i - 1 {
      if start <= j < i - 1 {
        assert !StopHit(bars[j][e.symbol], Entry(bars, rule, e), rule);
      }
    }
  }

  /** The stop test of one day, and the return that replaces the day's. */
  method StopOf(bar: Bar, entry: Price, rule: Rule) returns (hit: bool, ret: real)
    ensures hit <==> StopHit(bar, entry, rule)
    ensures hit ==> ret == StopReturn(bar, entry, rule)
  {
    hit, ret := false, 0.0;
    if rule.stop.None? {
      return;
    }
    if rule.side < 0 && bar.high >= Times(entry, 1.0 + rule.stop.value) {
      var fill := Times(MaxReal(bar.open, Times(entry, 1.0 + rule.stop.value)), 1.0 + STOP_SLIPPAGE);
      return true, fill / bar.open - 1.0;
    }
    if rule.side > 0 && bar.low <= Times(entry, 1.0 - rule.stop.value) {
      var fill := Times(MinReal(bar.open, Times(entry, 1.0 - rule.stop.value)), 1.0 - STOP_SLIPPAGE);
      return true, fill / bar.open - 1.0;
    }
  }

  lemma OverUnit(fill: real, open: real)
    requires open > 0.0
    ensures Times(1.0 + (fill / open - 1.0), open) == fill
  {
    assert fill / open * open == fill;
  }

  lemma Scaled(x: real, y: real, k: real)
    requires x <= y && k >= 0.0
    ensures Times(x, k) <= Times(y, k)
  {
  }

  /** The price implied by the return that replaces a stop day's. */
  function ImpliedFill(bar: Bar, entry: Price, rule: Rule): real
    requires rule.stop.Some?
  {
    Times(1.0 + StopReturn(bar, entry, rule), bar.open)
  }

  /** What a stop day costs: the implied fill is the worse of the day's open and the stop, and half a percent worse
      still. */
  lemma StopFill(bar: Bar, entry: Price, rule: Rule)
    requires rule.stop.Some?
    ensures rule.side < 0 ==>
      var fill := ImpliedFill(bar, entry, rule);
      var open, stop := Times(bar.open, 1.0 + STOP_SLIPPAGE), Times(Times(entry, 1.0 + rule.stop.value), 1.0 + STOP_SLIPPAGE);
      fill >= open && fill >= stop && (fill == open || fill == stop)
    ensures rule.side > 0 ==>
      var fill := ImpliedFill(bar, entry, rule);
      var open, stop := Times(bar.open, 1.0 - STOP_SLIPPAGE), Times(Times(entry, 1.0 - rule.stop.value), 1.0 - STOP_SLIPPAGE);
      fill <= open && fill <= stop && (fill == open || fill == stop)
  {
    hide Times;
    var up, down: real := Times(entry, 1.0 + rule.stop.value), Times(entry, 1.0 - rule.stop.value);
    var high, low := MaxReal(bar.open, up), MinReal(bar.open, down);
    OverUnit(Times(high, 1.0 + STOP_SLIPPAGE), bar.open);
    OverUnit(Times(low, 1.0 - STOP_SLIPPAGE), bar.open);
    Scaled(bar.open, high, 1.0 + STOP_SLIPPAGE);
    Scaled(up, high, 1.0 + STOP_SLIPPAGE);
    Scaled(low, bar.open, 1.0 - STOP_SLIPPAGE);
    Scaled(low, down, 1.0 - STOP_SLIPPAGE);
  }

  /** One event of the loop: from its first held day to its exit. */
  method BookEvent(bars: seq<BarRow>, e: Event, rule: Rule, raw0: seq<Row>, override0: seq<Row>)
    returns (raw: seq<Row>, override: seq<Row>)
    requires |raw0| == |bars| == |override0|
    ensures |raw| == |bars| == |override|
    ensures forall r :: 0 <= r < |bars| ==>
              raw[r] == if HeldOn(bars, rule, e, r + 1) then raw0[r][e.symbol := Position(rule)] else raw0[r]
    ensures forall i :: 0 <= i < |bars| ==>
              override[i] == if StopsOn(bars, rule, e, i)
                             then override0[i][e.symbol := StopReturn(bars[i][e.symbol], Entry(bars, rule, e), rule)]
                             else override0[i]
  {
    raw, override := raw0, override0;
    var start := e.listed + rule.delay;
    if start >= |bars| - 1 || !Tradable(bars, rule, e) {
      return;
    }
    var entry := Entry(bars, rule, e);
    var last := MinInt(start + rule.hold - 1, |bars| - 2);
    var i := start;
    var stopped := false;
    while i <= last && !stopped && e.symbol in bars[i]
      invariant Scanned(bars, rule, e, i, stopped)
      invariant WeightsWritten(raw0, raw, e.symbol, Position(rule), start, i)
      invariant override == if stopped
        then override0[i - 1 := override0[i - 1][e.symbol := StopReturn(bars[i - 1][e.symbol], entry, rule)]] else override0
      decreases last + 1 - i
    {
      raw := raw[i - 1 := raw[i - 1][e.symbol := Position(rule)]];
      var ret;
      stopped, ret := StopOf(bars[i][e.symbol], entry, rule);
      if stopped {
        override := override[i := override[i][e.symbol := ret]];
      }
      i := i + 1;
    }
    ScanMeaning(bars, rule, e, i, stopped);
  }

  method CapRow(row: Row, cap: Price) returns (r: Row)
    ensures r == Capped(row, cap)
    ensures r.Keys == row.Keys && GrossOf(r) == MinReal(GrossOf(row), cap)
    ensures GrossOf(row) <= cap ==> r == row
  {
    var gross := RowSum(row);
    var over := MaxReal(gross / cap, 1.0);
    r := map s | s in row :: row[s] / over;
    CappedMeaning(row, cap);
  }

  method RowSum(row: Row) returns (gross: real)
    ensures gross == SumOver(row.Keys, AbsCell(row))
  {
    gross := 0.0;
    var todo := row.Keys;
    while todo != {}
      invariant todo <= row.Keys
      invariant gross + SumOver(todo, AbsCell(row)) == SumOver(row.Keys, AbsCell(row))
      decreases todo
    {
      var s :| s in todo;
      SumOverRemove(todo, s, AbsCell(row));
      gross := gross + Abs(row[s]);
      todo := todo - {s};
    }
  }

  // ---------------------------------------------------------------- hedge

  datatype Hedge = NoHedge | Bitcoin | Basket

  const BTC := "BTCUSDT"

  function CellOf(row: Row): string -> real { s => Cell(row, s) }

  ghost function Net(row: Row): real { SumOver(row.Keys, CellOf(row)) }

  /** One row of hedge(): the opposite of the row's net notional goes to Bitcoin, or evenly to the live symbols the
      row does not hold (nowhere when there is none). */
  ghost function Hedged(row: Row, live: set<string>, kind: Hedge): Row {
    match kind
    case NoHedge => row
    case Bitcoin => row[BTC := Cell(row, BTC) - Net(row)]
    case Basket =>
      var basket := set s | s in live && Cell(row, s) == 0.0;
      map s | s in row.Keys + basket :: Cell(row, s) + if s in basket then Split(-Net(row), |basket|) else 0.0
  }

  /** An even share. */
  function Split(x: real, n: nat): real { if n == 0 then 0.0 else x / n as real }

  /** A Bitcoin hedge leaves no net notional. */
  lemma BitcoinHedged(row: Row, live: set<string>)
    ensures Net(Hedged(row, live, Bitcoin)) == 0.0
  {
    var hedged := Hedged(row, live, Bitcoin);
    var all := row.Keys + {BTC};
    assert hedged.Keys == all;
    SumOverSupport(row.Keys, all, CellOf(row));
    SumOverOne(all, BTC, AtBitcoin(-Net(row)));
    hide SumOver, Net;
    SumOverAdd(all, CellOf(row), AtBitcoin(-Net(row)), CellOf(hedged));
    NetOf(row);
    NetOf(hedged);
  }

  function AtBitcoin(v: real): string -> real { (s: string) => if s == BTC then v else 0.0 }

  lemma NetOf(row: Row)
    ensures Net(row) == SumOver(row.Keys, CellOf(row))
  {
  }

  /** The live symbols a row does not hold. */
  function Unheld(row: Row, live: set<string>): set<string> { set s | s in live && Cell(row, s) == 0.0 }

  /** A basket hedge leaves no net notional when a live symbol is not held, and the row as it is otherwise. */
  lemma BasketHedged(row: Row, live: set<string>)
    ensures Unheld(row, live) != {} ==> Net(Hedged(row, live, Basket)) == 0.0
    ensures Unheld(row, live) == {} ==> Hedged(row, live, Basket) == row
  {
    hide *;
    BasketCells(row, live);
    if Unheld(row, live) != {} {
      var n := |Unheld(row, live)|;
      Shares(-Net(row), n);
      SpreadNet(row, Unheld(row, live), n, Split(-Net(row), n), Hedged(row, live, Basket));
    }
  }

  /** A row with the same amount added to every symbol of the basket. */
  predicate Spreads(row: Row, basket: set<string>, v: real, hedged: Row) {
    && hedged.Keys == row.Keys + basket
    && forall s :: s in hedged ==> hedged[s] == Cell(row, s) + if s in basket then v else 0.0
  }

  lemma BasketCells(row: Row, live: set<string>)
    ensures Spreads(row, Unheld(row, live), Split(-Net(row), |Unheld(row, live)|), Hedged(row, live, Basket))
    ensures Unheld(row, live) == {} ==> Hedged(row, live, Basket) == row
  {
    hide Net, Split;
    var hedged, basket := Hedged(row, live, Basket), Unheld(row, live);
    assert basket == set s | s in live && Cell(row, s) == 0.0;
    assert hedged.Keys == row.Keys + basket;
  }

  lemma SpreadNet(row: Row, basket: set<string>, n: nat, v: real, hedged: Row)
    requires Spreads(row, basket, v, hedged) && |basket| == n
    ensures Net(hedged) == Net(row) + Times(n as real, v)
  {
    var all := row.Keys + basket;
    SumOverSupport(row.Keys, all, CellOf(row));
    SumOverSupport(basket, all, Spread(basket, v));
    EvenSum(basket, basket, v);
    NetOf(row);
    NetOf(hedged);
    hide SumOver, Net;
    SumOverAdd(all, CellOf(row), Spread(basket, v), CellOf(hedged));
  }

  function Spread(basket: set<string>, v: real): string -> real { (s: string) => if s in basket then v else 0.0 }

  lemma Shares(x: real, n: nat)
    requires n > 0
    ensures Times(n as real, Split(x, n)) == x
  {
  }

  lemma {:induction false} EvenSum(some: set<string>, basket: set<string>, v: real)
    requires some <= basket
    ensures SumOver(some, Spread(basket, v)) == Times(|some| as real, v)
  {
    if some != {} {
      var s :| s in some;
      EvenSum(some - {s}, basket, v);
      SumOverRemove(some, s, Spread(basket, v));
      TimesNext((|some| - 1) as real, v);
    }
  }

  // ---------------------------------------------------------------- a stop on a symbol's last bar

  const FIRST_BAR := Bar(100.0, 100.0, 100.0, 100.0, 1.0)
  const LAST_BAR := Bar(100.0, 200.0, 100.0, 120.0, 1.0)
  const ENDING: seq<BarRow> := [map["A" := FIRST_BAR], map["A" := LAST_BAR], map[]]
  const LISTED := Event("A", 0)

  function FirstOf(s: seq<real>): Option<real> { if s == [] then None else Some(s[0]) }

  function ShortRule(): Rule { Rule(1, 1, Some(0.5), 0.1, 1.0, 0.0, -1, FirstOf) }

  /** A short of "A" on its last bar: the high reaches the stop, and no bar follows. */
  lemma StoppedOnLastBar()
    ensures StopsOn(ENDING, ShortRule(), LISTED, 1)
    ensures RawRow(ENDING, [LISTED], ShortRule(), 0) == map["A" := -0.1]
    ensures OverrideRow(ENDING, [LISTED], ShortRule(), 1) ==
            map["A" := StopReturn(LAST_BAR, 100.0, ShortRule())]
  {
    var rule := ShortRule();
    assert ENDING[0..1] == [ENDING[0]] && [ENDING[0]][..0] == [] && [LISTED][..0] == [];
    assert Volumes([], "A") == [];
    assert Volumes(ENDING[0..1], "A") == [] + [1.0] == [1.0];
    assert Tradable(ENDING, rule, LISTED);
    assert HeldOn(ENDING, rule, LISTED, 1);
    assert RawRow(ENDING, [], rule, 0) == map[] && OverrideRow(ENDING, [], rule, 1) == map[];
  }

  lemma ShortCapped()
    ensures Capped(map["A" := -0.1], 1.0) == map["A" := -0.1]
  {
    var row: Row := map["A" := -0.1];
    SumOverOne(row.Keys, "A", AbsCell(row));
    assert SumOver(row.Keys, AbsCell(row)) == 0.1;
  }

  /** A book whose stop falls on the symbol's last bar: the correction does not substitute the stop return. */
  lemma StopOnLastBar(weights: seq<Row>, override: seq<Row>)
    requires |weights| == 3 == |override|
    requires weights[0] == Capped(RawRow(ENDING, [LISTED], ShortRule(), 0), 1.0)
    requires override[1] == OverrideRow(ENDING, [LISTED], ShortRule(), 1)
    ensures var v := DayView(weights, ENDING, [], [], 1);
      !Substitutes(v, override[1]) && OverriddenPnl(v, override[1]) == Substituted(v, override[1]) - 0.02
  {
    StoppedOnLastBar();
    ShortCapped();
    var v := DayView(weights, ENDING, [], [], 1);
    hide Substituted, OverriddenPnl, RawRow, OverrideRow, Capped;
    assert v.held == map["A" := -0.1] && v.bars == ENDING[1] && v.next == ENDING[2];
    OverrideSubstitutes(v, override[1]);
    OneMove(v, override[1], "A");
    assert Times(-0.1, 120.0 / 100.0 - 1.0) == -0.02;
  }

  /** listing_book returns such a book. */
  method LastBarBook() returns (weights: seq<Row>, override: seq<Row>)
    ensures |weights| == 3 == |override|
    ensures !Substitutes(DayView(weights, ENDING, [], [], 1), override[1])
  {
    weights, override := ListingBook(ENDING, [LISTED], ShortRule());
    StopOnLastBar(weights, override);
  }
}
