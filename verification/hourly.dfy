/** The hourly engine and its agreement with the daily one
    (research/strategy_search/bt_hourly.py:25-87, research/strategy_search/bt.py:38-90). */
module Hourly {
  import opened Lists
  import opened Sums
  import opened Engine

  // ---------------------------------------------------------------- holding between rebalances

  /** The close of hour h is a rebalance: hours k - 1, 2k - 1, ... of the day. */
  predicate Rebalances(h: nat, k: nat)
    requires k >= 1
  {
    (h % 24) % k == k - 1
  }

  /** Forward-filling the rebalance rows cell by cell: an empty cell keeps its last value. */
  function Filled(weights: seq<Row>, k: nat, h: int): Row
    requires k >= 1 && h < |weights|
    decreases h + 1
  {
    if h < 0 then map[]
    else if Rebalances(h, k) then Filled(weights, k, h - 1) + weights[h]
    else Filled(weights, k, h - 1)
  }

  /** bt_hourly.hold_every. */
  function HoldEvery(weights: seq<Row>, k: nat): (r: seq<Row>)
    requires k >= 1
    ensures |r| == |weights|
  {
    if k == 1 then weights else seq(|weights|, h requires 0 <= h < |weights| => Filled(weights, k, h))
  }

  /** Row r, at most h, is the last rebalance row that gives the symbol a weight. */
  predicate LastGiven(weights: seq<Row>, k: nat, h: int, s: string, r: int) {
    && k >= 1 && 0 <= r <= h < |weights| && Rebalances(r, k) && s in weights[r]
    && forall q :: r < q <= h && Rebalances(q, k) ==> s !in weights[q]
  }

  /** Between rebalances every symbol keeps the weight that the last rebalance row naming it gave; with a rebalance every
      hour nothing is filled. */
  lemma HoldEveryMeaning(weights: seq<Row>, k: nat, h: nat, s: string)
    requires k >= 1 && h < |weights|
    ensures k == 1 ==> HoldEvery(weights, k)[h] == weights[h]
    ensures k > 1 ==> (s in HoldEvery(weights, k)[h] <==> exists r :: LastGiven(weights, k, h, s, r))
    ensures k > 1 ==> forall r :: LastGiven(weights, k, h, s, r) ==> Lookup(HoldEvery(weights, k)[h], s) == Some(weights[r][s])
  {
    FilledMeaning(weights, k, h, s);
  }

  lemma {:induction false} FilledMeaning(weights: seq<Row>, k: nat, h: int, s: string)
    requires k >= 1 && h < |weights|
    ensures s in Filled(weights, k, h) <==> exists r :: LastGiven(weights, k, h, s, r)
    ensures forall r :: LastGiven(weights, k, h, s, r) ==> Lookup(Filled(weights, k, h), s) == Some(weights[r][s])
    decreases h + 1
  {
    if h >= 0 {
      hide Rebalances, LastGiven;
      FilledMeaning(weights, k, h - 1, s);
      forall r ensures LastGiven(weights, k, h, s, r) <==>
        if Rebalances(h, k) && s in weights[h] then r == h else LastGiven(weights, k, h - 1, s, r)
      {
        LastGivenStep(weights, k, h, s, r);
      }
      if Rebalances(h, k) && s in weights[h] {
        assert LastGiven(weights, k, h, s, h);
      } else if s in Filled(weights, k, h - 1) {
        var r :| LastGiven(weights, k, h - 1, s, r);
        assert LastGiven(weights, k, h, s, r);
      }
    }
  }

  lemma LastGivenStep(weights: seq<Row>, k: nat, h: nat, s: string, r: int)
    requires k >= 1 && h < |weights|
    ensures LastGiven(weights, k, h, s, r) <==>
            if Rebalances(h, k) && s in weights[h] then r == h else LastGiven(weights, k, h - 1, s, r)
  {
    hide Rebalances;
  }

  // ---------------------------------------------------------------- quiet hours

  /** The last bar of a symbol among the first n hours. */
  function LastBar(raw: seq<BarRow>, s: string, n: nat): Option<Bar>
    requires n <= |raw|
  {
    if n == 0 then None else if s in raw[n - 1] then Some(raw[n - 1][s]) else LastBar(raw, s, n - 1)
  }

  predicate SeenFrom(raw: seq<BarRow>, s: string, h: nat) {
    exists i :: h <= i < |raw| && s in raw[i]
  }

  /** bt_hourly.fill_interior: forward-fill, but only where a later bar exists. */
  function FillInterior(raw: seq<BarRow>, columns: set<string>): (r: seq<BarRow>)
    ensures |r| == |raw|
  {
    seq(|raw|, h requires 0 <= h < |raw| =>
      map s | s in columns && LastBar(raw, s, h + 1).Some? && SeenFrom(raw, s, h) :: LastBar(raw, s, h + 1).value)
  }

  lemma {:induction false} LastBarMeaning(raw: seq<BarRow>, s: string, n: nat)
    requires n <= |raw|
    ensures LastBar(raw, s, n).Some? <==> exists i :: 0 <= i < n && s in raw[i]
  {
    if n != 0 {
      LastBarMeaning(raw, s, n - 1);
    }
  }

  /** After filling, a symbol's bars run without a gap from its first raw bar to its last. */
  lemma FilledInterval(raw: seq<BarRow>, columns: set<string>, s: string, first: nat, last: nat)
    requires s in columns && first <= last < |raw| && s in raw[first] && s in raw[last]
    requires forall i :: 0 <= i < |raw| && s in raw[i] ==> first <= i <= last
    ensures forall h :: 0 <= h < |raw| ==> (s in FillInterior(raw, columns)[h] <==> first <= h <= last)
  {
    forall h | 0 <= h < |raw| ensures s in FillInterior(raw, columns)[h] <==> first <= h <= last {
      LastBarMeaning(raw, s, h + 1);
      if first <= h <= last {
        assert SeenFrom(raw, s, h);
      }
    }
  }

  // ---------------------------------------------------------------- settlements

  /** A funding settlement at a time in milliseconds after the first row of the tables. */
  datatype Settlement = Settlement(time: int, symbol: string, rate: real)

  const MINUTE := 60_000
  const HOUR := 3_600_000
  const DAY := 86_400_000

  /** A settlement is paid by the position held a minute before it. */
  function SlotOf(x: Settlement, unit: int): int
    requires unit > 0
  {
    (x.time - MINUTE) / unit
  }

  function RateOf(): Settlement -> real { (x: Settlement) => x.rate }

  function InSlot(unit: int, i: int, s: string): Settlement -> bool
    requires unit > 0
  {
    (x: Settlement) => SlotOf(x, unit) == i && x.symbol == s
  }

  /** The sum of a symbol's rates in one hour or one day. */
  function Rate(xs: seq<Settlement>, unit: int, i: int, s: string): real
    requires unit > 0
  {
    SumBy(Filter(xs, InSlot(unit, i, s)), RateOf())
  }

  function RateRow(xs: seq<Settlement>, unit: int, i: int, columns: set<string>): Row
    requires unit > 0
  {
    map s | s in columns :: Rate(xs, unit, i, s)
  }

  function RateRows(xs: seq<Settlement>, unit: int, n: nat, columns: set<string>): (r: seq<Row>)
    requires unit > 0
    ensures |r| == n && forall i :: 0 <= i < n ==> r[i] == RateRow(xs, unit, i, columns)
  {
    seq(n, i => RateRow(xs, unit, i, columns))
  }

  // ---------------------------------------------------------------- the hourly run

  /** from_daily with a lag of one day: every hour of day D reads the tiers of day D - 1. */
  function HourSlip(medians: seq<Row>, h: nat, symbols: set<string>): Row {
    TierRow(medians, h / 24 - 1, symbols)
  }

  /** Hour h of bt_hourly.run. */
  function HourView(weights: seq<Row>, bars: seq<BarRow>, rates: seq<Row>, medians: seq<Row>, h: nat): View {
    var held, before := RowAt(weights, h - 1), RowAt(weights, h - 2);
    View(held, before, RowAt(bars, h), RowAt(bars, h + 1), RowAt(rates, h),
         HourSlip(medians, h, held.Keys + before.Keys))
  }

  // ---------------------------------------------------------------- a once-a-day book

  predicate TradedIn(raw: seq<BarRow>, s: string, lo: int, hi: int) {
    exists h :: lo <= h < hi && 0 <= h < |raw| && s in raw[h]
  }

  /** One study: daily weights, the hourly weights that carry them at each day's last hour, raw hourly bars and daily
      bars of the same symbols, the settlements and the daily medians. */
  datatype Study = Study(
    columns: set<string>, daily: seq<Row>, hourly: seq<Row>, raw: seq<BarRow>, bars: seq<BarRow>,
    settlements: seq<Settlement>, medians: seq<Row>)

  /** The tables show the same book and the same trades: every day has 24 hours, its last hour has the daily weights,
      and a symbol has a daily bar on the days it traded. Any weight cell may be empty, and any hour or day quiet. */
  ghost predicate Aligned(x: Study) {
    && |x.hourly| == |x.raw| == 24 * |x.daily| && |x.bars| == |x.daily|
    && (forall d :: 0 <= d < |x.daily| ==> x.daily[d].Keys <= x.columns && x.hourly[24 * d + 23] == x.daily[d])
    && forall d, s :: 0 <= d < |x.bars| && s in x.columns ==>
         (s in x.bars[d] <==> TradedIn(x.raw, s, 24 * d, 24 * d + 24))
  }

  function Hours(x: Study): seq<BarRow> { FillInterior(x.raw, x.columns) }

  function DayOf(x: Study, d: nat): View {
    DayView(x.daily, x.bars, RateRows(x.settlements, DAY, |x.daily|, x.columns), x.medians, d)
  }

  function HourOf(x: Study, h: nat): View {
    HourView(HoldEvery(x.hourly, 24), Hours(x), RateRows(x.settlements, HOUR, |x.hourly|, x.columns), x.medians, h)
  }

  /** The hours of day d. */
  function HoursOf(x: Study, d: nat): (r: seq<View>)
    ensures |r| == 24 && forall j :: 0 <= j < 24 ==> r[j] == HourOf(x, 24 * d + j)
  {
    seq(24, j requires 0 <= j < 24 => HourOf(x, 24 * d + j))
  }

  // ---------------------------------------------------------------- positions

  /** The last weight given to a symbol in the first n daily rows. */
  function Given(daily: seq<Row>, n: nat, s: string): Option<real>
    requires n <= |daily|
  {
    if n == 0 then None else if s in daily[n - 1] then Some(daily[n - 1][s]) else Given(daily, n - 1, s)
  }

  function WeightOf(given: Option<real>): real { if given.Some? then given.value else 0.0 }

  /** What the hourly engine holds on day d. */
  function Carried(x: Study, d: int, s: string): real
    requires d <= |x.daily|
  {
    if d <= 0 then 0.0 else WeightOf(Given(x.daily, d, s))
  }

  /** What the daily engine holds on day d. */
  function Decided(x: Study, d: int, s: string): real { Cell(RowAt(x.daily, d - 1), s) }

  /** Forward-filling hour by hour gives at every hour the last weight of the rows rebalanced to so far. */
  lemma {:induction false} FilledGiven(x: Study, h: int, s: string)
    requires Aligned(x) && -1 <= h < |x.hourly|
    ensures Lookup(Filled(x.hourly, 24, h), s) == Given(x.daily, (h + 1) / 24, s)
    decreases h + 1
  {
    if h >= 0 {
      FilledGiven(x, h - 1, s);
      var d := h / 24;
      assert 24 * d <= h < 24 * d + 24;
      if Rebalances(h, 24) {
        assert h == 24 * d + 23 && x.hourly[24 * d + 23] == x.daily[d];
      }
    }
  }

  lemma {:induction false} GivenInside(x: Study, n: nat, s: string)
    requires Aligned(x) && n <= |x.daily| && s !in x.columns
    ensures Given(x.daily, n, s).None?
  {
    if n > 0 {
      GivenInside(x, n - 1, s);
      assert x.daily[n - 1].Keys <= x.columns;
    }
  }

  lemma DivMod(d: int, j: int)
    requires 0 <= j < 24
    ensures (24 * d + j) / 24 == d && (24 * d + j) % 24 == j
  {
  }

  lemma HeldGiven(x: Study, h: int, s: string)
    requires Aligned(x) && -2 <= h < |x.hourly|
    ensures Lookup(RowAt(HoldEvery(x.hourly, 24), h), s) ==
            if h < 0 then None else Given(x.daily, (h + 1) / 24, s)
  {
    if h >= 0 {
      FilledGiven(x, h, s);
    }
  }

  /** At hour j of day d the engine holds the day's carried weight, and before its first hour the day before's. */
  lemma HourHeld(x: Study, d: nat, j: nat, s: string)
    requires Aligned(x) && d < |x.daily| && j < 24
    ensures var v := HourOf(x, 24 * d + j); var was := if j == 0 then d - 1 else d;
      && Cell(v.held, s) == Carried(x, d, s) && Cell(v.before, s) == Carried(x, was, s)
      && (s in v.held <==> d > 0 && Given(x.daily, d, s).Some?)
      && (s in v.before <==> was > 0 && Given(x.daily, was, s).Some?)
  {
    hide Filled, FillInterior;
    var h := 24 * d + j;
    HeldGiven(x, h - 1, s);
    HeldGiven(x, h - 2, s);
    DivMod(d, j);
    if j == 0 {
      DivMod(d - 1, 23);
    } else {
      DivMod(d, j - 1);
    }
  }

  lemma HourColumns(x: Study, d: nat, j: nat)
    requires Aligned(x) && d < |x.daily| && j < 24
    ensures Columns(HourOf(x, 24 * d + j)) <= x.columns
  {
    hide HourOf;
    forall s | s in Columns(HourOf(x, 24 * d + j)) ensures s in x.columns {
      HourHeld(x, d, j, s);
      if s !in x.columns {
        GivenInside(x, d, s);
        GivenInside(x, if j == 0 && d > 0 then d - 1 else d, s);
      }
    }
  }

  lemma DayColumns(x: Study, d: nat)
    requires Aligned(x) && d < |x.daily|
    ensures Columns(DayOf(x, d)) <= x.columns
  {
    assert d >= 1 ==> x.daily[d - 1].Keys <= x.columns;
    assert d >= 2 ==> x.daily[d - 2].Keys <= x.columns;
  }

  /** The weights decided for day d have no empty cell but where the last weight given is zero. */
  predicate CellsGiven(x: Study, d: nat)
    requires d <= |x.daily|
  {
    d > 0 ==> forall s :: s in x.columns && s !in x.daily[d - 1] ==> WeightOf(Given(x.daily, d - 1, s)) == 0.0
  }

  lemma CarriedCell(x: Study, d: nat, s: string)
    requires Aligned(x) && d <= |x.daily|
    ensures Decided(x, d, s) == if d > 0 && s in x.daily[d - 1] then Carried(x, d, s) else 0.0
    ensures d > 0 && s !in x.daily[d - 1] ==> Carried(x, d, s) == Carried(x, d - 1, s)
    ensures CellsGiven(x, d) ==> Carried(x, d, s) == Decided(x, d, s)
  {
    assert d > 0 && s !in x.daily[d - 1] ==> Given(x.daily, d, s) == Given(x.daily, d - 1, s);
    if s !in x.columns {
      GivenInside(x, d, s);
    }
  }

  /** An empty cell does not close a position: both engines hold the same through a day exactly when the row decided
      for it is empty only where the last weight given is zero. */
  lemma HeldExactly(x: Study, d: nat)
    requires Aligned(x) && d < |x.daily|
    ensures (forall j, s :: 0 <= j < 24 ==> Cell(HoursOf(x, d)[j].held, s) == Cell(DayOf(x, d).held, s)) <==>
            CellsGiven(x, d)
  {
    hide HourOf, CellsGiven, Given;
    forall j, s | 0 <= j < 24 ensures Cell(HoursOf(x, d)[j].held, s) == Carried(x, d, s) {
      HourHeld(x, d, j, s);
    }
    forall s ensures Cell(DayOf(x, d).held, s) == Decided(x, d, s)
      ensures CellsGiven(x, d) ==> Carried(x, d, s) == Decided(x, d, s)
    {
      CarriedCell(x, d, s);
    }
    if !CellsGiven(x, d) {
      var s := EmptyCell(x, d);
      assert Cell(HoursOf(x, d)[0].held, s) != Cell(DayOf(x, d).held, s);
    }
  }

  lemma EmptyCell(x: Study, d: nat) returns (s: string)
    requires Aligned(x) && d <= |x.daily| && !CellsGiven(x, d)
    ensures d > 0 && s in x.columns && s !in x.daily[d - 1]
    ensures Carried(x, d, s) == Carried(x, d - 1, s) != 0.0 && Decided(x, d, s) == 0.0
  {
    s :| s in x.columns && s !in x.daily[d - 1] && WeightOf(Given(x.daily, d - 1, s)) != 0.0;
    CarriedCell(x, d, s);
  }

  // ---------------------------------------------------------------- per-day sums

  function PartAt(p: Part, s: string): View -> real { v => Cells(p, v, s) }

  ghost function PartSum(p: Part): View -> real { v => Sum(p, v) }

  function DayCells(p: Part, views: seq<View>): string -> real { s => SumBy(views, PartAt(p, s)) }

  /** The sum over views of column sums is the column sum of sums over views. */
  lemma {:induction false} Swap(p: Part, views: seq<View>, columns: set<string>)
    requires forall v :: v in views ==> Columns(v) <= columns
    ensures SumBy(views, PartSum(p)) == SumOver(columns, DayCells(p, views))
  {
    if views == [] {
      NoSum(columns, DayCells(p, views));
    } else {
      var n := |views| - 1;
      assert views == views[..n] + [views[n]];
      Swap(p, views[..n], columns);
      SumWide(p, views[n], columns);
      SumOverAdd(columns, DayCells(p, views[..n]), CellsOf(p, views[n]), DayCells(p, views));
    }
  }

  /** The hours' sum of a part, column by column. */
  lemma HoursSum(x: Study, p: Part, d: nat)
    requires Aligned(x) && d < |x.daily|
    ensures SumBy(HoursOf(x, d), PartSum(p)) == SumOver(x.columns, DayCells(p, HoursOf(x, d)))
    ensures Sum(p, DayOf(x, d)) == SumOver(x.columns, CellsOf(p, DayOf(x, d)))
  {
    hide HourOf, DayOf, Aligned, Columns;
    forall j | 0 <= j < 24 ensures Columns(HoursOf(x, d)[j]) <= x.columns {
      HourColumns(x, d, j);
    }
    DayColumns(x, d);
    Swap(p, HoursOf(x, d), x.columns);
    SumWide(p, DayOf(x, d), x.columns);
  }

  /** The hours of a day pay a part as the daily engine does. */
  ghost predicate PartAgrees(x: Study, p: Part, d: nat) {
    SumBy(HoursOf(x, d), PartSum(p)) == Sum(p, DayOf(x, d))
  }

  /** A part whose cells add up over the day for every symbol adds up for the whole book. */
  lemma DaySum(x: Study, p: Part, d: nat)
    requires Aligned(x) && d < |x.daily|
    requires forall s :: s in x.columns ==> SumBy(HoursOf(x, d), PartAt(p, s)) == Cells(p, DayOf(x, d), s)
    ensures PartAgrees(x, p, d)
  {
    hide HourOf, DayOf, Aligned, Cells;
    HoursSum(x, p, d);
    SumOverSame(x.columns, DayCells(p, HoursOf(x, d)), CellsOf(p, DayOf(x, d)));
  }

  /** Where the hours of no symbol pay more than the day, they agree in sum exactly when they agree symbol by symbol. */
  lemma DaySqueeze(x: Study, p: Part, d: nat)
    requires Aligned(x) && d < |x.daily|
    requires forall s :: s in x.columns ==> SumBy(HoursOf(x, d), PartAt(p, s)) >= Cells(p, DayOf(x, d), s)
    ensures PartAgrees(x, p, d) <==>
            forall s :: s in x.columns ==> SumBy(HoursOf(x, d), PartAt(p, s)) == Cells(p, DayOf(x, d), s)
  {
    hide HourOf, DayOf, Aligned, Cells;
    HoursSum(x, p, d);
    SumOverSqueeze(x.columns, DayCells(p, HoursOf(x, d)), CellsOf(p, DayOf(x, d)));
    forall s ensures DayCells(p, HoursOf(x, d))(s) == SumBy(HoursOf(x, d), PartAt(p, s))
      && CellsOf(p, DayOf(x, d))(s) == Cells(p, DayOf(x, d), s)
    {
    }
  }

  // ---------------------------------------------------------------- turnover costs

  lemma {:induction false} ZeroBy(views: seq<View>, f: View -> real)
    requires forall v :: v in views ==> f(v) == 0.0
    ensures SumBy(views, f) == 0.0
  {
    if views != [] {
      var n := |views| - 1;
      assert views == views[..n] + [views[n]];
      ZeroBy(views[..n], f);
    }
  }

  lemma OnlyFirst(views: seq<View>, f: View -> real)
    requires views != [] && forall i :: 1 <= i < |views| ==> f(views[i]) == 0.0
    ensures SumBy(views, f) == f(views[0])
  {
    assert views == [views[0]] + views[1..];
    SumConcat([views[0]], views[1..], f);
    assert [views[0]][..0] == [];
    ZeroBy(views[1..], f);
  }

  /** The fee and the slippage tier of a symbol on a day. */
  function RateFor(x: Study, d: int, s: string): (r: real)
    ensures r > 0.0
  {
    FEE + if 0 <= d - 1 < |x.medians| then Slippage(x.medians[d - 1], s) else SLIP_DEFAULT
  }

  function Turned(from: real, to: real, rate: real, mult: real): real { -Times(Times(Abs(to - from), rate), mult) }

  lemma NotTurned(w: real, rate: real, mult: real)
    ensures Turned(w, w, rate, mult) == 0.0
  {
  }

  /** A cost cell is the turnover of its two weights; the tier of a symbol in neither row does not matter. */
  lemma CostCell(v: View, s: string, mult: real, rate: real)
    requires s in v.held || s in v.before ==> rate == FEE + if s in v.slip then v.slip[s] else SLIP_DEFAULT
    ensures Cells(Cost(mult), v, s) == Turned(Cell(v.before, s), Cell(v.held, s), rate, mult)
  {
    if s !in v.held && s !in v.before {
      NotTurned(0.0, rate, mult);
      NotTurned(0.0, FEE + if s in v.slip then v.slip[s] else SLIP_DEFAULT, mult);
    }
  }

  lemma HourCost(x: Study, d: nat, j: nat, mult: real, s: string)
    requires Aligned(x) && d < |x.daily| && j < 24
    ensures Cells(Cost(mult), HourOf(x, 24 * d + j), s) ==
            if j == 0 then Turned(Carried(x, d - 1, s), Carried(x, d, s), RateFor(x, d, s), mult) else 0.0
  {
    hide Aligned, Cells, HoldEvery, Hours, RateRows, Slippage, Turned;
    DivMod(d, j);
    CostCell(HourOf(x, 24 * d + j), s, mult, RateFor(x, d, s));
    HourHeld(x, d, j, s);
    NotTurned(Carried(x, d, s), RateFor(x, d, s), mult);
  }

  lemma DayCost(x: Study, d: nat, mult: real, s: string)
    ensures Cells(Cost(mult), DayOf(x, d), s) ==
            Turned(Decided(x, d - 1, s), Decided(x, d, s), RateFor(x, d, s), mult)
  {
    hide Cells, RateRows, Slippage, Turned;
    CostCell(DayOf(x, d), s, mult, RateFor(x, d, s));
  }

  /** The hours of a day pay the turnover once, at its first hour. */
  lemma CostHours(x: Study, d: nat, mult: real, s: string)
    requires Aligned(x) && d < |x.daily|
    ensures SumBy(HoursOf(x, d), PartAt(Cost(mult), s)) ==
            Turned(Carried(x, d - 1, s), Carried(x, d, s), RateFor(x, d, s), mult)
  {
    hide HourOf, Cells, Aligned, Turned, Carried;
    var views := HoursOf(x, d);
    forall j | 1 <= j < 24 ensures PartAt(Cost(mult), s)(views[j]) == 0.0 {
      HourCost(x, d, j, mult, s);
    }
    HourCost(x, d, 0, mult, s);
    OnlyFirst(views, PartAt(Cost(mult), s));
  }

  lemma CostsAgree(x: Study, d: nat, mult: real)
    requires Aligned(x) && d < |x.daily| && CellsGiven(x, d) && (d > 0 ==> CellsGiven(x, d - 1))
    ensures PartAgrees(x, Cost(mult), d)
  {
    hide HourOf, DayOf, Cells, Aligned, CellsGiven, PartAgrees, Carried, Decided, Turned;
    forall s | s in x.columns ensures SumBy(HoursOf(x, d), PartAt(Cost(mult), s)) == Cells(Cost(mult), DayOf(x, d), s) {
      CostHours(x, d, mult, s);
      DayCost(x, d, mult, s);
      CarriedCell(x, d, s);
      EarlierCell(x, d, s);
    }
    DaySum(x, Cost(mult), d);
  }

  lemma EarlierCell(x: Study, d: nat, s: string)
    requires Aligned(x) && d <= |x.daily| && (d > 0 ==> CellsGiven(x, d - 1))
    ensures Carried(x, d - 1, s) == Decided(x, d - 1, s)
  {
    if d > 0 {
      CarriedCell(x, d - 1, s);
    }
  }

  /** The first day after an empty cell that drops a position, the daily engine pays for closing it and the hourly one
      pays nothing. */
  lemma CostsDiffer(x: Study, d: nat)
    requires Aligned(x) && 0 < d < |x.daily| && CellsGiven(x, d - 1) && !CellsGiven(x, d)
    ensures !PartAgrees(x, Cost(1.0), d)
  {
    hide HourOf, DayOf, Cells, Aligned, CellsGiven, PartAgrees, Carried, Decided;
    forall s | s in x.columns
      ensures SumBy(HoursOf(x, d), PartAt(Cost(1.0), s)) >= Cells(Cost(1.0), DayOf(x, d), s)
      ensures s !in x.daily[d - 1] && Carried(x, d - 1, s) != 0.0 ==>
                SumBy(HoursOf(x, d), PartAt(Cost(1.0), s)) > Cells(Cost(1.0), DayOf(x, d), s)
    {
      CostHours(x, d, 1.0, s);
      DayCost(x, d, 1.0, s);
      CarriedCell(x, d, s);
      EarlierCell(x, d, s);
      if s !in x.daily[d - 1] {
        NotTurned(Carried(x, d, s), RateFor(x, d, s), 1.0);
        TurnedAway(Carried(x, d, s), RateFor(x, d, s));
      }
    }
    var s := EmptyCell(x, d);
    DaySqueeze(x, Cost(1.0), d);
  }

  lemma TurnedAway(w: real, rate: real)
    requires rate > 0.0
    ensures Turned(w, 0.0, rate, 1.0) <= 0.0
    ensures w != 0.0 ==> Turned(w, 0.0, rate, 1.0) < 0.0
  {
    assert Abs(0.0 - w) >= 0.0;
    assert Times(Abs(0.0 - w), rate) >= 0.0;
    assert w != 0.0 ==> Times(Abs(0.0 - w), rate) > 0.0;
  }

  // ---------------------------------------------------------------- funding

  /** The rates of a symbol over n hours from hour lo. */
  function HourRates(xs: seq<Settlement>, s: string, lo: int, n: nat): real {
    if n == 0 then 0.0 else HourRates(xs, s, lo, n - 1) + Rate(xs, HOUR, lo + n - 1, s)
  }

  function InHours(s: string, lo: int, n: nat): Settlement -> bool {
    (x: Settlement) => lo <= SlotOf(x, HOUR) < lo + n && x.symbol == s
  }

  lemma FilterSum(xs: seq<Settlement>, f: Settlement -> bool)
    requires xs != []
    ensures SumBy(Filter(xs, f), RateOf()) ==
            SumBy(Filter(xs[..|xs| - 1], f), RateOf()) + if f(xs[|xs| - 1]) then xs[|xs| - 1].rate else 0.0
  {
    var front, x := Filter(xs[..|xs| - 1], f), xs[|xs| - 1];
    if f(x) {
      assert Filter(xs, f) == front + [x];
      SumSnoc(front, x, RateOf());
    } else {
      assert Filter(xs, f) == front;
    }
  }

  lemma {:induction false} SumDisjoint(xs: seq<Settlement>, f: Settlement -> bool, g: Settlement -> bool, h: Settlement -> bool)
    requires forall x :: x in xs ==> h(x) == (f(x) || g(x)) && !(f(x) && g(x))
    ensures SumBy(Filter(xs, h), RateOf()) == SumBy(Filter(xs, f), RateOf()) + SumBy(Filter(xs, g), RateOf())
  {
    if xs != [] {
      var n := |xs| - 1;
      var x := xs[n];
      assert x in xs && xs == xs[..n] + [x];
      SumDisjoint(xs[..n], f, g, h);
      FilterSum(xs, f);
      FilterSum(xs, g);
      FilterSum(xs, h);
    }
  }

  lemma {:induction false} HoursPartition(xs: seq<Settlement>, s: string, lo: int, n: nat)
    ensures HourRates(xs, s, lo, n) == SumBy(Filter(xs, InHours(s, lo, n)), RateOf())
  {
    if n == 0 {
      NoneKept(xs, InHours(s, lo, 0));
    } else {
      hide Filter, SumBy, RateOf;
      HoursPartition(xs, s, lo, n - 1);
      SumDisjoint(xs, InHours(s, lo, n - 1), InSlot(HOUR, lo + n - 1, s), InHours(s, lo, n));
    }
  }

  /** A settlement's day holds its hour. */
  lemma SlotDay(x: Settlement, d: int)
    ensures SlotOf(x, DAY) == d <==> 24 * d <= SlotOf(x, HOUR) < 24 * d + 24
  {
    var t := x.time - MINUTE;
    var h := t / HOUR;
    assert h * HOUR <= t < h * HOUR + HOUR;
    assert (t / DAY) * DAY <= t < (t / DAY) * DAY + DAY;
  }

  /** The 24 hourly rates of a day add up to its daily rate. */
  lemma RatesInDay(xs: seq<Settlement>, s: string, d: int)
    ensures HourRates(xs, s, 24 * d, 24) == Rate(xs, DAY, d, s)
  {
    HoursPartition(xs, s, 24 * d, 24);
    forall x | x in xs ensures InHours(s, 24 * d, 24)(x) == InSlot(DAY, d, s)(x) {
      SlotDay(x, d);
    }
    FilterSame(xs, InHours(s, 24 * d, 24), InSlot(DAY, d, s));
  }

  lemma TimesSum(k: real, a: real, b: real)
    ensures Times(k, a + b) == Times(k, a) + Times(k, b)
    ensures Times(k, 0.0) == 0.0
  {
  }

  lemma FundingCell(x: Study, d: nat, j: nat, s: string)
    requires Aligned(x) && d < |x.daily| && s in x.columns && j < 24
    ensures Cells(Funding, HourOf(x, 24 * d + j), s) ==
            -Times(Carried(x, d, s), Rate(x.settlements, HOUR, 24 * d + j, s))
  {
    hide HoldEvery, Hours, Rate, Carried, TierRow;
    HourHeld(x, d, j, s);
  }

  lemma DayFundingCell(x: Study, d: nat, s: string)
    requires Aligned(x) && d < |x.daily| && s in x.columns
    ensures Cells(Funding, DayOf(x, d), s) == -Times(Decided(x, d, s), Rate(x.settlements, DAY, d, s))
  {
  }

  lemma {:induction false} FundingHours(x: Study, d: nat, s: string, n: nat)
    requires Aligned(x) && d < |x.daily| && s in x.columns && n <= 24
    ensures SumBy(HoursOf(x, d)[..n], PartAt(Funding, s)) ==
            -Times(Carried(x, d, s), HourRates(x.settlements, s, 24 * d, n))
  {
    hide HourOf, Cells, Carried, Aligned, Rate;
    var k := Carried(x, d, s);
    if n == 0 {
      TimesSum(k, 0.0, 0.0);
    } else {
      var views := HoursOf(x, d);
      FundingHours(x, d, s, n - 1);
      assert views[..n][..n - 1] == views[..n - 1];
      FundingCell(x, d, n - 1, s);
      TimesSum(k, HourRates(x.settlements, s, 24 * d, n - 1), Rate(x.settlements, HOUR, 24 * d + n - 1, s));
    }
  }

  /** The hours of a day pay the day's rates on the carried weight. */
  lemma FundingInDay(x: Study, d: nat, s: string)
    requires Aligned(x) && d < |x.daily| && s in x.columns
    ensures SumBy(HoursOf(x, d), PartAt(Funding, s)) == -Times(Carried(x, d, s), Rate(x.settlements, DAY, d, s))
    ensures Cells(Funding, DayOf(x, d), s) == -Times(Decided(x, d, s), Rate(x.settlements, DAY, d, s))
  {
    hide HourOf, DayOf, Cells, Carried, Decided, Aligned, Rate;
    DayFundingCell(x, d, s);
    FundingHours(x, d, s, 24);
    assert HoursOf(x, d)[..24] == HoursOf(x, d);
    RatesInDay(x.settlements, s, d);
  }

  /** The day or hour that starts a minute behind this boundary. */
  predicate Falls(e: Settlement, unit: int, i: int) { i * unit + MINUTE <= e.time < (i + 1) * unit + MINUTE }

  lemma SlotFalls(e: Settlement, i: int)
    ensures SlotOf(e, DAY) == i <==> Falls(e, DAY, i)
    ensures SlotOf(e, HOUR) == i <==> Falls(e, HOUR, i)
  {
  }

  /** A settlement is paid in the day, and in the hour, that holds the minute before it. */
  lemma RateOfOne(e: Settlement, i: int, s: string)
    ensures Rate([e], DAY, i, s) == if e.symbol == s && Falls(e, DAY, i) then e.rate else 0.0
    ensures Rate([e], HOUR, i, s) == if e.symbol == s && Falls(e, HOUR, i) then e.rate else 0.0
  {
    hide SlotOf, Falls;
    SlotFalls(e, i);
    OneMore([], e, DAY, i, s);
    OneMore([], e, HOUR, i, s);
    assert [] + [e] == [e];
  }

  lemma OneMore(xs: seq<Settlement>, e: Settlement, unit: int, i: int, s: string)
    requires unit > 0
    ensures Rate(xs + [e], unit, i, s) ==
            Rate(xs, unit, i, s) + if SlotOf(e, unit) == i && e.symbol == s then e.rate else 0.0
    ensures Rate([], unit, i, s) == 0.0
  {
    FilterSumSnoc(xs, e, InSlot(unit, i, s), RateOf());
  }

  /** What one more settlement costs a weight on a day. */
  function Charge(w: real, e: Settlement, d: int): real { if Falls(e, DAY, d) then Times(w, e.rate) else 0.0 }

  /** One more settlement lowers a day's funding by the weight held through the minute before it times its rate, in both
      engines, and changes no other day. */
  lemma SettlementPaid(x: Study, e: Settlement, d: nat)
    requires Aligned(x) && d < |x.daily| && e.symbol in x.columns
    ensures var y := x.(settlements := x.settlements + [e]);
      && Sum(Funding, DayOf(y, d)) == Sum(Funding, DayOf(x, d)) - Charge(Decided(x, d, e.symbol), e, d)
      && SumBy(HoursOf(y, d), PartSum(Funding)) ==
         SumBy(HoursOf(x, d), PartSum(Funding)) - Charge(Carried(x, d, e.symbol), e, d)
  {
    hide *;
    var s, y := e.symbol, x.(settlements := x.settlements + [e]);
    SameBook(x, x.settlements + [e], d);
    HoursSum(x, Funding, d);
    HoursSum(y, Funding, d);
    forall t | t in x.columns
      ensures DayCells(Funding, HoursOf(y, d))(t) ==
              DayCells(Funding, HoursOf(x, d))(t) - if t == s then Charge(Carried(x, d, s), e, d) else 0.0
      ensures CellsOf(Funding, DayOf(y, d))(t) ==
              CellsOf(Funding, DayOf(x, d))(t) - if t == s then Charge(Decided(x, d, s), e, d) else 0.0
    {
      ChargedCell(x, e, d, t);
    }
    LowerOne(x.columns, s, DayCells(Funding, HoursOf(x, d)), DayCells(Funding, HoursOf(y, d)), Charge(Carried(x, d, s), e, d));
    LowerOne(x.columns, s, CellsOf(Funding, DayOf(x, d)), CellsOf(Funding, DayOf(y, d)), Charge(Decided(x, d, s), e, d));
  }

  lemma ChargedCell(x: Study, e: Settlement, d: nat, t: string)
    requires Aligned(x) && d < |x.daily| && t in x.columns
    ensures var y := x.(settlements := x.settlements + [e]);
      && DayCells(Funding, HoursOf(y, d))(t) ==
         DayCells(Funding, HoursOf(x, d))(t) - (if t == e.symbol then Charge(Carried(x, d, t), e, d) else 0.0)
      && CellsOf(Funding, DayOf(y, d))(t) ==
         CellsOf(Funding, DayOf(x, d))(t) - if t == e.symbol then Charge(Decided(x, d, t), e, d) else 0.0
  {
    hide HourOf, DayOf, Cells, Carried, Decided, Aligned, Rate, Falls, SlotOf, Charge;
    var y := x.(settlements := x.settlements + [e]);
    SameBook(x, x.settlements + [e], d);
    FundingInDay(x, d, t);
    FundingInDay(y, d, t);
    OneMore(x.settlements, e, DAY, d, t);
    SlotFalls(e, d);
    Charged(Carried(x, d, t), Rate(x.settlements, DAY, d, t), e, d);
    Charged(Decided(x, d, t), Rate(x.settlements, DAY, d, t), e, d);
  }

  lemma LowerOne(columns: set<string>, s: string, f: string -> real, g: string -> real, v: real)
    requires s in columns && forall t :: t in columns ==> g(t) == f(t) - if t == s then v else 0.0
    ensures SumOver(columns, g) == SumOver(columns, f) - v
  {
    var one := Minus(v, s);
    forall t | t in columns ensures g(t) == f(t) + one(t) {
    }
    SumOverAdd(columns, f, one, g);
    SumOverOne(columns, s, one);
  }

  function Minus(v: real, s: string): string -> real { (t: string) => if t == s then -v else 0.0 }

  lemma Charged(w: real, rate: real, e: Settlement, d: int)
    ensures -Times(w, rate + if Falls(e, DAY, d) then e.rate else 0.0) == -Times(w, rate) - Charge(w, e, d)
  {
  }

  /** A settlement at midnight is paid by what is held through the day that ends, not through the one that starts. */
  lemma MidnightSettlement(x: Study, e: Settlement, d: nat)
    requires Aligned(x) && d < |x.daily| && e.symbol in x.columns && e.time == d * DAY
    ensures var y := x.(settlements := x.settlements + [e]);
      && Sum(Funding, DayOf(y, d)) == Sum(Funding, DayOf(x, d))
      && (d > 0 ==> (Sum(Funding, DayOf(y, d - 1)) ==
                     Sum(Funding, DayOf(x, d - 1)) - Times(Cell(DayOf(x, d - 1).held, e.symbol), e.rate)))
  {
    hide DayOf, HourOf, Cells, Carried, Aligned, PartSum, Sum;
    SettlementPaid(x, e, d);
    if d > 0 {
      SettlementPaid(x, e, d - 1);
      DayHeld(x, d - 1, e.symbol);
    }
  }

  lemma FundingAgrees(x: Study, d: nat)
    requires Aligned(x) && d < |x.daily| && CellsGiven(x, d)
    ensures PartAgrees(x, Funding, d)
  {
    hide HourOf, DayOf, Cells, Carried, Decided, Aligned, CellsGiven, PartAgrees;
    forall s | s in x.columns ensures SumBy(HoursOf(x, d), PartAt(Funding, s)) == Cells(Funding, DayOf(x, d), s) {
      FundingInDay(x, d, s);
      CarriedCell(x, d, s);
    }
    DaySum(x, Funding, d);
  }

  /** One settlement in the first hour of day d. */
  function Settled(d: int, s: string): Settlement { Settlement(24 * d * HOUR + MINUTE, s, 1.0) }

  lemma SettledRate(d: int, s: string, t: string)
    ensures Rate([Settled(d, s)], DAY, d, t) == if t == s then 1.0 else 0.0
  {
    RateOfOne(Settled(d, s), d, t);
  }

  /** The funding of a day agrees for all settlements exactly when the engines hold the same. */
  lemma FundingExactly(x: Study, d: nat)
    requires Aligned(x) && d < |x.daily|
    ensures (forall xs: seq<Settlement> :: PartAgrees(x.(settlements := xs), Funding, d)) <==> CellsGiven(x, d)
  {
    hide PartAgrees, CellsGiven, HourOf, DayOf, Cells, Carried, Decided, Rate, Given;
    if CellsGiven(x, d) {
      forall xs: seq<Settlement> ensures PartAgrees(x.(settlements := xs), Funding, d) {
        SameBook(x, xs, d);
        FundingAgrees(x.(settlements := xs), d);
      }
    } else {
      var s := EmptyCell(x, d);
      FundingDiffers(x, d, s);
    }
  }

  lemma SameBook(x: Study, xs: seq<Settlement>, d: nat)
    requires Aligned(x) && d < |x.daily|
    ensures Aligned(x.(settlements := xs)) && (CellsGiven(x.(settlements := xs), d) <==> CellsGiven(x, d))
    ensures forall s :: Carried(x.(settlements := xs), d, s) == Carried(x, d, s) &&
                        Decided(x.(settlements := xs), d, s) == Decided(x, d, s)
  {
    var y := x.(settlements := xs);
    assert y.daily == x.daily && y.columns == x.columns && y.hourly == x.hourly && y.raw == x.raw && y.bars == x.bars;
  }

  lemma FundingDiffers(x: Study, d: nat, s: string)
    requires Aligned(x) && d < |x.daily| && s in x.columns && Carried(x, d, s) != Decided(x, d, s)
    ensures !PartAgrees(x.(settlements := [Settled(d, s)]), Funding, d)
  {
    hide HourOf, DayOf, Carried, Decided, Aligned;
    SameBook(x, [Settled(d, s)], d);
    OneSettled(x.(settlements := [Settled(d, s)]), d, s);
  }

  lemma OneSettled(x: Study, d: nat, s: string)
    requires Aligned(x) && d < |x.daily| && s in x.columns && x.settlements == [Settled(d, s)]
    ensures SumBy(HoursOf(x, d), PartSum(Funding)) == -Carried(x, d, s)
    ensures Sum(Funding, DayOf(x, d)) == -Decided(x, d, s)
  {
    hide HourOf, DayOf, Cells, Carried, Decided, Aligned, Rate, Columns, PartSum;
    HoursSum(x, Funding, d);
    var hours, day := DayCells(Funding, HoursOf(x, d)), CellsOf(Funding, DayOf(x, d));
    forall t | t in x.columns
      ensures hours(t) == if t == s then -Carried(x, d, s) else 0.0
      ensures day(t) == if t == s then -Decided(x, d, s) else 0.0
    {
      FundingInDay(x, d, t);
      SettledRate(d, s, t);
      TimesUnit(Carried(x, d, t));
      TimesUnit(Decided(x, d, t));
    }
    SumOverOne(x.columns, s, hours);
    SumOverOne(x.columns, s, day);
  }

  lemma TimesUnit(w: real)
    ensures Times(w, 1.0) == w && Times(w, 0.0) == 0.0
  {
  }

  // ---------------------------------------------------------------- delisting

  /** The last hour a symbol ever traded. */
  ghost predicate LastHour(raw: seq<BarRow>, s: string, h: nat) {
    h < |raw| && s in raw[h] && forall i :: h < i < |raw| ==> s !in raw[i]
  }

  lemma {:induction false} FindLast(raw: seq<BarRow>, s: string, n: nat) returns (h: nat)
    requires n <= |raw| && TradedIn(raw, s, 0, n) && forall i :: n <= i < |raw| ==> s !in raw[i]
    ensures LastHour(raw, s, h) && h < n
  {
    if s in raw[n - 1] {
      h := n - 1;
    } else {
      h := FindLast(raw, s, n - 1);
    }
  }

  ghost predicate LastHourIn(raw: seq<BarRow>, s: string, lo: nat, hi: nat) {
    exists h: nat :: lo <= h < hi && h < |raw| && LastHour(raw, s, h)
  }

  lemma SeenStep(raw: seq<BarRow>, s: string, h: nat)
    requires h < |raw|
    ensures SeenFrom(raw, s, h) <==> s in raw[h] || SeenFrom(raw, s, h + 1)
  {
    if SeenFrom(raw, s, h) {
      var i :| h <= i < |raw| && s in raw[i];
    }
  }

  /** After filling, the hourly data of a symbol ends once, at its last traded hour. */
  lemma HourEnds(x: Study, s: string, h: nat)
    requires s in x.columns && h < |x.raw|
    ensures Ends(HourOf(x, h), s) <==> LastHour(x.raw, s, h)
  {
    hide HoldEvery, RateRows, HourSlip;
    LastBarMeaning(x.raw, s, h + 1);
    SeenStep(x.raw, s, h);
    if h + 1 < |x.raw| {
      LastBarMeaning(x.raw, s, h + 2);
    }
  }

  /** The daily data of a symbol ends on this day, and it trades again on a later one. */
  ghost predicate Resumes(x: Study, d: nat, s: string) {
    Ends(DayOf(x, d), s) && exists c :: d < c < |x.bars| && s in x.bars[c]
  }

  lemma DayBars(x: Study, d: nat, s: string)
    ensures Ends(DayOf(x, d), s) <==> d < |x.bars| && s in x.bars[d] && (d + 1 < |x.bars| ==> s !in x.bars[d + 1])
  {
  }

  lemma TradedDay(x: Study, s: string, h: nat)
    requires Aligned(x) && s in x.columns && h < |x.raw| && s in x.raw[h]
    ensures h / 24 < |x.bars| && s in x.bars[h / 24]
  {
    var e := h / 24;
    assert 24 * e <= h < 24 * e + 24;
    assert TradedIn(x.raw, s, 24 * e, 24 * e + 24);
  }

  /** The daily data of a symbol ends on the day of its last traded hour, and on every earlier day before a day without
      a trade. */
  lemma DayEnds(x: Study, s: string, d: nat)
    requires Aligned(x) && s in x.columns && d < |x.daily|
    ensures Ends(DayOf(x, d), s) <==> LastHourIn(x.raw, s, 24 * d, 24 * d + 24) || Resumes(x, d, s)
    ensures !(LastHourIn(x.raw, s, 24 * d, 24 * d + 24) && Resumes(x, d, s))
  {
    hide DayOf;
    DayBars(x, d, s);
    if LastHourIn(x.raw, s, 24 * d, 24 * d + 24) {
      LastDay(x, s, d);
    } else if Ends(DayOf(x, d), s) {
      LaterDay(x, s, d);
    }
  }

  lemma LastDay(x: Study, s: string, d: nat)
    requires Aligned(x) && s in x.columns && d < |x.daily| && LastHourIn(x.raw, s, 24 * d, 24 * d + 24)
    ensures s in x.bars[d] && forall c :: d < c < |x.bars| ==> s !in x.bars[c]
  {
    var h: nat :| 24 * d <= h < 24 * d + 24 && h < |x.raw| && LastHour(x.raw, s, h);
    TradedDay(x, s, h);
    assert h / 24 == d;
    forall c | d < c < |x.bars| ensures s !in x.bars[c] {
      assert !TradedIn(x.raw, s, 24 * c, 24 * c + 24);
    }
  }

  lemma LaterDay(x: Study, s: string, d: nat)
    requires Aligned(x) && s in x.columns && d < |x.daily| && s in x.bars[d]
    requires !LastHourIn(x.raw, s, 24 * d, 24 * d + 24)
    ensures exists c :: d < c < |x.bars| && s in x.bars[c]
  {
    assert TradedIn(x.raw, s, 24 * d, 24 * d + 24);
    var i :| 24 * d <= i < 24 * d + 24 && 0 <= i < |x.raw| && s in x.raw[i];
    assert TradedIn(x.raw, s, 0, |x.raw|);
    var h := FindLast(x.raw, s, |x.raw|);
    assert h >= i;
    TradedDay(x, s, h);
    assert h / 24 != d;
  }

  lemma {:induction false} PenaltyHours(x: Study, d: nat, s: string, n: nat)
    requires Aligned(x) && d < |x.daily| && s in x.columns && n <= 24
    ensures SumBy(HoursOf(x, d)[..n], PartAt(Penalty, s)) ==
            if LastHourIn(x.raw, s, 24 * d, 24 * d + n) then -(Abs(Carried(x, d, s)) * DELIST_PENALTY) else 0.0
  {
    hide HourOf, Cells, Carried, Aligned, LastHour;
    if n != 0 {
      var views := HoursOf(x, d);
      PenaltyHours(x, d, s, n - 1);
      assert views[..n][..n - 1] == views[..n - 1];
      PenaltyCell(x, d, n - 1, s);
      InsideDay(x, d, n - 1);
      OneLastHour(x.raw, s, 24 * d, 24 * d + n - 1);
    }
  }

  lemma OneLastHour(raw: seq<BarRow>, s: string, lo: nat, h: nat)
    requires lo <= h < |raw|
    ensures LastHourIn(raw, s, lo, h + 1) <==> LastHourIn(raw, s, lo, h) || LastHour(raw, s, h)
    ensures !(LastHourIn(raw, s, lo, h) && LastHour(raw, s, h))
  {
  }

  lemma PenaltyCell(x: Study, d: nat, j: nat, s: string)
    requires Aligned(x) && d < |x.daily| && s in x.columns && j < 24
    ensures Cells(Penalty, HourOf(x, 24 * d + j), s) ==
            if LastHour(x.raw, s, 24 * d + j) then -(Abs(Carried(x, d, s)) * DELIST_PENALTY) else 0.0
  {
    hide HourOf, LastHour, Carried, Aligned;
    InsideDay(x, d, j);
    HourHeld(x, d, j, s);
    HourEnds(x, s, 24 * d + j);
  }

  lemma InsideDay(x: Study, d: nat, j: nat)
    requires Aligned(x) && d < |x.daily| && j < 24
    ensures 24 * d + j < |x.raw|
  {
  }

  /** What the hours and the day charge one symbol for the end of its data: the hours only when it never trades again. */
  lemma PenaltyInDay(x: Study, d: nat, s: string)
    requires Aligned(x) && d < |x.daily| && s in x.columns && CellsGiven(x, d)
    ensures var hours, day := SumBy(HoursOf(x, d), PartAt(Penalty, s)), Cells(Penalty, DayOf(x, d), s);
      hours >= day && (hours == day <==> Decided(x, d, s) == 0.0 || !Resumes(x, d, s))
  {
    hide HourOf, DayOf, Aligned, CellsGiven, Carried, Resumes, LastHourIn;
    PenaltyHours(x, d, s, 24);
    assert HoursOf(x, d)[..24] == HoursOf(x, d);
    DayEnds(x, s, d);
    CarriedCell(x, d, s);
    DayHeld(x, d, s);
  }

  lemma DayHeld(x: Study, d: nat, s: string)
    ensures Cell(DayOf(x, d).held, s) == Decided(x, d, s)
  {
  }

  /** No held symbol trades again after a day without a trade. */
  ghost predicate NoneResumes(x: Study, d: nat) {
    forall s :: s in x.columns && Decided(x, d, s) != 0.0 ==> !Resumes(x, d, s)
  }

  /** The penalties of a day agree exactly when no held symbol's data only pauses. */
  lemma PenaltyExactly(x: Study, d: nat)
    requires Aligned(x) && d < |x.daily| && CellsGiven(x, d)
    ensures PartAgrees(x, Penalty, d) <==> NoneResumes(x, d)
  {
    hide HourOf, DayOf, Cells, Aligned, CellsGiven, Decided, Resumes, PartAgrees;
    forall s | s in x.columns ensures
      var hours, day := SumBy(HoursOf(x, d), PartAt(Penalty, s)), Cells(Penalty, DayOf(x, d), s);
      hours >= day && (hours == day <==> Decided(x, d, s) == 0.0 || !Resumes(x, d, s))
    {
      PenaltyInDay(x, d, s);
    }
    DaySqueeze(x, Penalty, d);
  }

  // ---------------------------------------------------------------- price moves

  function ReturnAt(s: string): View -> real { v => Return(v, s) }

  lemma {:induction false} GrossHours(x: Study, d: nat, s: string, n: nat)
    requires Aligned(x) && d < |x.daily| && n <= 24
    ensures SumBy(HoursOf(x, d)[..n], PartAt(Gross, s)) ==
            Times(Carried(x, d, s), SumBy(HoursOf(x, d)[..n], ReturnAt(s)))
  {
    hide HourOf, Aligned, Carried, Return;
    var views, k := HoursOf(x, d), Carried(x, d, s);
    if n == 0 {
      TimesSum(k, 0.0, 0.0);
    } else {
      GrossHours(x, d, s, n - 1);
      assert views[..n][..n - 1] == views[..n - 1];
      HourHeld(x, d, n - 1, s);
      TimesSum(k, SumBy(views[..n - 1], ReturnAt(s)), Return(views[n - 1], s));
    }
  }

  // ---------------------------------------------------------------- the agreement

  /** Funding, costs and penalties of a day agree, for all settlements and any cost multiplier. */
  ghost predicate PartsAgree(x: Study, d: nat) {
    && PartAgrees(x, Penalty, d)
    && (forall mult :: PartAgrees(x, Cost(mult), d))
    && forall xs: seq<Settlement> :: PartAgrees(x.(settlements := xs), Funding, d)
  }

  /** What a once-a-day book and its bars need: a weight cell is empty only where the last weight given is zero, and no
      held symbol trades again after a day without a trade. */
  ghost predicate Carries(x: Study, d: nat)
    requires d < |x.daily|
  {
    CellsGiven(x, d) && NoneResumes(x, d)
  }

  /** For any prices, the hours of every day pay the daily engine's funding, turnover costs and delisting penalty exactly
      when the book and the bars need nothing that only one engine sees. */
  lemma HourlyPartsAgree(x: Study, n: nat)
    requires Aligned(x) && n <= |x.daily|
    ensures (forall d: nat | d < n :: PartsAgree(x, d)) <==> forall d: nat | d < n :: Carries(x, d)
  {
    hide PartsAgree, Carries, Aligned;
    if forall d: nat | d < n :: Carries(x, d) {
      forall d: nat | d < n ensures PartsAgree(x, d) {
        assert Carries(x, d);
        if d > 0 {
          CarriesCells(x, d - 1);
        }
        DayAgrees(x, d);
      }
    }
    if forall d: nat | d < n :: PartsAgree(x, d) {
      forall d: nat | d < n ensures Carries(x, d) {
        assert PartsAgree(x, d);
        DayCarries(x, d);
      }
    }
  }

  lemma CarriesCells(x: Study, d: nat)
    requires d < |x.daily| && Carries(x, d)
    ensures CellsGiven(x, d)
  {
  }

  lemma DayAgrees(x: Study, d: nat)
    requires Aligned(x) && d < |x.daily| && Carries(x, d) && (d > 0 ==> CellsGiven(x, d - 1))
    ensures PartsAgree(x, d)
  {
    hide PartAgrees, Aligned, CellsGiven, NoneResumes;
    PenaltyExactly(x, d);
    FundingExactly(x, d);
    forall mult ensures PartAgrees(x, Cost(mult), d) {
      CostsAgree(x, d, mult);
    }
  }

  lemma DayCarries(x: Study, d: nat)
    requires Aligned(x) && d < |x.daily| && PartsAgree(x, d)
    ensures Carries(x, d)
  {
    hide PartAgrees, Aligned, CellsGiven, NoneResumes;
    FundingExactly(x, d);
    PenaltyExactly(x, d);
  }

  /** The costs alone agree on all days exactly when no empty cell drops a position. */
  lemma {:induction false} CostsExactly(x: Study, n: nat)
    requires Aligned(x) && n <= |x.daily|
    ensures (forall d: nat, mult | d < n :: PartAgrees(x, Cost(mult), d)) <==> forall d: nat | d < n :: CellsGiven(x, d)
  {
    hide PartAgrees, Aligned, CellsGiven;
    if n > 0 {
      CostsExactly(x, n - 1);
      if forall d: nat | d < n - 1 :: CellsGiven(x, d) {
        CostStep(x, n - 1);
      }
    }
  }

  lemma CostStep(x: Study, d: nat)
    requires Aligned(x) && d < |x.daily| && (d > 0 ==> CellsGiven(x, d - 1))
    ensures (forall mult :: PartAgrees(x, Cost(mult), d)) <==> CellsGiven(x, d)
  {
    hide PartAgrees, Aligned;
    if CellsGiven(x, d) {
      forall mult ensures PartAgrees(x, Cost(mult), d) {
        CostsAgree(x, d, mult);
      }
    } else {
      CostsDiffer(x, d);
    }
  }

  /** By how much the hours' move of a held symbol exceeds the day's, delisting move included. */
  function Gap(x: Study, d: nat): string -> real {
    s => Times(Decided(x, d, s), SumBy(HoursOf(x, d), ReturnAt(s)) - Return(DayOf(x, d), s))
  }

  ghost function BarPnlAt(mult: real): View -> real { v => BarPnl(v, mult) }

  lemma {:induction false} PnlSplits(views: seq<View>, mult: real)
    ensures SumBy(views, BarPnlAt(mult)) ==
            SumBy(views, PartSum(Gross)) + SumBy(views, PartSum(Penalty)) + SumBy(views, PartSum(Funding))
            + SumBy(views, PartSum(Cost(mult)))
  {
    if views != [] {
      PnlSplits(views[..|views| - 1], mult);
    }
  }

  lemma GapCell(x: Study, d: nat, s: string)
    requires Aligned(x) && d < |x.daily| && CellsGiven(x, d)
    ensures DayCells(Gross, HoursOf(x, d))(s) == CellsOf(Gross, DayOf(x, d))(s) + Gap(x, d)(s)
  {
    hide HourOf, DayOf, Aligned, CellsGiven, Carried, Decided, Return;
    GrossHours(x, d, s, 24);
    assert HoursOf(x, d)[..24] == HoursOf(x, d);
    CarriedCell(x, d, s);
    DayHeld(x, d, s);
    TimesSum(Decided(x, d, s), Return(DayOf(x, d), s), SumBy(HoursOf(x, d), ReturnAt(s)) - Return(DayOf(x, d), s));
  }

  lemma GrossGap(x: Study, d: nat)
    requires Aligned(x) && d < |x.daily| && CellsGiven(x, d)
    ensures SumBy(HoursOf(x, d), PartSum(Gross)) == Sum(Gross, DayOf(x, d)) + SumOver(x.columns, Gap(x, d))
  {
    hide HourOf, DayOf, Aligned, CellsGiven, Cells, Gap;
    HoursSum(x, Gross, d);
    forall s | s in x.columns
      ensures DayCells(Gross, HoursOf(x, d))(s) == CellsOf(Gross, DayOf(x, d))(s) + Gap(x, d)(s)
    {
      GapCell(x, d, s);
    }
    SumOverAdd(x.columns, CellsOf(Gross, DayOf(x, d)), Gap(x, d), DayCells(Gross, HoursOf(x, d)));
  }

  /** A once-a-day book reproduces the daily engine up to the moves: the hourly profits of a day add up to the day's plus
      what the hours' moves of the held symbols exceed the day's. */
  lemma HourlyRefinesDaily(x: Study, d: nat, mult: real)
    requires Aligned(x) && d < |x.daily| && Carries(x, d) && (d > 0 ==> CellsGiven(x, d - 1))
    ensures SumBy(HoursOf(x, d), BarPnlAt(mult)) == BarPnl(DayOf(x, d), mult) + SumOver(x.columns, Gap(x, d))
  {
    hide HourOf, DayOf, Aligned, CellsGiven, NoneResumes, Gap;
    GrossGap(x, d);
    PenaltyExactly(x, d);
    FundingAgrees(x, d);
    CostsAgree(x, d, mult);
    PnlSplits(HoursOf(x, d), mult);
  }

  /** So where the hourly moves of every held symbol add up to its daily one, the profits are equal. */
  lemma MovesAddUp(x: Study, d: nat, mult: real)
    requires Aligned(x) && d < |x.daily| && Carries(x, d) && (d > 0 ==> CellsGiven(x, d - 1))
    requires forall s :: s in x.columns && Decided(x, d, s) != 0.0 ==>
               SumBy(HoursOf(x, d), ReturnAt(s)) == Return(DayOf(x, d), s)
    ensures SumBy(HoursOf(x, d), BarPnlAt(mult)) == BarPnl(DayOf(x, d), mult)
  {
    hide HourOf, DayOf, Aligned, Carries, CellsGiven, Return, BarPnl;
    HourlyRefinesDaily(x, d, mult);
    forall s | s in x.columns ensures Gap(x, d)(s) == 0.0 {
      TimesUnit(Decided(x, d, s));
      TimesUnit(SumBy(HoursOf(x, d), ReturnAt(s)) - Return(DayOf(x, d), s));
    }
    NoSum(x.columns, Gap(x, d));
  }

  // ---------------------------------------------------------------- where the engines part

  const BAR := Bar(1.0, 1.0, 1.0, 1.0, 1.0)

  /** "A" with these weights, traded in every hour of these days. */
  function OnDays(daily: seq<Row>, traded: seq<bool>): Study
    requires |daily| == |traded|
  {
    Study({"A"}, daily,
          seq(24 * |daily|, h requires 0 <= h < 24 * |daily| => if h % 24 == 23 then daily[h / 24] else map[]),
          seq(24 * |daily|, h requires 0 <= h < 24 * |daily| => if traded[h / 24] then map["A" := BAR] else map[]),
          seq(|daily|, d requires 0 <= d < |daily| => if traded[d] then map["A" := BAR] else map[]), [], [])
  }

  lemma OnDaysAligned(daily: seq<Row>, traded: seq<bool>)
    requires |daily| == |traded| && forall d :: 0 <= d < |daily| ==> daily[d].Keys <= {"A"}
    ensures Aligned(OnDays(daily, traded))
  {
    var x := OnDays(daily, traded);
    forall d | 0 <= d < |daily| ensures x.hourly[24 * d + 23] == x.daily[d] {
      DivMod(d, 23);
    }
    forall d | 0 <= d < |daily| ensures "A" in x.bars[d] <==> TradedIn(x.raw, "A", 24 * d, 24 * d + 24) {
      forall h | 24 * d <= h < 24 * d + 24 ensures "A" in x.raw[h] <==> traded[d] {
        DivMod(d, h - 24 * d);
      }
      assert "A" in x.raw[24 * d] <==> traded[d];
    }
  }

  /** A held symbol without a trade on the third of five days: the daily engine charges the delisting penalty on the
      second, the hours of no day do. */
  lemma MissingDay()
    ensures var held: Row := map["A" := 1.0];
      var x := OnDays([held, held, held, held, held], [true, true, false, true, true]);
      Aligned(x) && CellsGiven(x, 1) && !PartAgrees(x, Penalty, 1)
  {
    var held: Row := map["A" := 1.0];
    var x := OnDays([held, held, held, held, held], [true, true, false, true, true]);
    OnDaysAligned([held, held, held, held, held], [true, true, false, true, true]);
    DayBars(x, 1, "A");
    assert "A" in x.bars[3];
    assert Resumes(x, 1, "A");
    assert Decided(x, 1, "A") == 1.0;
    PenaltyExactly(x, 1);
  }

  /** A second row that omits a held symbol: the daily engine closes the position and pays for it, the hourly one keeps
      it. */
  lemma OmittedSymbol()
    ensures var x := OnDays([map["A" := 1.0], map[], map[]], [true, true, true]);
      Aligned(x) && Cell(DayOf(x, 2).held, "A") == 0.0 && Cell(HourOf(x, 48).held, "A") == 1.0 &&
      !PartAgrees(x, Cost(1.0), 2)
  {
    var daily: seq<Row> := [map["A" := 1.0], map[], map[]];
    var x := OnDays(daily, [true, true, true]);
    OnDaysAligned(daily, [true, true, true]);
    assert Given(x.daily, 1, "A") == Some(1.0);
    assert Given(x.daily, 2, "A") == Some(1.0);
    HourHeld(x, 2, 0, "A");
    assert CellsGiven(x, 1);
    assert !CellsGiven(x, 2);
    CostsDiffer(x, 2);
  }
}
