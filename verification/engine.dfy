/** Sums over the columns of a table row. */
module Sums {
  import opened Lists

  ghost function SumOver<T(!new)>(s: set<T>, f: T -> real): real {
    if s == {} then 0.0 else
    var x :| x in s;
    f(x) + SumOver(s - {x}, f)
  }

  lemma {:induction false} SumOverRemove<T(!new)>(s: set<T>, x: T, f: T -> real)
    requires x in s
    ensures SumOver(s, f) == f(x) + SumOver(s - {x}, f)
  {
    var y :| y in s && SumOver(s, f) == f(y) + SumOver(s - {y}, f);
    if x != y {
      SumOverRemove(s - {y}, x, f);
      SumOverRemove(s - {x}, y, f);
      assert s - {y} - {x} == s - {x} - {y};
    }
  }

  lemma {:induction false} SumOverAdd<T(!new)>(s: set<T>, f: T -> real, g: T -> real, h: T -> real)
    requires forall x :: x in s ==> h(x) == f(x) + g(x)
    ensures SumOver(s, h) == SumOver(s, f) + SumOver(s, g)
  {
    if s != {} {
      var x :| x in s;
      SumOverAdd(s - {x}, f, g, h);
      SumOverRemove(s, x, f);
      SumOverRemove(s, x, g);
      SumOverRemove(s, x, h);
    }
  }

  lemma {:induction false} SumOverSame<T(!new)>(s: set<T>, f: T -> real, g: T -> real)
    requires forall x :: x in s ==> f(x) == g(x)
    ensures SumOver(s, f) == SumOver(s, g)
  {
    if s != {} {
      var x :| x in s;
      SumOverSame(s - {x}, f, g);
      SumOverRemove(s, x, f);
      SumOverRemove(s, x, g);
    }
  }

  /** A sum with a single summand other than zero. */
  lemma {:induction false} SumOverOne<T(!new)>(s: set<T>, x: T, f: T -> real)
    requires x in s && forall y :: y in s && y != x ==> f(y) == 0.0
    ensures SumOver(s, f) == f(x)
  {
    SumOverRemove(s, x, f);
    SumOverSupport({}, s - {x}, f);
  }

  /** Multiplying every summand multiplies the sum. */
  lemma {:induction false} SumOverTimes<T(!new)>(s: set<T>, f: T -> real, g: T -> real, k: real)
    requires forall x :: x in s ==> f(x) == Times(g(x), k)
    ensures SumOver(s, f) == Times(SumOver(s, g), k)
  {
    if s != {} {
      var x :| x in s;
      SumOverTimes(s - {x}, f, g, k);
      SumOverRemove(s, x, f);
      SumOverRemove(s, x, g);
      TimesOfSum(g(x), SumOver(s - {x}, g), k);
    }
  }

  lemma TimesOfSum(x: real, y: real, k: real)
    ensures Times(x + y, k) == Times(x, k) + Times(y, k)
  {
  }

  /** Of two sums with ordered summands, the sums are equal exactly when the summands are. */
  lemma {:induction false} SumOverSqueeze<T(!new)>(s: set<T>, f: T -> real, g: T -> real)
    requires forall x :: x in s ==> f(x) >= g(x)
    ensures SumOver(s, f) >= SumOver(s, g)
    ensures SumOver(s, f) == SumOver(s, g) <==> forall x :: x in s ==> f(x) == g(x)
  {
    if s != {} {
      var x :| x in s;
      SumOverSqueeze(s - {x}, f, g);
      SumOverRemove(s, x, f);
      SumOverRemove(s, x, g);
      assert forall y :: y in s ==> y == x || y in s - {x};
    }
  }

  /** Columns on which the summand is zero can be left out. */
  lemma {:induction false} SumOverSupport<T(!new)>(s: set<T>, t: set<T>, f: T -> real)
    requires s <= t && forall x :: x in t && x !in s ==> f(x) == 0.0
    ensures SumOver(t, f) == SumOver(s, f)
  {
    if s == t {
      return;
    }
    var x :| x in t && x !in s;
    SumOverRemove(t, x, f);
    SumOverSupport(s, t - {x}, f);
  }
}

/** The portfolio engine bt.run (research/strategy_search/bt.py:63-90), one bar at a time.
    A table row is a map: a missing key is an empty cell, and an empty weight counts as zero. */
module Engine {
  import opened Lists
  import opened Sums

  type Price = r: real | r > 0.0 witness 1.0
  /** open, high, low and close of one bar exist together; volume is the quote volume. */
  datatype Bar = Bar(open: Price, high: Price, low: Price, close: Price, volume: real)
  type BarRow = map<string, Bar>
  type Row = map<string, real>

  const FEE := 0.0005
  const DELIST_PENALTY := 0.02
  const SLIP_DEFAULT := 0.0025

  function Cell(row: Row, s: string): real {
    if s in row then row[s] else 0.0
  }

  /** A table shifted by some rows, with empty rows outside it. */
  function RowAt<T>(rows: seq<map<string, T>>, t: int): map<string, T> {
    if 0 <= t < |rows| then rows[t] else map[]
  }

  /** The tier of the trailing median quote volume: later assignments overwrite earlier ones. */
  function Slippage(median: Row, s: string): real {
    var base := 0.0025;
    var a := if s in median && median[s] > 50000000.0 then 0.0010 else base;
    var b := if s in median && median[s] > 200000000.0 then 0.0005 else a;
    if s in median && median[s] > 1000000000.0 then 0.0002 else b
  }

  /** What one bar of the engine reads: the position held during it and the one before, this bar, the next bar,
      the rates settled in it and the slippage known before it (an empty cell pays the default). */
  datatype View = View(held: Row, before: Row, bars: BarRow, next: BarRow, rates: Row, slip: Row)

  /** The symbol has a bar now and none next. */
  predicate Ends(v: View, s: string) { s in v.bars && s !in v.next }

  /** Open to next open; at the end of the data, open to the last close. */
  function Return(v: View, s: string): real {
    if s !in v.bars then 0.0
    else if s in v.next then v.next[s].open / v.bars[s].open - 1.0
    else v.bars[s].close / v.bars[s].open - 1.0
  }

  /** The four parts of a bar's profit. */
  datatype Part = Gross | Penalty | Funding | Cost(mult: real)

  function Cells(p: Part, v: View, s: string): real {
    match p
    case Gross => Times(Cell(v.held, s), Return(v, s))
    case Penalty => if Ends(v, s) then -(Abs(Cell(v.held, s)) * DELIST_PENALTY) else 0.0
    case Funding => -Times(Cell(v.held, s), Cell(v.rates, s))
    case Cost(mult) =>
      -Times(Times(Abs(Cell(v.held, s) - Cell(v.before, s)), FEE + if s in v.slip then v.slip[s] else SLIP_DEFAULT), mult)
  }

  function CellsOf(p: Part, v: View): string -> real { s => Cells(p, v, s) }

  function Columns(v: View): set<string> { v.held.Keys + v.before.Keys }

  /** The sum over the columns of one part. */
  ghost function Sum(p: Part, v: View): real { SumOver(Columns(v), CellsOf(p, v)) }

  ghost function BarPnl(v: View, mult: real): real {
    Sum(Gross, v) + Sum(Penalty, v) + Sum(Funding, v) + Sum(Cost(mult), v)
  }

  /** Any wider set of columns gives the same sum: the other cells are zero. */
  lemma SumWide(p: Part, v: View, columns: set<string>)
    requires Columns(v) <= columns
    ensures SumOver(columns, CellsOf(p, v)) == Sum(p, v)
  {
    forall s | s in columns && s !in Columns(v) ensures CellsOf(p, v)(s) == 0.0 {
    }
    SumOverSupport(Columns(v), columns, CellsOf(p, v));
  }

  /** The tiers of the traded symbols, from the medians of the day before; none on the first day. */
  function TierRow(medians: seq<Row>, t: int, symbols: set<string>): Row {
    if 0 <= t < |medians| then map s | s in symbols :: Slippage(medians[t], s) else map[]
  }

  /** Day t of bt.run: weights decided at the close of t - 1 are held from open t to open t + 1. */
  function DayView(weights: seq<Row>, bars: seq<BarRow>, funding: seq<Row>, medians: seq<Row>, t: nat): View {
    var held, before := RowAt(weights, t - 1), RowAt(weights, t - 2);
    View(held, before, RowAt(bars, t), RowAt(bars, t + 1), RowAt(funding, t),
         TierRow(medians, t - 1, held.Keys + before.Keys))
  }

  ghost function RunDay(weights: seq<Row>, bars: seq<BarRow>, funding: seq<Row>, medians: seq<Row>, mult: real, t: nat): real {
    BarPnl(DayView(weights, bars, funding, medians, t), mult)
  }

  /** The price move that a position holds through a bar: to the next open, or on the last bar to the close. */
  predicate Moves(bars: BarRow, next: BarRow, s: string, move: real) {
    if s !in bars then move == 0.0
    else if s in next then Times(bars[s].open, 1.0 + move) == next[s].open
    else Times(bars[s].open, 1.0 + move) == bars[s].close
  }

  /** Slippage falls with the median volume: 25 basis points, 10 above 50 million, 5 above 200, 2 above a billion. */
  predicate Slips(median: Row, s: string, slip: real) {
    var m := if s in median then median[s] else 0.0;
    && (m <= 50_000_000.0 ==> slip == 0.0025)
    && (50_000_000.0 < m <= 200_000_000.0 ==> slip == 0.001)
    && (200_000_000.0 < m <= 1_000_000_000.0 ==> slip == 0.0005)
    && (1_000_000_000.0 < m ==> slip == 0.0002)
  }

  lemma ReturnMoves(v: View, s: string)
    ensures Moves(v.bars, v.next, s, Return(v, s))
  {
    if s in v.bars {
      var open: real := v.bars[s].open;
      QuotientMoves(open, if s in v.next then v.next[s].open else v.bars[s].close);
    }
  }

  lemma QuotientMoves(x: real, y: real)
    requires x > 0.0
    ensures Times(x, 1.0 + (y / x - 1.0)) == y
  {
    assert x * (y / x) == y;
  }

  lemma SumOfOne(p: Part, v: View, s: string)
    requires Columns(v) <= {s}
    ensures Sum(p, v) == Cells(p, v, s)
  {
    SumWide(p, v, {s});
    SumOverOne({s}, s, CellsOf(p, v));
  }

  /** A day of a book in one symbol: the weight of the row before earns the price's move, pays the settled rate, and a
      fiftieth of its size on the symbol's last bar; every change of the weight pays the fee and yesterday's slippage. */
  lemma DayOfOne(weights: seq<Row>, bars: seq<BarRow>, funding: seq<Row>, medians: seq<Row>, mult: real, t: nat, s: string)
    returns (move: real, slip: real)
    requires RowAt(weights, t - 1).Keys <= {s} && RowAt(weights, t - 2).Keys <= {s}
    ensures Moves(RowAt(bars, t), RowAt(bars, t + 1), s, move) && Slips(RowAt(medians, t - 1), s, slip)
    ensures var w, u, rate := Cell(RowAt(weights, t - 1), s), Cell(RowAt(weights, t - 2), s), Cell(RowAt(funding, t), s);
      RunDay(weights, bars, funding, medians, mult, t) ==
      Times(w, move) - (if s in RowAt(bars, t) && s !in RowAt(bars, t + 1) then Abs(w) * 0.02 else 0.0)
      - Times(w, rate) - Times(Times(Abs(w - u), 0.0005 + slip), mult)
  {
    var v := DayView(weights, bars, funding, medians, t);
    move, slip := Return(v, s), if s in v.slip then v.slip[s] else SLIP_DEFAULT;
    ReturnMoves(v, s);
    SumOfOne(Gross, v, s);
    SumOfOne(Penalty, v, s);
    SumOfOne(Funding, v, s);
    SumOfOne(Cost(mult), v, s);
    if s !in v.slip && s !in v.held && s !in v.before {
      slip := Slippage(RowAt(medians, t - 1), s);
    }
  }

  // ---------------------------------------------------------------- stop days

  function OpenToOpen(bars: BarRow, next: BarRow, s: string): real {
    if s in bars && s in next then next[s].open / bars[s].open - 1.0 else 0.0
  }

  /** bt_listing.run_with_override: on a stop day the open-to-stop return replaces the open-to-open one. */
  function Fix(v: View, override: Row): string -> real {
    s => if s in override then Times(Cell(v.held, s), override[s] - OpenToOpen(v.bars, v.next, s)) else 0.0
  }

  ghost function OverriddenPnl(v: View, override: Row): real {
    BarPnl(v, 1.0) + SumOver(override.Keys, Fix(v, override))
  }

  ghost function RunDayOverridden(weights: seq<Row>, override: seq<Row>, bars: seq<BarRow>, funding: seq<Row>,
                                  medians: seq<Row>, t: nat): real {
    OverriddenPnl(DayView(weights, bars, funding, medians, t), RowAt(override, t))
  }

  /** The gross cell with the stop return in place of the day's. */
  function Stopped(v: View, override: Row): string -> real {
    s => Times(Cell(v.held, s), if s in override then override[s] else Return(v, s))
  }

  /** What stays of the last close when a stop falls on a symbol's last bar. */
  function LastMove(v: View, override: Row): string -> real {
    s => if s in override && Ends(v, s) then Times(Cell(v.held, s), Return(v, s)) else 0.0
  }

  lemma TimesAdd(x: real, y: real, z: real)
    ensures Times(x, y) + Times(x, z) == Times(x, y + z)
  {
  }

  lemma StoppedCell(v: View, override: Row, s: string)
    ensures CellsOf(Gross, v)(s) + Fix(v, override)(s) == Stopped(v, override)(s) + LastMove(v, override)(s)
  {
    if s in override {
      TimesAdd(Cell(v.held, s), Return(v, s), override[s] - OpenToOpen(v.bars, v.next, s));
      TimesAdd(Cell(v.held, s), Return(v, s), override[s]);
    }
  }

  function Corrected(v: View, override: Row): string -> real { s => CellsOf(Gross, v)(s) + Fix(v, override)(s) }

  /** A bar's profit with the stop returns in place of the day's. */
  ghost function Substituted(v: View, override: Row): real {
    SumOver(Columns(v) + override.Keys, Stopped(v, override)) + Sum(Penalty, v) + Sum(Funding, v) + Sum(Cost(1.0), v)
  }

  /** Replacing the return by a correction substitutes the stop return exactly, except on a symbol's last bar: there the
      move to the last close is counted as well. */
  lemma OverrideSubstitutes(v: View, override: Row)
    ensures OverriddenPnl(v, override) == Substituted(v, override) + SumOver(override.Keys, LastMove(v, override))
  {
    var wide := Columns(v) + override.Keys;
    SumWide(Gross, v, wide);
    SumOverSupport(override.Keys, wide, Fix(v, override));
    SumOverSupport(override.Keys, wide, LastMove(v, override));
    forall s | s in wide ensures Corrected(v, override)(s) == Stopped(v, override)(s) + LastMove(v, override)(s) {
      StoppedCell(v, override, s);
    }
    hide Fix, Stopped, LastMove, Cells, CellsOf;
    SumOverAdd(wide, CellsOf(Gross, v), Fix(v, override), Corrected(v, override));
    SumOverAdd(wide, Stopped(v, override), LastMove(v, override), Corrected(v, override));
  }

  ghost predicate Substitutes(v: View, override: Row) { OverriddenPnl(v, override) == Substituted(v, override) }

  /** The substitution is exact for every book exactly when no stop falls on a symbol's last bar that closes away from
      its open. */
  lemma OverrideExactly(v: View, override: Row)
    ensures (forall held :: Substitutes(v.(held := held), override)) <==>
            forall s :: s in override && Ends(v, s) ==> v.bars[s].close == v.bars[s].open
  {
    hide Substituted, OverriddenPnl;
    if forall s :: s in override && Ends(v, s) ==> v.bars[s].close == v.bars[s].open {
      forall held ensures Substitutes(v.(held := held), override) {
        OverrideSubstitutes(v.(held := held), override);
        forall s ensures LastMove(v.(held := held), override)(s) == 0.0 {
          TimesZero(Cell(held, s));
        }
        NoSum(override.Keys, LastMove(v.(held := held), override));
      }
    } else {
      var s :| s in override && Ends(v, s) && v.bars[s].close != v.bars[s].open;
      var one := v.(held := map[s := 1.0]);
      OverrideSubstitutes(one, override);
      OneMove(one, override, s);
      assert !Substitutes(one, override);
    }
  }

  lemma TimesZero(x: real)
    ensures Times(x, 0.0) == Times(0.0, x) == 0.0 && Times(1.0, x) == x
  {
  }

  lemma NoSum(s: set<string>, f: string -> real)
    requires forall x :: x in s ==> f(x) == 0.0
    ensures SumOver(s, f) == 0.0
  {
    SumOverSupport({}, s, f);
  }

  /** With one symbol held, what stays of the last closes is that symbol's move. */
  lemma OneMove(v: View, override: Row, s: string)
    requires s in override && Ends(v, s) && v.bars[s].close != v.bars[s].open
    requires forall t :: Cell(v.held, t) != 0.0 <==> t == s
    ensures SumOver(override.Keys, LastMove(v, override)) == Times(Cell(v.held, s), Return(v, s)) != 0.0
  {
    forall t | t in override.Keys && t != s ensures LastMove(v, override)(t) == 0.0 {
      TimesZero(Return(v, t));
    }
    SumOverOne(override.Keys, s, LastMove(v, override));
    var close: real, open: real := v.bars[s].close, v.bars[s].open;
    NotUnit(close, open);
    NonZero(Cell(v.held, s), Return(v, s));
  }

  lemma NotUnit(x: real, y: real)
    requires y > 0.0 && x != y
    ensures x / y != 1.0
  {
    assert x / y * y == x;
  }

  lemma NonZero(x: real, y: real)
    requires x != 0.0 && y != 0.0
    ensures Times(x, y) != 0.0
  {
  }
}
