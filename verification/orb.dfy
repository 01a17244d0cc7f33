/** The opening-range breakout: the exit of one session and the daily allocation of risk and cash
    (research/orb_us_stocks/bt_orb.py:54-72, 95-138, 180-206). Bars are numbered from 0 within the session. */
module OpeningRange {
  import opened Lists
  import opened Sorting
  import Sweep = SweepLine

  type Price = r: real | r > 0.0 witness 1.0

  datatype Bar = Bar(open: Price, high: Price, low: Price, close: Price, volume: real)

  datatype Flat = AtOpen | AtClose

  datatype Layout = Layout(minutes: nat, rangeBars: nat, lastTriggerEnd: nat, flat: Flat, last: nat, bars: nat)

  /** What both grids of the study have in common: there is a range, and the day is flat at its last bar. */
  type Grid = g: Layout | 0 < g.rangeBars < g.bars && g.last == g.bars - 1 witness Layout(60, 1, 360, AtClose, 6, 7)

  const GRID5: Grid := Layout(5, 3, 360, AtOpen, 77, 78)
  const GRID60: Grid := Layout(60, 1, 360, AtClose, 6, 7)

  const MIN_RISK: real := 0.0005

  function MaxHigh(bars: seq<Bar>): real
    requires bars != []
  {
    if |bars| == 1 then bars[0].high else MaxReal(MaxHigh(bars[..|bars| - 1]), bars[|bars| - 1].high)
  }

  function MinLow(bars: seq<Bar>): (r: real)
    requires bars != []
    ensures r > 0.0
  {
    if |bars| == 1 then bars[0].low else MinReal(MinLow(bars[..|bars| - 1]), bars[|bars| - 1].low)
  }

  function Volume(): Bar -> real { (b: Bar) => b.volume }

  function DollarVolume(): Bar -> real { (b: Bar) => Times(b.close, b.volume) }

  /** Down to a whole cent. */
  function FloorCents(x: real): real { (x * 100.0).Floor as real / 100.0 }

  /** To the nearest cent, an exact half to the even one. */
  function RoundCents(x: real): real {
    var low := (x * 100.0).Floor;
    var over := x * 100.0 - low as real;
    (if over < 0.5 || (over == 0.5 && low % 2 == 0) then low else low + 1) as real / 100.0
  }

  /** Rounding to cents does not pass a whole number of cents. */
  lemma RoundKeepsFloor(x: real, y: real)
    requires FloorCents(y) <= x
    ensures FloorCents(y) <= RoundCents(x)
  {
    var c := (y * 100.0).Floor;
    assert c as real <= x * 100.0;
    assert c <= (x * 100.0).Floor;
  }

  // ---------------------------------------------------------------- one session

  datatype Trade = Trade(k: nat, entry: Price, stop: real, fill: Price, exit: real, exitK: nat,
                         r: real, pnlShare: real, riskShare: real, rangeVol: real, rangeDv: real)

  /** The trades trade() can return: the fill lies above the stop. */
  type Live = t: Trade | t.fill > t.stop && t.riskShare == MaxReal(t.entry, t.fill) - t.stop
    witness Trade(0, 2.0, 1.0, 2.0, 2.0, 1, 0.0, 0.0, 1.0, 0.0, 0.0)

  /** Bar k is the first after the range to close above it, early enough in the day. */
  ghost predicate Triggers(bars: seq<Bar>, g: Grid, k: nat)
    requires |bars| == g.bars
  {
    var top := MaxHigh(bars[..g.rangeBars]);
    && g.rangeBars <= k < g.bars - 1
    && (k + 1) * g.minutes <= g.lastTriggerEnd
    && bars[k].close > top
    && forall j :: g.rangeBars <= j < k ==> bars[j].close <= top
  }

  function Stop(bars: seq<Bar>, g: Grid): real
    requires |bars| == g.bars
  {
    var range := bars[..g.rangeBars];
    FloorCents((MaxHigh(range) + MinLow(range)) / 2.0)
  }

  /** A triggered session is traded unless the risk is too small or the next bar opens through the stop. */
  predicate Accepted(bars: seq<Bar>, g: Grid, k: nat)
    requires |bars| == g.bars && k < g.bars - 1
  {
    var entry, stop := bars[k].close, Stop(bars, g);
    entry - stop >= MIN_RISK * entry && bars[k + 1].open > stop
  }

  /** The price at which a position filled at bar k + 1 leaves in bar j, if it does. */
  function ExitAt(bars: seq<Bar>, g: Grid, k: nat, stop: real, target: real, j: nat): Option<real>
    requires j < |bars|
  {
    var b := bars[j];
    if g.flat == AtOpen && j == g.last then Some(b.open)
    else if j > k + 1 && b.open <= stop then Some(b.open)
    else if b.low <= stop then Some(stop)
    else if j > k + 1 && b.open >= target then Some(b.open)
    else if b.high >= target then Some(target)
    else if g.flat == AtClose && j == g.last then Some(b.close)
    else None
  }

  /** What the returned record says about the session it came from. */
  ghost predicate Describes(bars: seq<Bar>, g: Grid, cost: real, t: Trade)
    requires |bars| == g.bars
  {
    && Triggers(bars, g, t.k) && Accepted(bars, g, t.k)
    && t.entry == bars[t.k].close && t.fill == bars[t.k + 1].open && t.stop == Stop(bars, g)
    && var target := RoundCents(t.entry + 2.0 * (t.entry - t.stop));
    && t.k + 1 <= t.exitK < g.bars
    && ExitAt(bars, g, t.k, t.stop, target, t.exitK) == Some(t.exit)
    && (forall j :: t.k + 1 <= j < t.exitK ==> ExitAt(bars, g, t.k, t.stop, target, j).None?)
    && t.pnlShare == Times(t.exit, 1.0 - cost) - Times(t.fill, 1.0 + cost)
    && t.riskShare == MaxReal(t.entry, t.fill) - t.stop
    && t.r == Ratio(t.pnlShare, t.entry - t.stop)
    && t.rangeVol == SumBy(bars[..g.rangeBars], Volume())
    && t.rangeDv == SumBy(bars[..g.rangeBars], DollarVolume())
  }

  function Ratio(x: real, y: real): real { if y == 0.0 then 0.0 else x / y }

  /** The first trigger of a session that is not too late, if any. */
  method FindTrigger(bars: seq<Bar>, g: Grid) returns (found: Option<nat>)
    requires |bars| == g.bars
    ensures found.Some? ==> Triggers(bars, g, found.value)
    ensures found.None? ==> forall k :: !Triggers(bars, g, k)
  {
    var top := MaxHigh(bars[..g.rangeBars]);
    for k := g.rangeBars to g.bars - 1
      invariant forall j :: g.rangeBars <= j < k ==> bars[j].close <= top
    {
      if (k + 1) * g.minutes > g.lastTriggerEnd {
        forall m: nat ensures !Triggers(bars, g, m) {
          if m >= k {
            assert (m + 1) * g.minutes >= (k + 1) * g.minutes;
          }
        }
        return None;
      }
      if bars[k].close > top {
        return Some(k);
      }
    }
    return None;
  }

  /** trade(): a record exactly for the sessions with an accepted trigger; a filled position always leaves. */
  method TradeSession(bars: seq<Bar>, g: Grid, cost: real) returns (result: Option<Live>)
    requires |bars| == g.bars
    ensures result.Some? <==> exists k :: Triggers(bars, g, k) && Accepted(bars, g, k)
    ensures result.Some? ==> Describes(bars, g, cost, result.value)
  {
    var found := FindTrigger(bars, g);
    if found.None? {
      return None;
    }
    var k := found.value;
    assert forall m :: Triggers(bars, g, m) ==> m == k;
    var range := bars[..g.rangeBars];
    var entry := bars[k].close;
    var stop := Stop(bars, g);
    var risk := entry - stop;
    if risk < MIN_RISK * entry {
      return None;
    }
    var target := RoundCents(entry + 2.0 * risk);
    var fill := bars[k + 1].open;
    if fill <= stop {
      return None;
    }
    var exit, exitK := FindExit(bars, g, k, stop, target);
    var pnl := Times(exit, 1.0 - cost) - Times(fill, 1.0 + cost);
    var t := Trade(k, entry, stop, fill, exit, exitK, Ratio(pnl, risk), pnl, MaxReal(entry, fill) - stop,
                   SumBy(range, Volume()), SumBy(range, DollarVolume()));
    result := Some(t);
  }

  /** The scan for the exit ends inside the session. */
  method FindExit(bars: seq<Bar>, g: Grid, k: nat, stop: real, target: real) returns (exit: real, exitK: nat)
    requires |bars| == g.bars && k < g.bars - 1
    ensures k + 1 <= exitK < g.bars
    ensures ExitAt(bars, g, k, stop, target, exitK) == Some(exit)
    ensures forall j :: k + 1 <= j < exitK ==> ExitAt(bars, g, k, stop, target, j).None?
  {
    exitK := k + 1;
    while ExitAt(bars, g, k, stop, target, exitK).None?
      invariant k + 1 <= exitK < g.bars
      invariant forall j :: k + 1 <= j < exitK ==> ExitAt(bars, g, k, stop, target, j).None?
      decreases g.bars - exitK
    {
      assert exitK != g.last;
      exitK := exitK + 1;
    }
    exit := ExitAt(bars, g, k, stop, target, exitK).value;
  }

  /** The close of a bar is not below its low. */
  predicate Sane(bars: seq<Bar>) { forall i :: 0 <= i < |bars| ==> bars[i].low <= bars[i].close }

  /** The stop is exact: a position leaves below it only by opening below it in a later bar than the fill's. */
  lemma BelowStopOnlyByGap(bars: seq<Bar>, g: Grid, cost: real, t: Trade)
    requires |bars| == g.bars && Sane(bars) && Describes(bars, g, cost, t)
    ensures t.exit < t.stop <==> t.exitK > t.k + 1 && bars[t.exitK].open < t.stop
  {
    var range := bars[..g.rangeBars];
    var risk := t.entry - t.stop;
    assert risk >= 0.0;
    RoundKeepsFloor(t.entry + 2.0 * risk, (MaxHigh(range) + MinLow(range)) / 2.0);
  }

  // ---------------------------------------------------------------- what a trade is

  /** Price x is the highest high, and y the lowest low, of the first n bars. */
  ghost predicate RangeOf(bars: seq<Bar>, n: nat, x: real, y: real)
    requires n <= |bars|
  {
    && (exists i :: 0 <= i < n && bars[i].high == x) && (forall i :: 0 <= i < n ==> bars[i].high <= x)
    && (exists i :: 0 <= i < n && bars[i].low == y) && forall i :: 0 <= i < n ==> y <= bars[i].low
  }

  lemma {:induction false} RangeMeaning(bars: seq<Bar>, n: nat)
    requires 0 < n <= |bars|
    ensures RangeOf(bars, n, MaxHigh(bars[..n]), MinLow(bars[..n]))
  {
    if n > 1 {
      RangeMeaning(bars, n - 1);
      assert bars[..n][..n - 1] == bars[..n - 1];
      assert bars[n - 1].high == bars[..n][n - 1].high && bars[n - 1].low == bars[..n][n - 1].low;
      var i :| 0 <= i < n - 1 && bars[i].high == MaxHigh(bars[..n - 1]);
      var j :| 0 <= j < n - 1 && bars[j].low == MinLow(bars[..n - 1]);
      assert MaxHigh(bars[..n]) == MaxReal(bars[i].high, bars[n - 1].high);
      assert MinLow(bars[..n]) == MinReal(bars[j].low, bars[n - 1].low);
    }
  }

  /** A trigger is the first bar behind the range to close above all its highs, and it ends early enough. */
  lemma TriggerMeaning(bars: seq<Bar>, g: Grid, k: nat)
    requires |bars| == g.bars
    ensures Triggers(bars, g, k) <==>
              (g.rangeBars <= k < g.bars - 1 && (k + 1) * g.minutes <= g.lastTriggerEnd &&
               (forall i :: 0 <= i < g.rangeBars ==> bars[i].high < bars[k].close) &&
               forall j :: g.rangeBars <= j < k ==> exists i :: 0 <= i < g.rangeBars && bars[j].close <= bars[i].high)
  {
    RangeMeaning(bars, g.rangeBars);
    var top :| 0 <= top < g.rangeBars && bars[top].high == MaxHigh(bars[..g.rangeBars]);
    hide MaxHigh;
  }

  predicate WholeCents(x: real) { (x * 100.0).Floor as real == x * 100.0 }

  lemma WholeFloor(x: real, n: int)
    requires x * 100.0 == n as real
    ensures WholeCents(x) && (x * 100.0).Floor == n
  {
  }

  lemma CentsMeaning(x: real)
    ensures WholeCents(FloorCents(x)) && FloorCents(x) <= x < FloorCents(x) + 0.01
    ensures WholeCents(RoundCents(x)) && Abs(RoundCents(x) - x) <= 0.005
    ensures Abs(RoundCents(x) - x) == 0.005 ==> (RoundCents(x) * 100.0).Floor % 2 == 0
  {
    var low := (x * 100.0).Floor;
    WholeFloor(FloorCents(x), low);
    if RoundCents(x) * 100.0 == low as real {
      WholeFloor(RoundCents(x), low);
    } else {
      WholeFloor(RoundCents(x), low + 1);
    }
  }

  /** The stop is the middle of the range, down to a whole cent. */
  lemma StopMeaning(bars: seq<Bar>, g: Grid, high: real, low: real)
    requires |bars| == g.bars && RangeOf(bars, g.rangeBars, high, low)
    ensures var stop := Stop(bars, g);
      WholeCents(stop) && stop <= (high + low) / 2.0 < stop + 0.01
  {
    RangeMeaning(bars, g.rangeBars);
    var range := bars[..g.rangeBars];
    CentsMeaning((MaxHigh(range) + MinLow(range)) / 2.0);
    hide MaxHigh, MinLow, FloorCents, WholeCents;
  }

  /** What a record earns: it risks at least a two-thousandth of the entry, pays its cost on both prices, and its risk
      share covers a loss down to the stop from the entry and from the fill. */
  lemma TradeMeaning(bars: seq<Bar>, g: Grid, cost: real, t: Trade)
    requires |bars| == g.bars && Describes(bars, g, cost, t)
    ensures t.entry == bars[t.k].close && t.fill == bars[t.k + 1].open > t.stop && t.stop == Stop(bars, g)
    ensures t.entry - t.stop >= Times(0.0005, t.entry) && Times(t.r, t.entry - t.stop) == t.pnlShare
    ensures t.pnlShare == t.exit - t.fill - cost * (t.exit + t.fill)
    ensures t.riskShare >= t.entry - t.stop && t.riskShare >= t.fill - t.stop
  {
    hide RoundCents, Triggers, Stop, Ratio, ExitAt;
    assert t.entry - t.stop > 0.0;
    RatioMeaning(t.pnlShare, t.entry - t.stop);
    NetOfCost(t.exit, t.fill, cost);
  }

  /** How a record leaves: the target is twice the risk above the entry, in whole cents, and every bar from the fill to
      the exit stays strictly between stop and target. The exit is the open, when the day ends there or a bar after the
      fill's opens beyond a level; else the stop, if touched; else the target, if touched; else the last close. */
  lemma ExitMeaning(bars: seq<Bar>, g: Grid, cost: real, t: Trade) returns (target: real)
    requires |bars| == g.bars && Describes(bars, g, cost, t)
    ensures WholeCents(target) && Abs(target - (t.entry + 2.0 * (t.entry - t.stop))) <= 0.005
    ensures t.k < t.exitK < g.bars && Leaves(bars, g, t, target)
  {
    hide Triggers, Accepted, Stop, Ratio, ExitAt, Leaves, Times;
    target := RoundCents(t.entry + 2.0 * (t.entry - t.stop));
    CentsMeaning(t.entry + 2.0 * (t.entry - t.stop));
    ExitLeaves(bars, g, t, target);
  }

  lemma RatioMeaning(x: real, y: real)
    requires y != 0.0
    ensures Times(Ratio(x, y), y) == x
  {
  }

  lemma NetOfCost(exit: real, fill: real, cost: real)
    ensures Times(exit, 1.0 - cost) - Times(fill, 1.0 + cost) == exit - fill - cost * (exit + fill)
  {
  }

  lemma ExitLeaves(bars: seq<Bar>, g: Grid, t: Trade, target: real)
    requires |bars| == g.bars && t.k + 1 <= t.exitK < g.bars
    requires ExitAt(bars, g, t.k, t.stop, target, t.exitK) == Some(t.exit)
    requires forall j :: t.k + 1 <= j < t.exitK ==> ExitAt(bars, g, t.k, t.stop, target, j).None?
    ensures Leaves(bars, g, t, target)
  {
    forall j | t.k < j < t.exitK ensures t.stop < bars[j].low && bars[j].high < target {
      assert ExitAt(bars, g, t.k, t.stop, target, j).None?;
    }
  }

  predicate Leaves(bars: seq<Bar>, g: Grid, t: Trade, target: real)
    requires |bars| == g.bars && t.exitK < g.bars
  {
    var b, later, ends := bars[t.exitK], t.exitK > t.k + 1, t.exitK == g.bars - 1;
    && (forall j :: t.k < j < t.exitK ==> t.stop < bars[j].low && bars[j].high < target)
    && (ends && g.flat == AtOpen ==> t.exit == b.open)
    && (!(ends && g.flat == AtOpen) ==>
          && (later && b.open <= t.stop ==> t.exit == b.open)
          && (b.low <= t.stop && !(later && b.open <= t.stop) ==> t.exit == t.stop)
          && (t.stop < b.low && t.stop < b.open && later && target <= b.open ==> t.exit == b.open)
          && (t.stop < b.low && t.stop < b.open && !(later && target <= b.open) && target <= b.high ==> t.exit == target)
          && (t.stop < b.low && t.stop < b.open && b.open < target && b.high < target ==> ends && t.exit == b.close))
  }

  // ---------------------------------------------------------------- the day

  const BUDGET: real := 5000.0
  const CASH: real := BUDGET * (1.0 - 10.0 / 100.0)
  const CAP_POSITION: real := MinReal(BUDGET * 75.0 / 100.0, 4000.0)
  const MAX_LOSS_PER_TRADE: real := 50.0
  const MAX_DAILY_LOSS: real := 150.0
  const SLACK: real := 0.000000001
  const MAX_TRADES: nat := 3

  datatype Signal = Signal(day: int, sym: string, trade: Live)

  datatype Position = Position(signal: Signal, shares: nat)

  /** Earlier triggers first, then the larger range turnover, then the name. */
  predicate Before(a: Signal, b: Signal) {
    || a.trade.k < b.trade.k
    || (a.trade.k == b.trade.k &&
        (a.trade.rangeDv > b.trade.rangeDv || (a.trade.rangeDv == b.trade.rangeDv && LexLe(a.sym, b.sym))))
  }

  function SignalOrder(): (Signal, Signal) -> bool { (a: Signal, b: Signal) => Before(a, b) }

  lemma SignalOrderTotal()
    ensures Total(SignalOrder()) && Transitive(SignalOrder())
  {
    forall a: Signal, b: Signal ensures Before(a, b) || Before(b, a) {
      LexTotal(a.sym, b.sym);
    }
    forall a: Signal, b: Signal, c: Signal | Before(a, b) && Before(b, c) ensures Before(a, c) {
      if LexLe(a.sym, b.sym) && LexLe(b.sym, c.sym) {
        LexTransitive(a.sym, b.sym, c.sym);
      }
    }
  }

  function Notional(): Position -> real { (p: Position) => Times(p.shares as real, p.signal.trade.fill) }

  function Risk(): Position -> real { (p: Position) => Times(p.shares as real, p.signal.trade.riskShare) }

  function Pnl(): Position -> real { (p: Position) => Times(p.shares as real, p.signal.trade.pnlShare) }

  function OpenPast(k: int): Position -> bool { (p: Position) => p.signal.trade.exitK > k }

  function Free(book: seq<Position>, k: int): real { CASH - SumBy(Filter(book, OpenPast(k)), Notional()) }

  function Shares(t: Live, free: real): nat {
    MaxInt(MinReal(MAX_LOSS_PER_TRADE / t.riskShare,
                   MinReal(CAP_POSITION / t.fill, MaxReal(free, 0.0) / t.fill)).Floor, 0)
  }

  /** The positions of one day's signals, looked at in order. */
  function Book(order: seq<Signal>): seq<Position> {
    if order == [] then []
    else Grown(Book(order[..|order| - 1]), order[|order| - 1])
  }

  /** One more signal: taken while fewer than three are, if a share fits the limits and the daily risk holds it. */
  function Grown(book: seq<Position>, x: Signal): seq<Position> {
    var p := Position(x, Shares(x.trade, Free(book, x.trade.k)));
    if |book| < MAX_TRADES && p.shares >= 1 && SumBy(book, Risk()) + Risk()(p) <= MAX_DAILY_LOSS + SLACK
    then book + [p] else book
  }

  /** An open position of the day: the bar it leaves in and the cash in it. */
  datatype Stake = Stake(exitK: nat, cash: real)

  function ToStake(): Position -> Stake { (p: Position) => Stake(p.signal.trade.exitK, Notional()(p)) }

  lemma StakeOf(p: Position)
    ensures ToStake()(p) == Stake(p.signal.trade.exitK, Times(p.shares as real, p.signal.trade.fill))
  {
    assert Notional()(p) == Times(p.shares as real, p.signal.trade.fill);
  }

  function StakeOpenPast(k: int): Stake -> bool { (s: Stake) => s.exitK > k }

  function CashOf(): Stake -> real { (s: Stake) => s.cash }

  /** From a bar on, the stakes still carried are those of the book. */
  ghost predicate Tracks(open: seq<Stake>, book: seq<Position>, from: int) {
    forall k :: k >= from ==> Filter(open, StakeOpenPast(k)) == Map(Filter(book, OpenPast(k)), ToStake())
  }

  lemma TracksFiltered(open: seq<Stake>, book: seq<Position>, from: int, k: int)
    requires Tracks(open, book, from) && from <= k
    ensures Tracks(Filter(open, StakeOpenPast(k)), book, k)
    ensures CASH - SumBy(Filter(open, StakeOpenPast(k)), CashOf()) == Free(book, k)
  {
    forall m | m >= k
      ensures Filter(Filter(open, StakeOpenPast(k)), StakeOpenPast(m)) == Map(Filter(book, OpenPast(m)), ToStake())
    {
      FilterTwice(open, StakeOpenPast(k), StakeOpenPast(m), StakeOpenPast(m));
    }
    SumMapped(Filter(book, OpenPast(k)), ToStake(), CashOf(), Notional());
  }

  lemma TracksAdded(open: seq<Stake>, book: seq<Position>, p: Position, from: int)
    requires Tracks(open, book, from)
    ensures Tracks(open + [ToStake()(p)], book + [p], from)
  {
    forall k | k >= from
      ensures Filter(open + [ToStake()(p)], StakeOpenPast(k)) == Map(Filter(book + [p], OpenPast(k)), ToStake())
    {
      FilterSnoc(open, ToStake()(p), StakeOpenPast(k));
      FilterSnoc(book, p, OpenPast(k));
    }
  }

  /** One day of portfolio(), over the sorted signals. */
  method Day(order: seq<Signal>) returns (pnl: real, taken: seq<Position>)
    requires SortedBy(order, SignalOrder())
    ensures taken == Book(order) && pnl == SumBy(Book(order), Pnl())
  {
    hide Book, Grown, Free, Shares, Tracks, SumBy, Filter, Before;
    pnl, taken := 0.0, [];
    var riskUsed, n, open := 0.0, 0, [];
    ghost var last := if order == [] then 0 else order[0].trade.k;
    BookStart(last);
    var i := 0;
    while i < |order|
      invariant 0 <= i <= |order|
      invariant taken == Book(order[..i]) && n == |taken|
      invariant pnl == SumBy(taken, Pnl()) && riskUsed == SumBy(taken, Risk())
      invariant Tracks(open, taken, last)
      invariant i < |order| ==> last <= order[i].trade.k
    {
      if n >= MAX_TRADES {
        BookFull(order, i);
        return;
      }
      var x := order[i];
      TracksFiltered(open, taken, last, x.trade.k);
      open := Filter(open, StakeOpenPast(x.trade.k));
      var free := CASH - SumBy(open, CashOf());
      var shares := Shares(x.trade, free);
      var p := Position(x, shares);
      var maxLoss := Times(shares as real, x.trade.riskShare);
      assert maxLoss == Risk()(p);
      var stake := Stake(x.trade.exitK, Times(shares as real, x.trade.fill));
      StakeOf(p);
      BookStep(order, i, p);
      last := x.trade.k;
      NextBar(order, i);
      i := i + 1;
      if shares < 1 || riskUsed + maxLoss > MAX_DAILY_LOSS + SLACK {
        continue;
      }
      SumSnoc(taken, p, Pnl());
      SumSnoc(taken, p, Risk());
      TracksAdded(open, taken, p, last);
      n := n + 1;
      riskUsed := riskUsed + maxLoss;
      open := open + [stake];
      pnl := pnl + Times(shares as real, x.trade.pnlShare);
      taken := taken + [p];
    }
    assert order[..|order|] == order;
  }

  lemma BookStart(from: int)
    ensures Book([]) == [] && Tracks([], [], from) && SumBy([], Pnl()) == SumBy([], Risk()) == 0.0
  {
  }

  lemma NextBar(order: seq<Signal>, i: nat)
    requires SortedBy(order, SignalOrder())
    ensures i + 1 < |order| ==> order[i].trade.k <= order[i + 1].trade.k
  {
    if i + 1 < |order| {
      assert SignalOrder()(order[i], order[i + 1]);
    }
  }

  lemma BookStep(order: seq<Signal>, i: nat, p: Position)
    requires i < |order| && |Book(order[..i])| < MAX_TRADES
    requires p == Position(order[i], Shares(order[i].trade, Free(Book(order[..i]), order[i].trade.k)))
    ensures Book(order[..i + 1]) ==
            if p.shares < 1 || SumBy(Book(order[..i]), Risk()) + Risk()(p) > MAX_DAILY_LOSS + SLACK
            then Book(order[..i]) else Book(order[..i]) + [p]
  {
    hide Free, Shares;
    assert order[..i + 1][..i] == order[..i];
  }

  /** Once three trades are taken the rest of the day changes nothing. */
  lemma {:induction false} BookFull(order: seq<Signal>, i: nat)
    requires i <= |order| && |Book(order[..i])| >= MAX_TRADES
    ensures Book(order) == Book(order[..i])
  {
    hide Free, Shares, SumBy;
    if i == |order| {
      assert order[..i] == order;
    } else {
      var m := |order| - 1;
      assert order[..m][..i] == order[..i];
      BookFull(order[..m], i);
    }
  }

  // ---------------------------------------------------------------- all days

  function OnDay(d: int): Signal -> bool { (x: Signal) => x.day == d }

  function DayOf(): Signal -> int { (x: Signal) => x.day }

  function Ordered(sigs: seq<Signal>, d: int): seq<Signal> { Sort(Filter(sigs, OnDay(d)), SignalOrder()) }

  lemma OrderedIsSorted(sigs: seq<Signal>, d: int)
    ensures SortedBy(Ordered(sigs, d), SignalOrder())
    ensures multiset(Ordered(sigs, d)) == multiset(Filter(sigs, OnDay(d)))
  {
    SignalOrderTotal();
    SortSorts(Filter(sigs, OnDay(d)), SignalOrder());
  }

  /** A day's signals are those of its date, earlier triggers first and then the larger range turnover. */
  lemma OrderedMeaning(sigs: seq<Signal>, d: int)
    ensures forall x :: x in Ordered(sigs, d) <==> x in sigs && x.day == d
    ensures forall i, j :: 0 <= i < j < |Ordered(sigs, d)| ==>
              (var x, y := Ordered(sigs, d)[i].trade, Ordered(sigs, d)[j].trade;
               x.k < y.k || (x.k == y.k && x.rangeDv >= y.rangeDv))
  {
    hide Sort;
    OrderedIsSorted(sigs, d);
    SameMembers(Ordered(sigs, d), Filter(sigs, OnDay(d)));
    FilterMembers(sigs, OnDay(d));
    forall i, j | 0 <= i < j < |Ordered(sigs, d)| ensures Before(Ordered(sigs, d)[i], Ordered(sigs, d)[j]) {
      assert SignalOrder()(Ordered(sigs, d)[i], Ordered(sigs, d)[j]);
    }
  }

  /** portfolio(): each day of the signals gets the result of its own book. */
  method Portfolio(sigs: seq<Signal>) returns (pnl: map<int, real>, taken: map<int, seq<Position>>)
    ensures forall d :: d in pnl <==> exists x :: x in sigs && x.day == d
    ensures taken.Keys == pnl.Keys
    ensures forall d :: d in pnl ==> taken[d] == Book(Ordered(sigs, d)) && pnl[d] == SumBy(taken[d], Pnl())
  {
    hide Book, SumBy, Filter, Sort, Before;
    var days := Days(sigs);
    pnl, taken := map[], map[];
    for i := 0 to |days|
      invariant forall d :: d in pnl <==> d in days[..i]
      invariant taken.Keys == pnl.Keys
      invariant forall d :: d in pnl ==> taken[d] == Book(Ordered(sigs, d)) && pnl[d] == SumBy(taken[d], Pnl())
    {
      var d := days[i];
      assert days[..i + 1] == days[..i] + [d];
      OrderedIsSorted(sigs, d);
      var dayPnl, dayTaken := Day(Ordered(sigs, d));
      pnl, taken := pnl[d := dayPnl], taken[d := dayTaken];
    }
    assert days[..|days|] == days;
  }

  method Days(sigs: seq<Signal>) returns (days: seq<int>)
    ensures forall d :: d in days <==> exists x :: x in sigs && x.day == d
  {
    days := [];
    for i := 0 to |sigs|
      invariant forall d :: d in days <==> exists x :: x in sigs[..i] && x.day == d
    {
      assert sigs[..i + 1] == sigs[..i] + [sigs[i]];
      if sigs[i].day !in days {
        days := days + [sigs[i].day];
      }
    }
    assert sigs[..|sigs|] == sigs;
  }

  // ---------------------------------------------------------------- what a day can lose

  /** n shares of a signal keep the loss limit of a trade, the position limit and the free cash. */
  predicate Affordable(t: Live, free: real, n: nat) {
    Times(n as real, t.riskShare) <= MAX_LOSS_PER_TRADE && Times(n as real, t.fill) <= MinReal(CAP_POSITION, MaxReal(free, 0.0))
  }

  /** The shares taken are the most that the three limits allow. */
  lemma SharesLargest(t: Live, free: real, n: nat)
    ensures Affordable(t, free, n) <==> n <= Shares(t, free)
  {
    var x := n as real;
    var most := MinReal(MAX_LOSS_PER_TRADE / t.riskShare, MinReal(CAP_POSITION / t.fill, MaxReal(free, 0.0) / t.fill));
    AtMostQuotient(x, MAX_LOSS_PER_TRADE, t.riskShare);
    AtMostQuotient(x, CAP_POSITION, t.fill);
    AtMostQuotient(x, MaxReal(free, 0.0), t.fill);
    assert Affordable(t, free, n) <==> x <= most;
    assert x <= most <==> n <= most.Floor;
    NotBelowZero(MAX_LOSS_PER_TRADE, t.riskShare);
    NotBelowZero(CAP_POSITION, t.fill);
    NotBelowZero(MaxReal(free, 0.0), t.fill);
    assert most >= 0.0;
  }

  lemma NotBelowZero(x: real, y: real)
    requires x >= 0.0 && y > 0.0
    ensures x / y >= 0.0
  {
  }

  lemma AtMostQuotient(n: real, x: real, y: real)
    requires y > 0.0
    ensures n <= x / y <==> Times(n, y) <= x
  {
    assert x / y * y == x;
    assert n <= x / y ==> n * y <= x / y * y;
    assert n > x / y ==> n * y > x / y * y;
  }

  lemma SharesFit(t: Live, free: real)
    requires Shares(t, free) >= 1
    ensures Times(Shares(t, free) as real, t.riskShare) <= MAX_LOSS_PER_TRADE
    ensures Times(Shares(t, free) as real, t.fill) <= CAP_POSITION
    ensures Times(Shares(t, free) as real, t.fill) <= free
  {
    SharesLargest(t, free, Shares(t, free));
    assert Times(Shares(t, free) as real, t.fill) > 0.0;
  }

  /** The most shares of the next signal that the cash left by the signals before it affords. */
  ghost predicate LargestFor(order: seq<Signal>, i: nat, n: nat)
    requires i < |order|
  {
    var t := order[i].trade;
    forall m: nat :: Affordable(t, Free(Book(order[..i]), t.k), m) <==> m <= n
  }

  /** A signal is taken exactly when fewer than three were, one share is affordable, and the most affordable shares fit
      the risk that is left; and then with that many shares. */
  lemma TakenExactly(order: seq<Signal>, i: nat)
    requires i < |order|
    ensures Book(order[..i + 1]) == Book(order[..i]) || exists n: nat ::
              Book(order[..i + 1]) == Book(order[..i]) + [Position(order[i], n)] && LargestFor(order, i, n)
    ensures Book(order[..i + 1]) != Book(order[..i]) <==>
            exists n: nat :: LargestFor(order, i, n) && n >= 1 && |Book(order[..i])| < MAX_TRADES &&
              SumBy(Book(order[..i]), Risk()) + Risk()(Position(order[i], n)) <= MAX_DAILY_LOSS + SLACK
  {
    hide Free, Shares, Affordable;
    assert order[..i + 1][..i] == order[..i];
    var book, t := Book(order[..i]), order[i].trade;
    var n := Shares(t, Free(book, t.k));
    forall m: nat ensures Affordable(t, Free(book, t.k), m) <==> m <= n {
      SharesLargest(t, Free(book, t.k), m);
    }
    assert LargestFor(order, i, n);
    forall m: nat | LargestFor(order, i, m) ensures m == n {
      assert Affordable(t, Free(book, t.k), m) <==> m <= n;
      assert Affordable(t, Free(book, t.k), n) <==> n <= m;
    }
    if Book(order[..i + 1]) != book {
      assert Book(order[..i + 1]) == book + [Position(order[i], n)];
    }
  }

  /** At most three trades, none risking more than its own limit or tying up more than its cap, and together within
      the daily risk. */
  lemma {:induction false} RiskBudget(order: seq<Signal>)
    ensures |Book(order)| <= MAX_TRADES
    ensures SumBy(Book(order), Risk()) <= MAX_DAILY_LOSS + SLACK
    ensures forall p :: p in Book(order) ==>
              p.shares >= 1 && Risk()(p) <= MAX_LOSS_PER_TRADE && Notional()(p) <= CAP_POSITION && p.signal in order
  {
    hide Shares, Free;
    if order != [] {
      var n := |order| - 1;
      var x := order[n];
      var book := Book(order[..n]);
      var p := Position(x, Shares(x.trade, Free(book, x.trade.k)));
      RiskBudget(order[..n]);
      SumSnoc(book, p, Risk());
      if p.shares >= 1 {
        SharesFit(x.trade, Free(book, x.trade.k));
      }
    }
  }

  /** A position holds its cash from the bar of its fill to the bar of its exit, both included. */
  function HeldBars(): Position -> Sweep.Span {
    (p: Position) => Sweep.Span(p.signal.trade.k + 1, p.signal.trade.exitK + 1, Notional()(p))
  }

  lemma HeldCash(book: seq<Position>, k: int)
    ensures SumBy(Filter(Map(book, HeldBars()), Sweep.OpenAfter(k + 1)), Sweep.SizeOf()) ==
            SumBy(Filter(book, OpenPast(k)), Notional())
  {
    hide Filter, SumBy;
    Sweep.MappedLoad(book, HeldBars(), Sweep.OpenAfter(k + 1), OpenPast(k), Notional());
  }

  lemma {:induction false} BookFits(order: seq<Signal>)
    requires SortedBy(order, SignalOrder())
    ensures Sweep.Fits(Map(Book(order), HeldBars()), CASH)
    ensures forall p :: p in Book(order) ==> order != [] && p.signal.trade.k <= order[|order| - 1].trade.k
  {
    hide Sweep.Fits, Shares, Free;
    if order == [] {
      NothingHeld();
    } else {
      var n := |order| - 1;
      var x := order[n];
      var book := Book(order[..n]);
      var p := Position(x, Shares(x.trade, Free(book, x.trade.k)));
      BookFits(order[..n]);
      if n > 0 {
        assert SignalOrder()(order[n - 1], order[n]);
      }
      if p.shares >= 1 {
        SharesFit(x.trade, Free(book, x.trade.k));
        OneMoreFits(book, p);
      }
    }
  }

  lemma NothingHeld()
    ensures Sweep.Fits(Map(Book([]), HeldBars()), CASH)
  {
  }

  lemma OneMoreFits(book: seq<Position>, p: Position)
    requires Sweep.Fits(Map(book, HeldBars()), CASH)
    requires forall q :: q in book ==> q.signal.trade.k <= p.signal.trade.k
    requires p.shares >= 1 && Notional()(p) <= Free(book, p.signal.trade.k)
    ensures Sweep.Fits(Map(book + [p], HeldBars()), CASH)
  {
    hide Sweep.Fits;
    var spans := Map(book, HeldBars());
    HeldCash(book, p.signal.trade.k);
    forall y | y in spans ensures y.start <= p.signal.trade.k + 1 {
      var i :| 0 <= i < |spans| && spans[i] == y;
      assert book[i] in book;
    }
    assert Notional()(p) >= 0.0;
    Sweep.FitsSnoc(spans, HeldBars()(p), CASH);
    assert Map(book + [p], HeldBars()) == spans + [HeldBars()(p)];
  }

  /** In every bar of the day the cash in open positions stays within the cash of the account. */
  lemma NotionalWithinCash(order: seq<Signal>, bar: int)
    requires SortedBy(order, SignalOrder())
    ensures Sweep.Load(Map(Book(order), HeldBars()), bar) <= CASH
  {
    BookFits(order);
    Sweep.SweepBound(Map(Book(order), HeldBars()), CASH, bar);
  }

  function Costs(cost: real): Position -> real {
    (p: Position) => Times(p.shares as real, Times(cost, p.signal.trade.fill + p.signal.trade.exit))
  }

  lemma PositionLoss(p: Position, cost: real)
    requires p.signal.trade.exit >= p.signal.trade.stop
    requires var t := p.signal.trade; t.pnlShare == Times(t.exit, 1.0 - cost) - Times(t.fill, 1.0 + cost)
    ensures Pnl()(p) >= -Risk()(p) - Costs(cost)(p)
  {
    var t, n := p.signal.trade, p.shares as real;
    var c := Times(cost, t.fill + t.exit);
    assert t.pnlShare == t.exit - t.fill - c;
    assert t.pnlShare >= -t.riskShare - c;
    assert Times(n, t.pnlShare) >= Times(n, -t.riskShare - c);
    assert Times(n, -t.riskShare - c) == -Times(n, t.riskShare) - Times(n, c);
  }

  lemma {:induction false} BookLoss(book: seq<Position>, cost: real)
    requires forall p :: p in book ==> Pnl()(p) >= -Risk()(p) - Costs(cost)(p)
    ensures SumBy(book, Pnl()) >= -SumBy(book, Risk()) - SumBy(book, Costs(cost))
  {
    if book != [] {
      var n := |book| - 1;
      assert book[n] in book;
      BookLoss(book[..n], cost);
    }
  }

  /** No bar of the session after the fill's opens below the stop, up to the exit. */
  predicate NoGap(bars: seq<Bar>, t: Trade) {
    forall j :: t.k + 1 < j <= t.exitK && j < |bars| ==> bars[j].open >= t.stop
  }

  /** A day loses at most the daily risk plus trading costs when no session gaps through its stop. */
  lemma DayLossBounded(sigs: seq<Signal>, d: int, bars: Signal -> seq<Bar>, g: Grid, cost: real)
    requires forall x :: x in sigs ==>
      |bars(x)| == g.bars && Sane(bars(x)) && Describes(bars(x), g, cost, x.trade) && NoGap(bars(x), x.trade)
    ensures var book := Book(Ordered(sigs, d));
      SumBy(book, Pnl()) >= -(MAX_DAILY_LOSS + SLACK) - SumBy(book, Costs(cost))
  {
    hide Describes, NoGap, Sane;
    var order := Ordered(sigs, d);
    RiskBudget(order);
    OrderedIsSorted(sigs, d);
    SameMembers(order, Filter(sigs, OnDay(d)));
    FilterMembers(sigs, OnDay(d));
    forall p | p in Book(order) ensures Pnl()(p) >= -Risk()(p) - Costs(cost)(p) {
      assert p.signal in sigs;
      ExitHolds(bars(p.signal), g, cost, p.signal.trade);
      PositionLoss(p, cost);
    }
    BookLoss(Book(order), cost);
  }

  lemma ExitHolds(bars: seq<Bar>, g: Grid, cost: real, t: Trade)
    requires |bars| == g.bars && Sane(bars) && Describes(bars, g, cost, t) && NoGap(bars, t)
    ensures t.exit >= t.stop && t.pnlShare == Times(t.exit, 1.0 - cost) - Times(t.fill, 1.0 + cost)
  {
    BelowStopOnlyByGap(bars, g, cost, t);
  }
}
