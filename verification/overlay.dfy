/** The drawdown brake: combo.overlay and fwd_run.overlay_from
    (research/strategy_search/combo.py:32-43, research/strategy_search/fwd_run.py:79-92). */
module Overlay {
  import opened Lists

  /** The trailing annual volatility of a list of daily returns, None where the library gives no number. */
  type Vol = seq<real> -> Option<real>

  /** Target over trailing volatility, capped, and zero where there is no usable volatility. */
  function Leverage(vol: Vol, past: seq<real>, target: real, maxLev: real): real {
    var v := vol(past);
    if v.Some? && v.value > 0.01 then MinReal(target / v.value, maxLev) else 0.0
  }

  /** Leverage stays between zero and its cap, is zero without a usable volatility, and below the cap brings the
      volatility to the target exactly. */
  lemma LeverageMeaning(vol: Vol, past: seq<real>, target: real, maxLev: real)
    requires target >= 0.0 && maxLev >= 0.0
    ensures 0.0 <= Leverage(vol, past, target, maxLev) <= maxLev
    ensures vol(past).None? || vol(past).value <= 0.01 ==> Leverage(vol, past, target, maxLev) == 0.0
    ensures vol(past).Some? && vol(past).value > 0.01 ==>
              var risk := Times(Leverage(vol, past, target, maxLev), vol(past).value);
              risk <= target && (Leverage(vol, past, target, maxLev) < maxLev ==> risk == target)
  {
    if vol(past).Some? && vol(past).value > 0.01 {
      Quotient(target, vol(past).value, maxLev);
    }
  }

  lemma Quotient(x: real, y: real, k: real)
    requires x >= 0.0 && y > 0.0
    ensures Times(x / y, y) == x && x / y >= 0.0
    ensures k <= x / y ==> Times(k, y) <= x
  {
    assert (x / y - k) * y == x - k * y;
  }

  /** The leverage of day i is known the day before: it reads the returns before i. */
  function Leverages(vol: Vol, rets: seq<real>, target: real, maxLev: real): (r: seq<real>)
    ensures |r| == |rets|
    ensures forall i :: 0 <= i < |rets| ==> r[i] == Leverage(vol, rets[..i], target, maxLev)
  {
    seq(|rets|, i requires 0 <= i < |rets| => Leverage(vol, rets[..i], target, maxLev))
  }

  datatype Account = Account(equity: real, peak: real)
  const FRESH := Account(1.0, 1.0)

  /** No trigger, or a brake once equity is below peak * (1 - trigger). */
  datatype Brake = Brake(trigger: Option<real>, factor: real)

  predicate Braked(a: Account, b: Brake) {
    b.trigger.Some? && a.equity < Times(a.peak, 1.0 - b.trigger.value)
  }

  function Scale(a: Account, b: Brake, lev: real): real {
    Times(lev, if Braked(a, b) then b.factor else 1.0)
  }

  function Earn(a: Account, pnl: real): Account {
    var equity := Times(a.equity, 1.0 + pnl);
    Account(equity, MaxReal(a.peak, equity))
  }

  /** The account before day n, from a fresh one. */
  function After(levs: seq<real>, rets: seq<real>, b: Brake, n: nat): Account
    requires |levs| == |rets| && n <= |rets|
  {
    if n == 0 then FRESH
    else
      var a := After(levs, rets, b, n - 1);
      Earn(a, Times(Scale(a, b, levs[n - 1]), rets[n - 1]))
  }

  function Pnl(levs: seq<real>, rets: seq<real>, b: Brake, i: nat): real
    requires |levs| == |rets| && i < |rets|
  {
    Times(Scale(After(levs, rets, b, i), b, levs[i]), rets[i])
  }

  /** The daily profits of the first n days. */
  function Profits(levs: seq<real>, rets: seq<real>, b: Brake, n: nat): (r: seq<real>)
    requires |levs| == |rets| && n <= |rets|
    ensures |r| == n && forall i :: 0 <= i < n ==> r[i] == Pnl(levs, rets, b, i)
  {
    if n == 0 then [] else Profits(levs, rets, b, n - 1) + [Pnl(levs, rets, b, n - 1)]
  }

  function Scales(levs: seq<real>, rets: seq<real>, b: Brake, n: nat): (r: seq<real>)
    requires |levs| == |rets| && n <= |rets|
    ensures |r| == n && forall i :: 0 <= i < n ==> r[i] == Scale(After(levs, rets, b, i), b, levs[i])
  {
    if n == 0 then [] else Scales(levs, rets, b, n - 1) + [Scale(After(levs, rets, b, n - 1), b, levs[n - 1])]
  }

  /** The body of the overlay's loop. */
  method BrakedDay(equity0: real, peak0: real, b: Brake, lev: real, ret: real) returns (pnl: real, equity: real, peak: real)
    ensures pnl == Times(Scale(Account(equity0, peak0), b, lev), ret)
    ensures Account(equity, peak) == Earn(Account(equity0, peak0), pnl)
  {
    var k := lev;
    if b.trigger.Some? && equity0 < peak0 * (1.0 - b.trigger.value) {
      k := k * b.factor;
    }
    pnl := k * ret;
    equity := equity0 * (1.0 + pnl);
    peak := MaxReal(peak0, equity);
  }

  /** combo.overlay: the loop over all days. */
  method RunOverlay(vol: Vol, rets: seq<real>, target: real, b: Brake, maxLev: real) returns (out: array<real>)
    ensures fresh(out) && out.Length == |rets|
    ensures out[..] == Profits(Leverages(vol, rets, target, maxLev), rets, b, |rets|)
  {
    var levs := Leverages(vol, rets, target, maxLev);
    out := new real[|rets|];
    var equity, peak := 1.0, 1.0;
    for i := 0 to |rets|
      invariant Account(equity, peak) == After(levs, rets, b, i)
      invariant out[..i] == Profits(levs, rets, b, i)
    {
      var pnl;
      pnl, equity, peak := BrakedDay(equity, peak, b, levs[i], rets[i]);
      out[i] := pnl;
      assert out[..i + 1] == out[..i] + [pnl];
    }
    assert out[..] == out[..|rets|];
  }

  /** One day of the base series: its row in the tables and its value. */
  datatype Day = Day(row: nat, value: real)

  function ValueOf(): Day -> real { (d: Day) => d.value }

  const DD_TRIGGER := 0.2
  const FACTOR := 0.25
  const MAX_LEV := 3.0
  const LIVE := Brake(Some(DD_TRIGGER), FACTOR)

  /** The number of days before start, days being in row order. */
  function Before(base: seq<Day>, start: nat): (k: nat)
    ensures k <= |base|
    ensures forall i :: 0 <= i < k ==> base[i].row < start
    ensures k < |base| ==> base[k].row >= start
  {
    if base != [] && base[0].row < start then 1 + Before(base[1..], start) else 0
  }

  predicate InOrder(base: seq<Day>) {
    forall i, j :: 0 <= i < j < |base| ==> base[i].row < base[j].row
  }

  function Zeros(n: nat): seq<real> { seq(n, _ => 0.0) }

  /** The profits of an account opened on start: zero before it, and from it on those of the overlay's loop over the
      remaining days with the same leverage. */
  function ProfitsFrom(vol: Vol, base: seq<Day>, target: real, start: nat): (r: seq<real>)
    ensures |r| == |base|
  {
    var values := Map(base, ValueOf());
    var levs := Leverages(vol, values, target, MAX_LEV);
    var k := Before(base, start);
    Zeros(k) + Profits(levs[k..], values[k..], LIVE, |base| - k)
  }

  /** The body of the forward loop. */
  method LiveDay(equity0: real, peak0: real, lev: real, ret: real)
    returns (s: real, pnl: real, equity: real, peak: real)
    ensures s == Scale(Account(equity0, peak0), LIVE, lev) && pnl == Times(s, ret)
    ensures Account(equity, peak) == Earn(Account(equity0, peak0), pnl)
  {
    s := lev * if equity0 < peak0 * (1.0 - DD_TRIGGER) then FACTOR else 1.0;
    pnl := s * ret;
    equity := equity0 * (1.0 + pnl);
    peak := MaxReal(peak0, equity);
  }

  /** The loop over the days from start on. */
  method RunLive(levs: seq<real>, rets: seq<real>) returns (out: seq<real>, scale: seq<real>)
    requires |levs| == |rets|
    ensures out == Profits(levs, rets, LIVE, |rets|)
    ensures scale == Scales(levs, rets, LIVE, |rets|)
  {
    out, scale := [], [];
    var equity, peak := 1.0, 1.0;
    for i := 0 to |rets|
      invariant Account(equity, peak) == After(levs, rets, LIVE, i)
      invariant out == Profits(levs, rets, LIVE, i) && scale == Scales(levs, rets, LIVE, i)
    {
      var s, pnl;
      s, pnl, equity, peak := LiveDay(equity, peak, levs[i], rets[i]);
      out, scale := out + [pnl], scale + [s];
    }
  }

  /** fwd_run.overlay_from: a fresh account on start, over the same leverage. */
  method OverlayFrom(vol: Vol, base: seq<Day>, target: real, start: nat) returns (out: seq<real>, scale: seq<real>)
    requires InOrder(base)
    ensures out == ProfitsFrom(vol, base, target, start)
    ensures var k := Before(base, start);
      var levs := Leverages(vol, Map(base, ValueOf()), target, MAX_LEV);
      scale == Zeros(k) + Scales(levs[k..], Map(base, ValueOf())[k..], LIVE, |base| - k)
    ensures forall i :: 0 <= i < |base| && base[i].row < start ==> out[i] == 0.0 && scale[i] == 0.0
  {
    var values := Map(base, ValueOf());
    var levs := Leverages(vol, values, target, MAX_LEV);
    hide Before, Profits, Scales, Leverages;
    var k := Before(base, start);
    var pnl, s := RunLive(levs[k..], values[k..]);
    assert k < |base| ==> forall i :: k < i < |base| ==> base[k].row < base[i].row;
    out, scale := Zeros(k) + pnl, Zeros(k) + s;
  }

  // ---------------------------------------------------------------- the compounding bound

  function Pow(x: real, n: nat): real {
    if n == 0 then 1.0 else Times(Pow(x, n - 1), x)
  }

  /** How many braked days in a row end just before day n. */
  function BrakedRun(levs: seq<real>, rets: seq<real>, b: Brake, n: nat): nat
    requires |levs| == |rets| && n <= |rets|
  {
    if n == 0 || !Braked(After(levs, rets, b, n - 1), b) then 0 else 1 + BrakedRun(levs, rets, b, n - 1)
  }

  /** Returns are never below -rho, and leverage stays in [0, most]. */
  predicate Bounded(levs: seq<real>, rets: seq<real>, rho: real, most: real) {
    |levs| == |rets| && forall i :: 0 <= i < |rets| ==> rets[i] >= -rho && 0.0 <= levs[i] <= most
  }

  lemma NotNegative(x: real, y: real)
    requires x >= 0.0 && y >= 0.0
    ensures Times(x, y) == Times(y, x) >= 0.0
    ensures x > 0.0 && y > 0.0 ==> Times(x, y) > 0.0
  {
  }

  lemma Difference(x: real, y: real, f: real)
    ensures Times(x - y, f) == Times(x, f) - Times(y, f) && Times(f, x) == Times(x, f) && Times(f, y) == Times(y, f)
  {
  }

  lemma Complement(x: real, f: real)
    ensures Times(x, 1.0 - f) == x - Times(x, f)
  {
  }

  lemma MulMono(x: real, y: real, f: real)
    requires x >= y && f >= 0.0
    ensures Times(x, f) >= Times(y, f) && Times(f, x) >= Times(f, y)
  {
    NotNegative(x - y, f);
    Difference(x, y, f);
  }

  lemma Shrink(x: real, f: real)
    requires x >= 0.0 && 0.0 <= f <= 1.0
    ensures 0.0 <= Times(x, f) <= x && 0.0 <= Times(f, x) <= x
    ensures x > 0.0 && f > 0.0 ==> Times(x, f) > 0.0
  {
    NotNegative(x, f);
    NotNegative(x, 1.0 - f);
    Complement(x, f);
  }

  lemma Associate(x: real, y: real, z: real)
    ensures Times(x, Times(y, z)) == Times(Times(x, y), z)
  {
  }

  lemma PowUnit(x: real, n: nat)
    requires 0.0 < x <= 1.0
    ensures 0.0 < Pow(x, n) <= 1.0
  {
    if n != 0 {
      PowUnit(x, n - 1);
      Shrink(Pow(x, n - 1), x);
    }
  }

  /** The share of the peak that is left: the trigger, one unbraked day, then n braked days. */
  function Floor(trigger: real, day: real, braked: real, n: nat): real {
    Times(Times(trigger, day), Pow(braked, n))
  }

  lemma FloorStep(trigger: real, day: real, braked: real, n: nat)
    requires 0.0 < trigger <= 1.0 && 0.0 < day <= 1.0 && 0.0 < braked <= 1.0
    ensures Floor(trigger, day, braked, n + 1) == Times(Floor(trigger, day, braked, n), braked)
    ensures 0.0 < Floor(trigger, day, braked, n) <= 1.0
    ensures Floor(trigger, day, braked, 0) == Times(trigger, day)
  {
    PowUnit(braked, n);
    Shrink(trigger, day);
    Shrink(Times(trigger, day), Pow(braked, n));
    Associate(Times(trigger, day), Pow(braked, n), braked);
  }

  /** Equity e that grows by a factor g >= keep stays above the peak times a floor that shrinks by keep. */
  lemma GrowFloor(e: real, p: real, g: real, keep: real, start: real)
    requires 0.0 < e <= p && g >= keep && 0.0 < keep <= 1.0 && 0.0 < start <= 1.0 && e >= Times(p, start)
    ensures Times(e, g) > 0.0
    ensures Times(e, g) >= Times(MaxReal(p, Times(e, g)), Times(start, keep))
  {
    MulMono(g, keep, e);
    Shrink(e, keep);
    MulMono(e, Times(p, start), keep);
    Associate(p, start, keep);
    Shrink(start, keep);
    Shrink(Times(e, g), Times(start, keep));
  }

  /** One day keeps the floor: an unbraked day starts at or above the trigger, a braked one adds one factor. */
  lemma FloorKept(a: Account, b: Brake, dd: real, pnl: real, day: real, braked: real, run: nat)
    requires b.trigger == Some(dd) && 0.0 <= dd < 1.0 && 0.0 < day <= 1.0 && 0.0 < braked <= 1.0
    requires 1.0 + pnl >= if Braked(a, b) then braked else day
    requires 0.0 < a.equity <= a.peak
    requires Braked(a, b) ==> a.equity >= Times(a.peak, Floor(1.0 - dd, day, braked, run))
    ensures var c := Earn(a, pnl);
      0.0 < c.equity <= c.peak &&
      c.equity >= Times(c.peak, Floor(1.0 - dd, day, braked, if Braked(a, b) then run + 1 else 0))
  {
    var trigger := 1.0 - dd;
    FloorStep(trigger, day, braked, run);
    if Braked(a, b) {
      GrowFloor(a.equity, a.peak, 1.0 + pnl, braked, Floor(trigger, day, braked, run));
    } else {
      GrowFloor(a.equity, a.peak, 1.0 + pnl, day, trigger);
    }
  }

  lemma DayLoss(a: Account, b: Brake, lev: real, ret: real, rho: real, most: real)
    requires 0.0 <= b.factor <= 1.0 && rho >= 0.0 && 0.0 <= lev <= most && ret >= -rho && Times(most, rho) < 1.0
    ensures 0.0 <= Times(most, rho) && 0.0 <= Times(b.factor, Times(most, rho)) < 1.0
    ensures Times(Scale(a, b, lev), ret) >=
            -(if Braked(a, b) then Times(b.factor, Times(most, rho)) else Times(most, rho))
  {
    var worst := Times(most, rho);
    MulMono(most, lev, rho);
    MulMono(lev, 0.0, rho);
    MulMono(ret, -rho, lev);
    assert Times(lev, -rho) == -Times(lev, rho);
    Shrink(worst, b.factor);
    MulMono(Times(lev, ret), -worst, b.factor);
    assert Times(b.factor, -worst) == -Times(b.factor, worst);
    Associate(b.factor, lev, ret);
    assert Times(b.factor, lev) == Times(lev, b.factor);
    assert Times(lev, 1.0) == lev;
  }

  /** After n braked days in a row equity is at least peak * (1 - dd) * (1 - L rho) * (1 - brake L rho)^n, and it
      stays positive. */
  lemma {:induction false} BrakeBound(levs: seq<real>, rets: seq<real>, b: Brake, dd: real, rho: real, most: real, n: nat)
    requires b.trigger == Some(dd) && 0.0 <= dd < 1.0 && 0.0 <= b.factor <= 1.0
    requires rho >= 0.0 && most >= 0.0 && Times(most, rho) < 1.0
    requires Bounded(levs, rets, rho, most) && n <= |rets|
    ensures var a := After(levs, rets, b, n);
      && 0.0 < a.equity <= a.peak
      && a.equity >= Times(a.peak, Floor(1.0 - dd, 1.0 - Times(most, rho), 1.0 - Times(b.factor, Times(most, rho)),
                                         BrakedRun(levs, rets, b, n)))
  {
    var day, braked := 1.0 - Times(most, rho), 1.0 - Times(b.factor, Times(most, rho));
    DayLoss(FRESH, b, 0.0, 0.0, rho, most);
    FloorStep(1.0 - dd, day, braked, 0);
    if n == 0 {
      Shrink(1.0, Floor(1.0 - dd, day, braked, 0));
    } else {
      var a := After(levs, rets, b, n - 1);
      BrakeBound(levs, rets, b, dd, rho, most, n - 1);
      DayLoss(a, b, levs[n - 1], rets[n - 1], rho, most);
      FloorKept(a, b, dd, Times(Scale(a, b, levs[n - 1]), rets[n - 1]), day, braked, BrakedRun(levs, rets, b, n - 1));
    }
  }

  /** So an overlay whose cap times the worst return stays below one is never ruined, whatever the volatilities. */
  lemma NeverRuined(vol: Vol, rets: seq<real>, target: real, b: Brake, dd: real, maxLev: real, rho: real, n: nat)
    requires b.trigger == Some(dd) && 0.0 <= dd < 1.0 && 0.0 <= b.factor <= 1.0 && target >= 0.0
    requires rho >= 0.0 && maxLev >= 0.0 && Times(maxLev, rho) < 1.0
    requires n <= |rets| && forall i :: 0 <= i < |rets| ==> rets[i] >= -rho
    ensures var levs := Leverages(vol, rets, target, maxLev);
      var a := After(levs, rets, b, n);
      && 0.0 < a.equity <= a.peak
      && a.equity >= Times(a.peak, Floor(1.0 - dd, 1.0 - Times(maxLev, rho), 1.0 - Times(b.factor, Times(maxLev, rho)),
                                         BrakedRun(levs, rets, b, n)))
  {
    hide Leverage, Times, Floor, BrakedRun, After;
    var levs := Leverages(vol, rets, target, maxLev);
    forall i | 0 <= i < |rets| ensures 0.0 <= levs[i] <= maxLev {
      LeverageMeaning(vol, rets[..i], target, maxLev);
    }
    BrakeBound(levs, rets, b, dd, rho, maxLev, n);
  }
}
