/** The day-batched prediction-market book (research/polymarket/bt_bonds.py:85-150). */
module Bonds {
  import opened Lists

  const CAPITAL := 2500.0
  const DAY := 86_400
  const MAX_AGE := 7_200
  const HALF_SPREAD := 0.005
  const FEE_K := 0.05

  type Quote = p: real | 0.0 < p <= 1.0 witness 1.0
  type Payout = p: real | 0.0 <= p <= 1.0 witness 0.0

  /** A favourite bought at te and paid out at the market's close. */
  datatype Trade = Trade(te: int, closed: int, market: int, event: string, yes: bool, p: Quote, payout: Payout)

  /** A market's price history in time order. */
  datatype History = History(t: seq<int>, p: seq<real>)

  predicate Sound(h: History) { |h.t| == |h.p| && forall i, j :: 0 <= i < j < |h.t| ==> h.t[i] <= h.t[j] }

  function CostPerShare(p: Quote, mult: real): real
    requires mult >= 0.0
  {
    p + mult * (HALF_SPREAD + FEE_K * p * (1.0 - p))
  }

  lemma CostPositive(p: Quote, mult: real)
    requires mult >= 0.0
    ensures CostPerShare(p, mult) > 0.0
  {
    var q := 1.0 - p;
    assert p * q >= 0.0;
    var fee := HALF_SPREAD + FEE_K * p * (1.0 - p);
    assert FEE_K * p * (1.0 - p) == FEE_K * (p * q);
    assert mult * fee >= 0.0;
  }

  // ---------------------------------------------------------------- signal

  /** The number of points at or before an instant. */
  function UpTo(t: seq<int>, at: int): nat {
    if t == [] then 0 else if t[|t| - 1] <= at then |t| else UpTo(t[..|t| - 1], at)
  }

  /** The price of the last point at or before an instant, unless it is too old. */
  function LastPrice(h: History, at: int): Option<real>
    requires Sound(h)
  {
    UpToBound(h.t, at);
    var i := UpTo(h.t, at) - 1;
    if i < 0 || at - h.t[i] > MAX_AGE then None else Some(h.p[i])
  }

  lemma UpToBound(t: seq<int>, at: int)
    ensures UpTo(t, at) <= |t|
  {
  }

  datatype Market = Market(id: int, event: string, start: int, end: int, closed: int, outcomeYes: Payout)

  /** The entry of one market, or None. */
  function Signal(mk: Market, h: History, kDays: nat, low: real, high: real): Option<Trade>
    requires Sound(h) && 0.5 <= low <= high <= 1.01
    requires forall i :: 0 <= i < |h.p| ==> 0.0 <= h.p[i] <= 1.0
  {
    var te := mk.end - kDays * DAY;
    if !(mk.start < te < mk.closed) then None
    else
      UpToBound(h.t, te);
      var py := LastPrice(h, te);
      if py.None? then None
      else
        var yes := py.value > 0.5;
        var fav := if yes then py.value else 1.0 - py.value;
        if !(low <= fav < high) then None
        else Some(Trade(te, mk.closed, mk.id, mk.event, yes, fav, if yes then mk.outcomeYes else 1.0 - mk.outcomeYes))
  }

  /** Point i is the last one at or before an instant. */
  predicate IsLast(h: History, at: int, i: int)
    requires Sound(h)
  {
    0 <= i < |h.t| && h.t[i] <= at && (i + 1 < |h.t| ==> at < h.t[i + 1])
  }

  lemma {:induction false} UpToIsLast(h: History, at: int)
    requires Sound(h)
    ensures UpTo(h.t, at) <= |h.t|
    ensures forall i :: IsLast(h, at, i) <==> i == UpTo(h.t, at) - 1 >= 0
  {
    UpToCut(h.t, at);
  }

  lemma {:induction false} UpToCut(t: seq<int>, at: int)
    requires forall i, j :: 0 <= i < j < |t| ==> t[i] <= t[j]
    ensures UpTo(t, at) <= |t|
    ensures forall i :: 0 <= i < |t| ==> (t[i] <= at <==> i < UpTo(t, at))
  {
    if t != [] {
      var n := |t| - 1;
      UpToCut(t[..n], at);
      assert forall i :: 0 <= i < n ==> t[..n][i] == t[i];
    }
  }

  /** What a signal means: there is one exactly when the entry lies inside the market's life, its last price is at most
      two hours old, and the side priced above one half is priced within the band. It buys that side at its price, and is
      paid 1 exactly when that side wins, and half when nobody does. */
  lemma SignalMeaning(mk: Market, h: History, kDays: nat, low: real, high: real)
    requires Sound(h) && 0.5 <= low <= high <= 1.01
    requires forall i :: 0 <= i < |h.p| ==> 0.0 <= h.p[i] <= 1.0
    ensures var te, s := mk.end - 86_400 * kDays, Signal(mk, h, kDays, low, high);
      s.Some? <==> mk.start < te < mk.closed && exists i ::
        IsLast(h, te, i) && te - h.t[i] <= 7_200 &&
        ((h.p[i] > 0.5 && low <= h.p[i] < high) || (h.p[i] <= 0.5 && low <= 1.0 - h.p[i] < high))
    ensures var te, s := mk.end - 86_400 * kDays, Signal(mk, h, kDays, low, high);
      s.Some? ==>
        var x := s.value;
        && x.te == te && x.closed == mk.closed && x.market == mk.id && x.event == mk.event && low <= x.p < high
        && (forall i :: IsLast(h, te, i) ==> (x.yes <==> h.p[i] > 0.5) && x.p == if x.yes then h.p[i] else 1.0 - h.p[i])
        && (mk.outcomeYes == 1.0 ==> x.payout == if x.yes then 1.0 else 0.0)
        && (mk.outcomeYes == 0.0 ==> x.payout == if x.yes then 0.0 else 1.0)
        && (mk.outcomeYes == 0.5 ==> x.payout == 0.5)
  {
    UpToIsLast(h, mk.end - kDays * DAY);
    hide UpTo;
  }

  /** A signal enters while its market is open, and no price after the entry can change it. */
  lemma {:induction false} SignalCausal(mk: Market, h: History, more: History, kDays: nat, low: real, high: real)
    requires Sound(h) && Sound(more) && 0.5 <= low <= high <= 1.01
    requires forall i :: 0 <= i < |h.p| ==> 0.0 <= h.p[i] <= 1.0
    requires forall i :: 0 <= i < |more.p| ==> 0.0 <= more.p[i] <= 1.0
    requires h.t <= more.t && h.p <= more.p
    requires forall i :: |h.t| <= i < |more.t| ==> more.t[i] > mk.end - kDays * DAY
    ensures Signal(mk, more, kDays, low, high) == Signal(mk, h, kDays, low, high)
    ensures var s := Signal(mk, h, kDays, low, high);
      s.Some? ==> mk.start < s.value.te < s.value.closed == mk.closed
  {
    var te := mk.end - kDays * DAY;
    UpToLater(h.t, more.t, te);
    UpToBound(h.t, te);
  }

  lemma {:induction false} UpToLater(t: seq<int>, more: seq<int>, at: int)
    requires t <= more && forall i :: |t| <= i < |more| ==> more[i] > at
    ensures UpTo(more, at) == UpTo(t, at)
  {
    if |more| == |t| {
      assert more == t;
    } else {
      UpToLater(t, more[..|more| - 1], at);
    }
  }

  // ---------------------------------------------------------------- the simple fold

  /** The stake of every trade and the cost multiplier. */
  datatype Terms = Terms(size: real, mult: real)

  predicate Usable(k: Terms) { k.size >= 0.0 && k.mult >= 0.0 }

  function Shares(k: Terms, x: Trade): real
    requires Usable(k)
  {
    CostPositive(x.p, k.mult);
    k.size / CostPerShare(x.p, k.mult)
  }

  function ProceedsOf(k: Terms): Trade -> real
    requires Usable(k)
  {
    (x: Trade) => Times(Shares(k, x), x.payout)
  }

  function StakeOf(k: Terms): Trade -> real { (x: Trade) => k.size }

  function ProfitOf(k: Terms): Trade -> real
    requires Usable(k)
  {
    (x: Trade) => ProceedsOf(k)(x) - k.size
  }

  function ClosedBy(t: int): Trade -> bool { (x: Trade) => x.closed <= t }

  function OpenAfter(t: int): Trade -> bool { (x: Trade) => x.closed > t }

  /** Cash at an instant: every stake of the accepted trades is out, the payouts of those closed by then are in. */
  function CashAt(k: Terms, accepted: seq<Trade>, t: int): real
    requires Usable(k)
  {
    CAPITAL - SumBy(accepted, StakeOf(k)) + SumBy(Filter(accepted, ClosedBy(t)), ProceedsOf(k))
  }

  function EventOf(): Trade -> string { (x: Trade) => x.event }

  /** The events of the accepted trades still open after an instant. */
  function BusyAt(accepted: seq<Trade>, t: int): set<string> { KeySet(Filter(accepted, OpenAfter(t)), EventOf()) }

  predicate Accepts(k: Terms, accepted: seq<Trade>, x: Trade)
    requires Usable(k)
  {
    x.event !in BusyAt(accepted, x.te) && CashAt(k, accepted, x.te) >= k.size
  }

  /** The simple fold over the sorted entries: no days, no marks, no list of open positions. */
  function Accepted(k: Terms, trades: seq<Trade>): seq<Trade>
    requires Usable(k)
  {
    if trades == [] then []
    else
      var before := Accepted(k, trades[..|trades| - 1]);
      before + if Accepts(k, before, trades[|trades| - 1]) then [trades[|trades| - 1]] else []
  }

  lemma BusyMeaning(accepted: seq<Trade>, t: int, event: string)
    ensures event in BusyAt(accepted, t) <==> exists y :: y in accepted && y.event == event && y.closed > t
  {
    FilterMembers(accepted, OpenAfter(t));
    hide Filter;
    if y :| y in accepted && y.event == event && y.closed > t {
      var open := Filter(accepted, OpenAfter(t));
      var i :| 0 <= i < |open| && open[i] == y;
      assert EventOf()(open[i]) == event;
    }
    if event in BusyAt(accepted, t) {
      var open := Filter(accepted, OpenAfter(t));
      var i :| 0 <= i < |open| && EventOf()(open[i]) == event;
      assert open[i] in open;
    }
  }

  lemma {:induction false} StakesOut(k: Terms, xs: seq<Trade>)
    ensures SumBy(xs, StakeOf(k)) == Times(|xs| as real, k.size)
  {
    if xs != [] {
      StakesOut(k, xs[..|xs| - 1]);
      TimesNext((|xs| - 1) as real, k.size);
    }
  }

  /** The last entry is accepted exactly when no accepted trade of its event is open, and the capital less every stake
      so far, with what the closed ones paid, covers one more. */
  lemma AcceptedExactly(k: Terms, trades: seq<Trade>)
    requires Usable(k) && trades != []
    ensures var before, x := Accepted(k, trades[..|trades| - 1]), trades[|trades| - 1];
      if (forall y :: y in before && y.event == x.event ==> y.closed <= x.te) &&
         2500.0 - Times(|before| as real, k.size) +
         SumBy(Filter(before, (y: Trade) => y.closed <= x.te), ProceedsOf(k)) >= k.size
      then Accepted(k, trades) == before + [x]
      else Accepted(k, trades) == before
  {
    var before, x := Accepted(k, trades[..|trades| - 1]), trades[|trades| - 1];
    StakesOut(k, before);
    FilterSame(before, (y: Trade) => y.closed <= x.te, ClosedBy(x.te));
    BusyMeaning(before, x.te, x.event);
    hide Filter, SumBy, ProceedsOf, Times, BusyAt;
    assert before + [] == before;
  }

  /** What signals produce, in the order run_period sorts them. */
  predicate Entries(trades: seq<Trade>) {
    && (forall i, j :: 0 <= i < j < |trades| ==> trades[i].te <= trades[j].te)
    && forall i :: 0 <= i < |trades| ==> trades[i].te < trades[i].closed
  }

  // ---------------------------------------------------------------- equity

  /** The number of entries before an instant. */
  function Entered(trades: seq<Trade>, t: int): (n: nat)
    ensures n <= |trades|
    ensures forall i :: 0 <= i < n ==> trades[i].te < t
    ensures n < |trades| ==> trades[n].te >= t
  {
    if trades != [] && trades[0].te < t then 1 + Entered(trades[1..], t) else 0
  }

  type Prices = map<int, History>

  /** The last price strictly before an instant, or the entry price when there is none. */
  function MarkOf(h: History, x: Trade, t: int): real
    requires Sound(h)
  {
    UpToBound(h.t, t - 1);
    var j := UpTo(h.t, t - 1) - 1;
    var py := if j >= 0 then h.p[j] else x.p;
    if x.yes then py else 1.0 - py
  }

  /** A position is marked at the last price of its side before the instant; without one, at its entry price, which for a
      NO position is taken as the price of YES. */
  lemma MarkMeaning(h: History, x: Trade, t: int)
    requires Sound(h)
    ensures forall i :: IsLast(h, t - 1, i) ==> MarkOf(h, x, t) == if x.yes then h.p[i] else 1.0 - h.p[i]
    ensures (forall i :: 0 <= i < |h.t| ==> t <= h.t[i]) ==> MarkOf(h, x, t) == if x.yes then x.p else 1.0 - x.p
  {
    UpToIsLast(h, t - 1);
    UpToCut(h.t, t - 1);
    var n := UpTo(h.t, t - 1);
    hide UpTo;
    assert n > 0 ==> h.t[n - 1] <= t - 1;
  }

  /** The entry price is never needed for a signal's own market: a price not later than its entry exists. */
  lemma SignalIsMarked(mk: Market, h: History, kDays: nat, low: real, high: real, t: int)
    requires Sound(h) && 0.5 <= low <= high <= 1.01
    requires forall i :: 0 <= i < |h.p| ==> 0.0 <= h.p[i] <= 1.0
    requires Signal(mk, h, kDays, low, high).Some? && Signal(mk, h, kDays, low, high).value.te < t
    ensures var x := Signal(mk, h, kDays, low, high).value;
      exists i :: IsLast(h, t - 1, i) && MarkOf(h, x, t) == if x.yes then h.p[i] else 1.0 - h.p[i]
  {
    var x := Signal(mk, h, kDays, low, high).value;
    UpToCut(h.t, x.te);
    UpToCut(h.t, t - 1);
    UpToIsLast(h, t - 1);
    MarkMeaning(h, x, t);
    var first, n := UpTo(h.t, x.te), UpTo(h.t, t - 1);
    hide UpTo, MarkOf;
    assert first > 0;
    assert h.t[first - 1] <= x.te;
    assert n > 0 && IsLast(h, t - 1, n - 1);
    assert MarkOf(h, x, t) == if x.yes then h.p[n - 1] else 1.0 - h.p[n - 1];
  }

  /** The marks of the two sides of one market add up to one. */
  lemma MarksAddUp(h: History, yes: Trade, no: Trade, t: int)
    requires Sound(h) && yes.yes && !no.yes && exists i :: 0 <= i < |h.t| && h.t[i] < t
    ensures MarkOf(h, yes, t) + MarkOf(h, no, t) == 1.0
  {
    UpToCut(h.t, t - 1);
    hide UpTo;
  }

  /** A stake buys shares worth it at their cost. */
  lemma StakeSpent(k: Terms, x: Trade)
    requires Usable(k)
    ensures Times(Shares(k, x), CostPerShare(x.p, k.mult)) == k.size
  {
    CostPositive(x.p, k.mult);
    hide CostPerShare;
  }

  /** A share costs its price and the multiple of half the spread and the fee; the fee is largest at even odds, and zero
      at certainty. Both sides of a market together cost more than the one they pay. */
  lemma BothSidesCost(p: Quote, mult: real)
    requires p < 1.0 && mult >= 0.0
    ensures CostPerShare(p, mult) + CostPerShare(1.0 - p, mult) == 1.0 + mult * (0.01 + 0.1 * p * (1.0 - p))
    ensures CostPerShare(p, mult) - p <= mult * 0.0175
    ensures CostPerShare(0.5, mult) - 0.5 == mult * 0.0175 && CostPerShare(1.0, mult) - 1.0 == mult * 0.005
  {
    var v := p * (1.0 - p);
    var d := p - 0.5;
    assert v == 0.25 - d * d;
    assert d * d >= 0.0;
    assert FEE_K * p * (1.0 - p) == FEE_K * v;
    var q: Quote := 1.0 - p;
    assert FEE_K * q * (1.0 - q) == FEE_K * v;
    assert 0.1 * p * (1.0 - p) == 0.1 * v;
    var fee := HALF_SPREAD + FEE_K * v;
    assert fee <= 0.0175;
    MoreTimes(mult, fee, 0.0175);
    assert mult * fee + mult * fee == mult * (fee + fee);
  }

  lemma MoreTimes(k: real, x: real, y: real)
    requires k >= 0.0 && x <= y
    ensures k * x <= k * y
  {
  }

  function MarkedOf(k: Terms, px: Prices, t: int): Trade -> real
    requires Usable(k) && forall m :: m in px ==> Sound(px[m])
  {
    (x: Trade) => if x.market in px then Times(Shares(k, x), MarkOf(px[x.market], x, t)) else 0.0
  }

  /** Cash plus marks at the end of a day. */
  function EquityAt(k: Terms, px: Prices, trades: seq<Trade>, end: int): real
    requires Usable(k) && forall m :: m in px ==> Sound(px[m])
  {
    var accepted := Accepted(k, trades[..Entered(trades, end)]);
    CashAt(k, accepted, end - 1) + SumBy(Filter(accepted, OpenAfter(end - 1)), MarkedOf(k, px, end))
  }

  /** The number of days from lo up to hi. */
  function Days(lo: int, hi: int): nat { if lo < hi then (hi - lo + DAY - 1) / DAY else 0 }

  function DayEnd(lo: int, n: int): int { lo + n * DAY + DAY }

  // ---------------------------------------------------------------- the loop

  datatype Open = Open(trade: Trade, shares: real)

  /** The open positions of these trades. */
  function Positions(k: Terms, xs: seq<Trade>): seq<Open>
    requires Usable(k)
  {
    if xs == [] then [] else Positions(k, xs[..|xs| - 1]) + [Open(xs[|xs| - 1], Shares(k, xs[|xs| - 1]))]
  }

  /** The book's variables hold what the fold says about an instant. */
  ghost predicate Holds(k: Terms, accepted: seq<Trade>, t: int, cash: real, live: seq<Open>, busy: set<string>)
    requires Usable(k)
  {
    && cash == CashAt(k, accepted, t)
    && live == Positions(k, Filter(accepted, OpenAfter(t)))
    && busy == BusyAt(accepted, t)
    && DistinctBy(Filter(accepted, OpenAfter(t)), EventOf())
  }

  /** Paying out everything closed by an instant. */
  method Release(k: Terms, ghost accepted: seq<Trade>, ghost t0: int, t: int, cash0: real, live0: seq<Open>,
                 busy0: set<string>)
    returns (cash: real, live: seq<Open>, busy: set<string>)
    requires Usable(k) && Holds(k, accepted, t0, cash0, live0, busy0) && t0 <= t
    ensures Holds(k, accepted, t, cash, live, busy)
  {
    hide Shares, CashAt, Positions, EventsLeft;
    cash, busy, live := cash0, busy0, [];
    ghost var xs := Filter(accepted, OpenAfter(t0));
    PositionsAt(k, xs);
    ReleaseEnds(k, xs, t);
    for i := 0 to |live0|
      invariant cash == cash0 + SumBy(Filter(xs[..i], ClosedBy(t)), ProceedsOf(k))
      invariant live == Positions(k, Filter(xs[..i], OpenAfter(t)))
      invariant busy == EventsLeft(xs, i, t)
    {
      var o := live0[i];
      assert o == Open(xs[i], Shares(k, xs[i]));
      ReleaseStep(k, xs, i, t);
      EventsStep(xs, i, t);
      if o.trade.closed <= t {
        cash := cash + Times(o.shares, o.trade.payout);
        busy := busy - {o.trade.event};
      } else {
        live := live + [o];
      }
    }
    assert xs[..|live0|] == xs;
    Released(k, accepted, t0, t);
  }

  lemma ReleaseEnds(k: Terms, xs: seq<Trade>, t: int)
    requires Usable(k)
    ensures EventsLeft(xs, 0, t) == KeySet(xs, EventOf())
    ensures EventsLeft(xs, |xs|, t) == KeySet(Filter(xs, OpenAfter(t)), EventOf())
    ensures Positions(k, Filter(xs[..0], OpenAfter(t))) == []
    ensures SumBy(Filter(xs[..0], ClosedBy(t)), ProceedsOf(k)) == 0.0
  {
    assert xs[..0] == [] && xs[0..] == xs && xs[..|xs|] == xs && xs[|xs|..] == [];
  }

  lemma {:induction false} PositionsAt(k: Terms, xs: seq<Trade>)
    requires Usable(k)
    ensures |Positions(k, xs)| == |xs|
    ensures forall i :: 0 <= i < |xs| ==> Positions(k, xs)[i] == Open(xs[i], Shares(k, xs[i]))
  {
    if xs != [] {
      PositionsAt(k, xs[..|xs| - 1]);
    }
  }

  lemma PositionsSnoc(k: Terms, xs: seq<Trade>, x: Trade)
    requires Usable(k)
    ensures Positions(k, xs + [x]) == Positions(k, xs) + [Open(x, Shares(k, x))]
  {
    assert (xs + [x])[..|xs|] == xs;
  }

  lemma KeySetConcat<T, K>(a: seq<T>, b: seq<T>, key: T -> K)
    ensures KeySet(a + b, key) == KeySet(a, key) + KeySet(b, key)
  {
    forall x | x in KeySet(a + b, key) ensures x in KeySet(a, key) + KeySet(b, key) {
      var i :| 0 <= i < |a + b| && key((a + b)[i]) == x;
      if i < |a| {
        assert key(a[i]) in KeySet(a, key);
      } else {
        assert key(b[i - |a|]) in KeySet(b, key);
      }
    }
    forall x | x in KeySet(a, key) ensures x in KeySet(a + b, key) {
      var i :| 0 <= i < |a| && key(a[i]) == x;
      assert key((a + b)[i]) == x;
    }
    forall x | x in KeySet(b, key) ensures x in KeySet(a + b, key) {
      var i :| 0 <= i < |b| && key(b[i]) == x;
      assert key((a + b)[|a| + i]) == x;
    }
  }

  /** One step of the release: the trade at i leaves or stays. */
  lemma ReleaseStep(k: Terms, xs: seq<Trade>, i: nat, t: int)
    requires Usable(k) && i < |xs|
    ensures xs[..i + 1] == xs[..i] + [xs[i]] && xs[i..] == [xs[i]] + xs[i + 1..]
    ensures Filter(xs[..i + 1], OpenAfter(t)) ==
            Filter(xs[..i], OpenAfter(t)) + if xs[i].closed > t then [xs[i]] else []
    ensures Positions(k, Filter(xs[..i + 1], OpenAfter(t))) ==
            Positions(k, Filter(xs[..i], OpenAfter(t))) + if xs[i].closed > t then [Open(xs[i], Shares(k, xs[i]))] else []
    ensures SumBy(Filter(xs[..i + 1], ClosedBy(t)), ProceedsOf(k)) ==
            SumBy(Filter(xs[..i], ClosedBy(t)), ProceedsOf(k)) +
            if xs[i].closed <= t then Times(Shares(k, xs[i]), xs[i].payout) else 0.0
  {
    hide Shares;
    assert xs[..i + 1] == xs[..i] + [xs[i]] && xs[i..] == [xs[i]] + xs[i + 1..];
    FilterSnoc(xs[..i], xs[i], OpenAfter(t));
    FilterSumSnoc(xs[..i], xs[i], ClosedBy(t), ProceedsOf(k));
    PositionsSnoc(k, Filter(xs[..i], OpenAfter(t)), xs[i]);
    if xs[i].closed <= t {
      assert Filter(xs[..i], OpenAfter(t)) + [] == Filter(xs[..i], OpenAfter(t));
    }
  }

  /** The events of the trades kept so far and of those still to be looked at. */
  function EventsLeft(xs: seq<Trade>, i: nat, t: int): set<string>
    requires i <= |xs|
  {
    KeySet(Filter(xs[..i], OpenAfter(t)), EventOf()) + KeySet(xs[i..], EventOf())
  }

  /** With distinct events, dropping the trade at i drops exactly its event. */
  lemma EventsStep(xs: seq<Trade>, i: nat, t: int)
    requires i < |xs| && DistinctBy(xs, EventOf())
    ensures EventsLeft(xs, i + 1, t) == EventsLeft(xs, i, t) - if xs[i].closed > t then {} else {xs[i].event}
  {
    var x, open := xs[i], Filter(xs[..i], OpenAfter(t));
    assert xs[..i + 1] == xs[..i] + [x] && xs[i..] == [x] + xs[i + 1..];
    FilterSnoc(xs[..i], x, OpenAfter(t));
    KeySetConcat([x], xs[i + 1..], EventOf());
    KeySetConcat(open, [x], EventOf());
    OneKey(x);
    EventElsewhere(xs, i, t);
    assert open + [] == open;
  }

  lemma OneKey(x: Trade)
    ensures KeySet([x], EventOf()) == {x.event}
  {
    assert EventOf()([x][0]) in KeySet([x], EventOf());
  }

  /** With distinct events, the event at i is neither before nor after it. */
  lemma EventElsewhere(xs: seq<Trade>, i: nat, t: int)
    requires i < |xs| && DistinctBy(xs, EventOf())
    ensures xs[i].event !in KeySet(Filter(xs[..i], OpenAfter(t)), EventOf())
    ensures xs[i].event !in KeySet(xs[i + 1..], EventOf())
  {
    var open := Filter(xs[..i], OpenAfter(t));
    FilterMembers(xs[..i], OpenAfter(t));
    forall j | 0 <= j < |open| ensures EventOf()(open[j]) != xs[i].event {
      var y := open[j];
      assert y in open && y in xs[..i];
      var m :| 0 <= m < i && xs[..i][m] == y;
      assert EventOf()(xs[m]) != EventOf()(xs[i]);
    }
    var rest := xs[i + 1..];
    forall j | 0 <= j < |rest| ensures EventOf()(rest[j]) != xs[i].event {
      assert EventOf()(xs[i]) != EventOf()(xs[i + 1 + j]);
    }
  }

  lemma {:induction false} SumFilterDisjoint(s: seq<Trade>, f: Trade -> bool, g: Trade -> bool, h: Trade -> bool, v: Trade -> real)
    requires forall x :: x in s ==> h(x) == (f(x) || g(x)) && !(f(x) && g(x))
    ensures SumBy(Filter(s, h), v) == SumBy(Filter(s, f), v) + SumBy(Filter(s, g), v)
  {
    if s != [] {
      var n := |s| - 1;
      var x := s[n];
      assert x in s && s == s[..n] + [x];
      SumFilterDisjoint(s[..n], f, g, h, v);
      FilterSumSnoc(s[..n], x, f, v);
      FilterSumSnoc(s[..n], x, g, v);
      FilterSumSnoc(s[..n], x, h, v);
    }
  }

  function ClosedBetween(t0: int, t: int): Trade -> bool { (x: Trade) => t0 < x.closed <= t }

  /** Releasing from the positions open after t0 is releasing from all accepted trades. */
  lemma Released(k: Terms, accepted: seq<Trade>, t0: int, t: int)
    requires Usable(k) && t0 <= t && DistinctBy(Filter(accepted, OpenAfter(t0)), EventOf())
    ensures var xs := Filter(accepted, OpenAfter(t0));
      && Filter(xs, OpenAfter(t)) == Filter(accepted, OpenAfter(t))
      && CashAt(k, accepted, t) == CashAt(k, accepted, t0) + SumBy(Filter(xs, ClosedBy(t)), ProceedsOf(k))
      && DistinctBy(Filter(accepted, OpenAfter(t)), EventOf())
  {
    var xs := Filter(accepted, OpenAfter(t0));
    FilterTwice(accepted, OpenAfter(t0), OpenAfter(t), OpenAfter(t));
    FilterTwice(accepted, OpenAfter(t0), ClosedBy(t), ClosedBetween(t0, t));
    SumFilterDisjoint(accepted, ClosedBy(t0), ClosedBetween(t0, t), ClosedBy(t), ProceedsOf(k));
    FilterDistinct(xs, OpenAfter(t), EventOf());
  }

  /** One entry of the loop: release everything closed by te, then test event and cash. */
  method Enter(k: Terms, ghost before: seq<Trade>, x: Trade, ghost t0: int, cash0: real, live0: seq<Open>, busy0: set<string>)
    returns (cash: real, live: seq<Open>, busy: set<string>, taken: bool)
    requires Usable(k) && Holds(k, before, t0, cash0, live0, busy0) && t0 <= x.te < x.closed
    ensures taken <==> Accepts(k, before, x)
    ensures Holds(k, before + if taken then [x] else [], x.te, cash, live, busy)
  {
    cash, live, busy := Release(k, before, t0, x.te, cash0, live0, busy0);
    taken := false;
    assert before + [] == before;
    if x.event in busy || cash < k.size {
      return;
    }
    CostPositive(x.p, k.mult);
    var shares := k.size / CostPerShare(x.p, k.mult);
    ghost var xs := Filter(before, OpenAfter(x.te));
    AddTrade(k, before, x);
    cash := cash - k.size;
    busy := busy + {x.event};
    live := live + [Open(x, shares)];
    taken := true;
  }

  lemma AddTrade(k: Terms, before: seq<Trade>, x: Trade)
    requires Usable(k) && x.te < x.closed && x.event !in BusyAt(before, x.te)
    requires DistinctBy(Filter(before, OpenAfter(x.te)), EventOf())
    ensures CashAt(k, before + [x], x.te) == CashAt(k, before, x.te) - k.size
    ensures Filter(before + [x], OpenAfter(x.te)) == Filter(before, OpenAfter(x.te)) + [x]
    ensures Positions(k, Filter(before, OpenAfter(x.te)) + [x]) ==
            Positions(k, Filter(before, OpenAfter(x.te))) + [Open(x, Shares(k, x))]
    ensures BusyAt(before + [x], x.te) == BusyAt(before, x.te) + {x.event}
    ensures DistinctBy(Filter(before, OpenAfter(x.te)) + [x], EventOf())
  {
    var xs := Filter(before, OpenAfter(x.te));
    FilterSnoc(before, x, OpenAfter(x.te));
    FilterSnoc(before, x, ClosedBy(x.te));
    assert Filter(before, ClosedBy(x.te)) + [] == Filter(before, ClosedBy(x.te));
    SumSnoc(before, x, StakeOf(k));
    PositionsSnoc(k, xs, x);
    KeySetConcat(xs, [x], EventOf());
    OneKey(x);
    forall y, z | y in xs && z in [x] ensures EventOf()(y) != EventOf()(z) {
      var i :| 0 <= i < |xs| && xs[i] == y;
      assert EventOf()(xs[i]) in KeySet(xs, EventOf());
    }
    DistinctConcat(xs, [x], EventOf());
  }

  // ---------------------------------------------------------------- the days

  /** Equity at the end of the day before day n. */
  function EquityBefore(k: Terms, px: Prices, trades: seq<Trade>, lo: int, n: nat): real
    requires Usable(k) && forall m :: m in px ==> Sound(px[m])
  {
    if n == 0 then CAPITAL else EquityAt(k, px, trades, DayEnd(lo, n - 1))
  }

  /** The daily returns: the change in equity over the capital. */
  function DailyReturns(k: Terms, px: Prices, trades: seq<Trade>, lo: int, n: nat): (r: seq<real>)
    requires Usable(k) && forall m :: m in px ==> Sound(px[m])
    ensures |r| == n
  {
    if n == 0 then []
    else DailyReturns(k, px, trades, lo, n - 1) +
         [(EquityBefore(k, px, trades, lo, n) - EquityBefore(k, px, trades, lo, n - 1)) / CAPITAL]
  }

  /** The entries before i are in the book as of the instant t, and no later entry is before t. */
  ghost predicate Reached(k: Terms, trades: seq<Trade>, i: nat, t: int, cash: real, live: seq<Open>, busy: set<string>,
                          taken: nat)
    requires Usable(k) && i <= |trades|
  {
    && Holds(k, Accepted(k, trades[..i]), t, cash, live, busy) && taken == |Accepted(k, trades[..i])|
    && (i < |trades| ==> t <= trades[i].te)
  }

  lemma EnteredMono(trades: seq<Trade>, t: int, later: int)
    requires t <= later
    ensures Entered(trades, t) <= Entered(trades, later)
  {
  }

  /** bt_bonds.book: daily returns, and the number of trades taken. */
  method Book(trades: seq<Trade>, px: Prices, f: real, mult: real, lo: int, hi: int)
    returns (returns_: seq<real>, taken: nat)
    requires Entries(trades) && f >= 0.0 && mult >= 0.0
    requires forall m :: m in px ==> Sound(px[m])
    requires forall i :: 0 <= i < |trades| ==> trades[i].market in px
    ensures Usable(Terms(f * CAPITAL, mult))
    ensures returns_ == DailyReturns(Terms(f * CAPITAL, mult), px, trades, lo, Days(lo, hi))
    ensures Days(lo, hi) > 0 ==>
              taken == |Accepted(Terms(f * CAPITAL, mult), trades[..Entered(trades, DayEnd(lo, Days(lo, hi) - 1))])|
    ensures Days(lo, hi) == 0 ==> taken == 0
  {
    hide Reached, Accepted, EquityAt, Entries, Entered, BusyAt, CashAt, Positions;
    var k := Terms(f * CAPITAL, mult);
    var cash, live, busy: set<string> := CAPITAL, [], {};
    returns_, taken := [], 0;
    var i := 0;
    var last := CAPITAL;
    ghost var t := ReachedStart(k, trades, lo);
    for n := 0 to Days(lo, hi)
      invariant 0 <= i <= |trades| && Reached(k, trades, i, t, cash, live, busy, taken)
      invariant t < DayEnd(lo, n)
      invariant i == if n == 0 then 0 else Entered(trades, DayEnd(lo, n - 1))
      invariant last == EquityBefore(k, px, trades, lo, n)
      invariant returns_ == DailyReturns(k, px, trades, lo, n)
    {
      var equity;
      if n > 0 {
        EnteredMono(trades, DayEnd(lo, n - 1), DayEnd(lo, n));
      }
      cash, live, busy, taken, i, equity, t := RunDay(k, trades, px, DayEnd(lo, n), cash, live, busy, taken, i, t);
      returns_ := returns_ + [(equity - last) / CAPITAL];
      last := equity;
    }
    ReachedTaken(k, trades, i, t, cash, live, busy, taken);
  }

  lemma ReachedStart(k: Terms, trades: seq<Trade>, lo: int) returns (t: int)
    requires Usable(k)
    ensures Reached(k, trades, 0, t, CAPITAL, [], {}, 0) && t <= lo
  {
    t := if trades == [] then lo else MinInt(lo, trades[0].te);
    assert trades[..0] == [];
  }

  lemma ReachedTaken(k: Terms, trades: seq<Trade>, i: nat, t: int, cash: real, live: seq<Open>, busy: set<string>, taken: nat)
    requires Usable(k) && i <= |trades| && Reached(k, trades, i, t, cash, live, busy, taken)
    ensures taken == |Accepted(k, trades[..i])|
    ensures i == 0 ==> taken == 0
  {
  }

  /** One day: its entries, the payouts before its end, and the equity it closes with. */
  method RunDay(k: Terms, trades: seq<Trade>, px: Prices, end: int, cash0: real, live0: seq<Open>, busy0: set<string>,
                taken0: nat, i0: nat, ghost t0: int)
    returns (cash: real, live: seq<Open>, busy: set<string>, taken: nat, i: nat, equity: real, ghost t: int)
    requires Usable(k) && Entries(trades) && i0 <= |trades| && Reached(k, trades, i0, t0, cash0, live0, busy0, taken0)
    requires t0 < end && i0 <= Entered(trades, end)
    requires forall m :: m in px ==> Sound(px[m])
    requires forall i :: 0 <= i < |trades| ==> trades[i].market in px
    ensures i == Entered(trades, end) && Reached(k, trades, i, t, cash, live, busy, taken) && t == end - 1
    ensures equity == EquityAt(k, px, trades, end)
  {
    hide *;
    cash, live, busy, taken, i, t := EnterDay(k, trades, end, cash0, live0, busy0, taken0, i0, t0);
    ReachedHolds(k, trades, i, t, cash, live, busy, taken);
    cash, live, busy := Release(k, Accepted(k, trades[..i]), t, end - 1, cash, live, busy);
    t := end - 1;
    HoldsReached(k, trades, i, t, cash, live, busy, taken);
    AcceptedMarkets(k, trades, i, px);
    HoldsParts(k, Accepted(k, trades[..i]), t, cash, live, busy);
    var marks := Marks(k, px, Accepted(k, trades[..i]), live, end);
    equity := cash + marks;
    EquityParts(k, px, trades, end);
  }

  lemma ReachedHolds(k: Terms, trades: seq<Trade>, i: nat, t: int, cash: real, live: seq<Open>, busy: set<string>,
                     taken: nat)
    requires Usable(k) && i <= |trades| && Reached(k, trades, i, t, cash, live, busy, taken)
    ensures Holds(k, Accepted(k, trades[..i]), t, cash, live, busy) && taken == |Accepted(k, trades[..i])|
  {
  }

  lemma HoldsReached(k: Terms, trades: seq<Trade>, i: nat, t: int, cash: real, live: seq<Open>, busy: set<string>,
                     taken: nat)
    requires Usable(k) && i <= |trades| && Holds(k, Accepted(k, trades[..i]), t, cash, live, busy)
    requires taken == |Accepted(k, trades[..i])| && i == Entered(trades, t + 1) && Entries(trades)
    ensures Reached(k, trades, i, t, cash, live, busy, taken)
  {
    hide Accepted, Holds;
  }

  lemma HoldsParts(k: Terms, accepted: seq<Trade>, t: int, cash: real, live: seq<Open>, busy: set<string>)
    requires Usable(k) && Holds(k, accepted, t, cash, live, busy)
    ensures cash == CashAt(k, accepted, t) && live == Positions(k, Filter(accepted, OpenAfter(t)))
  {
    hide CashAt, Positions, Filter;
  }

  lemma AcceptedMarkets(k: Terms, trades: seq<Trade>, i: nat, px: Prices)
    requires Usable(k) && i <= |trades| && forall j :: 0 <= j < |trades| ==> trades[j].market in px
    ensures forall x :: x in Accepted(k, trades[..i]) ==> x.market in px
  {
    hide Accepted;
    AcceptedFrom(k, trades[..i]);
    assert forall x :: x in trades[..i] ==> x.market in px;
  }

  lemma EquityParts(k: Terms, px: Prices, trades: seq<Trade>, end: int)
    requires Usable(k) && forall m :: m in px ==> Sound(px[m])
    ensures var accepted := Accepted(k, trades[..Entered(trades, end)]);
      EquityAt(k, px, trades, end) ==
      CashAt(k, accepted, end - 1) + SumBy(Filter(accepted, OpenAfter(end - 1)), MarkedOf(k, px, end))
  {
    hide Accepted, CashAt, SumBy, Filter;
  }

  lemma AcceptedStep(k: Terms, trades: seq<Trade>, i: nat)
    requires Usable(k) && i < |trades|
    ensures var before := Accepted(k, trades[..i]);
      Accepted(k, trades[..i + 1]) == before + if Accepts(k, before, trades[i]) then [trades[i]] else []
  {
    assert trades[..i + 1][..i] == trades[..i];
  }

  /** The entries of one day. */
  method EnterDay(k: Terms, trades: seq<Trade>, end: int, cash0: real, live0: seq<Open>, busy0: set<string>, taken0: nat,
                  i0: nat, ghost t0: int)
    returns (cash: real, live: seq<Open>, busy: set<string>, taken: nat, i: nat, ghost t: int)
    requires Usable(k) && Entries(trades) && i0 <= |trades| && Reached(k, trades, i0, t0, cash0, live0, busy0, taken0)
    requires t0 < end && i0 <= Entered(trades, end)
    ensures i == Entered(trades, end) && Reached(k, trades, i, t, cash, live, busy, taken) && t < end
  {
    hide Holds, Accepted, Accepts;
    cash, live, busy, taken, i, t := cash0, live0, busy0, taken0, i0, t0;
    while i < |trades| && trades[i].te < end
      invariant i0 <= i <= |trades| && i <= Entered(trades, end)
      invariant Reached(k, trades, i, t, cash, live, busy, taken) && t < end
    {
      AcceptedStep(k, trades, i);
      var took;
      cash, live, busy, took := Enter(k, Accepted(k, trades[..i]), trades[i], t, cash, live, busy);
      t := trades[i].te;
      i := i + 1;
      if took {
        taken := taken + 1;
      }
    }
  }

  /** The marks of the open positions at the end of a day. */
  method Marks(k: Terms, px: Prices, ghost accepted: seq<Trade>, live: seq<Open>, end: int) returns (marks: real)
    requires Usable(k) && forall m :: m in px ==> Sound(px[m])
    requires live == Positions(k, Filter(accepted, OpenAfter(end - 1)))
    requires forall x :: x in accepted ==> x.market in px
    ensures marks == SumBy(Filter(accepted, OpenAfter(end - 1)), MarkedOf(k, px, end))
  {
    hide Filter, Shares, UpTo;
    ghost var xs := Filter(accepted, OpenAfter(end - 1));
    PositionsAt(k, xs);
    FilterMembers(accepted, OpenAfter(end - 1));
    marks := 0.0;
    for i := 0 to |live|
      invariant marks == SumBy(xs[..i], MarkedOf(k, px, end))
    {
      assert xs[..i + 1][..i] == xs[..i];
      var o := live[i];
      assert o == Open(xs[i], Shares(k, xs[i])) && xs[i] in xs;
      var h := px[o.trade.market];
      UpToBound(h.t, end - 1);
      var j := UpTo(h.t, end - 1) - 1;
      var py := if j >= 0 then h.p[j] else o.trade.p;
      marks := marks + Times(o.shares, if o.trade.yes then py else 1.0 - py);
    }
    assert xs[..|live|] == xs;
  }

  // ---------------------------------------------------------------- what the fold guarantees

  lemma {:induction false} AcceptedFrom(k: Terms, trades: seq<Trade>)
    requires Usable(k)
    ensures forall x :: x in Accepted(k, trades) ==> x in trades
  {
    if trades != [] {
      AcceptedFrom(k, trades[..|trades| - 1]);
      assert trades == trades[..|trades| - 1] + [trades[|trades| - 1]];
    }
  }

  lemma {:induction false} ProceedsGrow(k: Terms, xs: seq<Trade>, t: int, later: int)
    requires Usable(k) && t <= later
    ensures SumBy(Filter(xs, ClosedBy(t)), ProceedsOf(k)) <= SumBy(Filter(xs, ClosedBy(later)), ProceedsOf(k))
  {
    if xs != [] {
      var n := |xs| - 1;
      assert xs == xs[..n] + [xs[n]];
      ProceedsGrow(k, xs[..n], t, later);
      FilterSumSnoc(xs[..n], xs[n], ClosedBy(t), ProceedsOf(k));
      FilterSumSnoc(xs[..n], xs[n], ClosedBy(later), ProceedsOf(k));
      ProceedsPositive(k, xs[n]);
    }
  }

  lemma ProceedsPositive(k: Terms, x: Trade)
    requires Usable(k)
    ensures ProceedsOf(k)(x) >= 0.0
  {
    CostPositive(x.p, k.mult);
    var cost, shares := CostPerShare(x.p, k.mult), Shares(k, x);
    assert shares * cost == k.size;
    assert shares >= 0.0;
    assert shares * x.payout >= 0.0;
  }

  /** Cash is never negative: not after any entry, nor at any later instant. */
  lemma {:induction false} CashNeverNegative(k: Terms, trades: seq<Trade>, t: int)
    requires Usable(k) && Entries(trades) && (trades == [] || trades[|trades| - 1].te <= t)
    ensures CashAt(k, Accepted(k, trades), t) >= 0.0
  {
    if trades != [] {
      var n := |trades| - 1;
      var before, x := Accepted(k, trades[..n]), trades[n];
      CashNeverNegative(k, trades[..n], t);
      assert before + [] == before;
      if Accepts(k, before, x) {
        assert Accepted(k, trades) == before + [x];
        ProceedsGrow(k, before, x.te, t);
        FilterSumSnoc(before, x, ClosedBy(t), ProceedsOf(k));
        SumSnoc(before, x, StakeOf(k));
        ProceedsPositive(k, x);
      }
    }
  }

  lemma OpenIsBusy(xs: seq<Trade>, i: nat, t: int)
    requires i < |xs|
    ensures xs[i].closed > t ==> xs[i].event in BusyAt(xs, t)
  {
    FilterMembers(xs, OpenAfter(t));
    var x, open := xs[i], Filter(xs, OpenAfter(t));
    assert x in xs;
    if x.closed > t {
      assert x in open;
      var m :| 0 <= m < |open| && open[m] == x;
      assert EventOf()(open[m]) in KeySet(open, EventOf());
    }
  }

  /** Two accepted trades of one event never overlap: the earlier one is closed when the later one enters. */
  lemma {:induction false} OneTradePerEvent(k: Terms, trades: seq<Trade>, i: nat, j: nat)
    requires Usable(k) && i < j < |Accepted(k, trades)|
    requires Accepted(k, trades)[i].event == Accepted(k, trades)[j].event
    ensures Accepted(k, trades)[i].closed <= Accepted(k, trades)[j].te
  {
    var n := |trades| - 1;
    var before, x := Accepted(k, trades[..n]), trades[n];
    if j < |before| {
      OneTradePerEvent(k, trades[..n], i, j);
    } else {
      OpenIsBusy(before, i, x.te);
    }
  }

  lemma {:induction false} SplitByClose(k: Terms, xs: seq<Trade>, t: int)
    requires Usable(k)
    ensures SumBy(xs, StakeOf(k)) == SumBy(Filter(xs, OpenAfter(t)), StakeOf(k)) + SumBy(Filter(xs, ClosedBy(t)), StakeOf(k))
    ensures SumBy(Filter(xs, ClosedBy(t)), ProfitOf(k)) ==
            SumBy(Filter(xs, ClosedBy(t)), ProceedsOf(k)) - SumBy(Filter(xs, ClosedBy(t)), StakeOf(k))
  {
    if xs != [] {
      var n := |xs| - 1;
      var x := xs[n];
      assert xs == xs[..n] + [x];
      SplitByClose(k, xs[..n], t);
      FilterSumSnoc(xs[..n], x, OpenAfter(t), StakeOf(k));
      FilterSumSnoc(xs[..n], x, ClosedBy(t), StakeOf(k));
      FilterSumSnoc(xs[..n], x, ClosedBy(t), ProceedsOf(k));
      FilterSumSnoc(xs[..n], x, ClosedBy(t), ProfitOf(k));
    }
  }

  /** Conservation: cash plus the stakes still open is the capital plus the profit realised so far. */
  lemma Conservation(k: Terms, accepted: seq<Trade>, t: int)
    requires Usable(k)
    ensures CashAt(k, accepted, t) + SumBy(Filter(accepted, OpenAfter(t)), StakeOf(k)) ==
            CAPITAL + SumBy(Filter(accepted, ClosedBy(t)), ProfitOf(k))
  {
    SplitByClose(k, accepted, t);
  }

  function Value(): real -> real { (r: real) => r }

  lemma {:induction false} Telescope(k: Terms, px: Prices, trades: seq<Trade>, lo: int, n: nat)
    requires Usable(k) && forall m :: m in px ==> Sound(px[m])
    ensures SumBy(DailyReturns(k, px, trades, lo, n), Value()) == (EquityBefore(k, px, trades, lo, n) - CAPITAL) / CAPITAL
  {
    hide EquityAt;
    if n != 0 {
      var front := DailyReturns(k, px, trades, lo, n - 1);
      Telescope(k, px, trades, lo, n - 1);
      SumSnoc(front, (EquityBefore(k, px, trades, lo, n) - EquityBefore(k, px, trades, lo, n - 1)) / CAPITAL, Value());
    }
  }

  /** Once every accepted trade is closed, the daily returns add up to the accepted trades' profits over the capital,
      whatever the marks and the day grid were. */
  lemma ReturnsAddUp(k: Terms, px: Prices, trades: seq<Trade>, lo: int, n: nat)
    requires Usable(k) && n > 0 && forall m :: m in px ==> Sound(px[m])
    requires Entered(trades, DayEnd(lo, n - 1)) == |trades|
    requires forall x :: x in Accepted(k, trades) ==> x.closed < DayEnd(lo, n - 1)
    ensures SumBy(DailyReturns(k, px, trades, lo, n), Value()) == SumBy(Accepted(k, trades), ProfitOf(k)) / CAPITAL
  {
    hide EquityAt, Accepted;
    Telescope(k, px, trades, lo, n);
    ClosedEquity(k, px, trades, DayEnd(lo, n - 1));
  }

  lemma ClosedEquity(k: Terms, px: Prices, trades: seq<Trade>, end: int)
    requires Usable(k) && Entered(trades, end) == |trades| && forall m :: m in px ==> Sound(px[m])
    requires forall x :: x in Accepted(k, trades) ==> x.closed < end
    ensures EquityAt(k, px, trades, end) == CAPITAL + SumBy(Accepted(k, trades), ProfitOf(k))
  {
    hide Accepted, Shares;
    var accepted := Accepted(k, trades);
    assert trades[..|trades|] == trades;
    NoneKept(accepted, OpenAfter(end - 1));
    AllKept(accepted, ClosedBy(end - 1));
    SplitByClose(k, accepted, end - 1);
  }
}
