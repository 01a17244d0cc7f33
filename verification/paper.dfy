/** The paper book of the stocks in play: weights under a cap on what is open together
    (research/orb_stocks_in_play/bt_sip.py:151-168). */
module PaperBook {
  import opened Lists
  import opened Sorting
  import opened SweepLine

  type Positive = r: real | r > 0.0 witness 1.0

  const ATR_STOP: real := 0.1
  const RISK: real := 0.01
  const MAX_WEIGHT: real := 4.0

  /** A simulated trade of one day, in minutes. */
  datatype Paper = Paper(entry: int, exit: int, atr: Positive, fill: Positive, ret: real)

  /** 1% of equity at risk over the stop distance, at most four times the equity. */
  function Wanted(x: Paper): real { MinReal(RISK / (ATR_STOP * x.atr / x.fill), MAX_WEIGHT) }

  lemma WantedPositive(x: Paper)
    ensures 0.0 < Wanted(x) <= MAX_WEIGHT
  {
    var stop := ATR_STOP * x.atr / x.fill;
    assert stop > 0.0;
    assert RISK / stop > 0.0;
  }

  /** Sized so that one stop costs one percent of the equity, unless that takes more than four times the equity. */
  lemma WantedMeaning(x: Paper)
    ensures Times(Wanted(x), 0.1 * x.atr) <= 0.01 * x.fill && Wanted(x) <= 4.0
    ensures Wanted(x) < 4.0 ==> Times(Wanted(x), 0.1 * x.atr) == 0.01 * x.fill
  {
    var loss, full := ATR_STOP * x.atr / x.fill, RISK / (ATR_STOP * x.atr / x.fill);
    assert loss > 0.0 && full * loss == RISK;
    assert loss * x.fill == ATR_STOP * x.atr;
    StopCost(full, loss, x.fill);
    StopCost(Wanted(x), loss, x.fill);
    LessCosts(Wanted(x), full, loss);
    LessCosts(Times(Wanted(x), loss), RISK, x.fill);
  }

  lemma StopCost(w: real, loss: real, fill: real)
    ensures Times(w, loss * fill) == Times(Times(w, loss), fill)
  {
  }

  lemma LessCosts(x: real, y: real, k: real)
    requires x <= y && k > 0.0
    ensures Times(x, k) <= Times(y, k)
  {
  }

  function EntryMinute(): (Paper, Paper) -> bool { (a: Paper, b: Paper) => a.entry <= b.entry }

  /** A taken trade and its weight; the exit minute itself still counts as open. */
  datatype Taken = Taken(trade: Paper, weight: real)

  function TakenSpan(): Taken -> Span { (x: Taken) => Span(x.trade.entry, x.trade.exit + 1, x.weight) }

  function Room(before: seq<Taken>, cap: real, t: int): real {
    cap - SumBy(Filter(Map(before, TakenSpan()), OpenAfter(t)), SizeOf())
  }

  /** The trades of one day with their weights, under a cap on the total weight of overlapping trades. */
  function Weighted(order: seq<Paper>, cap: Option<real>): seq<Taken> {
    if order == [] then []
    else
      var before := Weighted(order[..|order| - 1], cap);
      var x := order[|order| - 1];
      if cap.None? then before + [Taken(x, Wanted(x))]
      else
        var w := MinReal(Wanted(x), MaxReal(Room(before, cap.value, x.entry), 0.0));
        before + if w <= 0.0 then [] else [Taken(x, w)]
  }

  function Earned(): Taken -> real { (x: Taken) => Times(x.weight, x.trade.ret) }

  datatype Live = Live(exit: int, weight: real)

  function LiveFrom(t: int): Live -> bool { (x: Live) => x.exit >= t }

  function WeightOf(): Live -> real { (x: Live) => x.weight }

  function ToLive(): Taken -> Live { (x: Taken) => Live(x.trade.exit, x.weight) }

  /** The list of live weights agrees with the taken trades from an instant on. */
  ghost predicate LiveTracks(live: seq<Live>, taken: seq<Taken>, from: int) {
    forall t :: t >= from ==>
      SumBy(Filter(live, LiveFrom(t)), WeightOf()) == SumBy(Filter(Map(taken, TakenSpan()), OpenAfter(t)), SizeOf())
  }

  lemma LiveFiltered(live: seq<Live>, taken: seq<Taken>, from: int, t: int)
    requires LiveTracks(live, taken, from) && from <= t
    ensures LiveTracks(Filter(live, LiveFrom(t)), taken, t)
  {
    forall u | u >= t
      ensures SumBy(Filter(Filter(live, LiveFrom(t)), LiveFrom(u)), WeightOf()) ==
              SumBy(Filter(Map(taken, TakenSpan()), OpenAfter(u)), SizeOf())
    {
      FilterTwice(live, LiveFrom(t), LiveFrom(u), LiveFrom(u));
    }
  }

  lemma LiveAdded(live: seq<Live>, taken: seq<Taken>, x: Taken, from: int)
    requires LiveTracks(live, taken, from)
    ensures LiveTracks(live + [ToLive()(x)], taken + [x], from)
  {
    var spans := Map(taken, TakenSpan());
    assert Map(taken + [x], TakenSpan()) == spans + [TakenSpan()(x)];
    forall t | t >= from
      ensures SumBy(Filter(live + [ToLive()(x)], LiveFrom(t)), WeightOf()) ==
              SumBy(Filter(Map(taken + [x], TakenSpan()), OpenAfter(t)), SizeOf())
    {
      FilterLoad(spans, TakenSpan()(x), OpenAfter(t));
      FilterSnoc(live, ToLive()(x), LiveFrom(t));
      SumSnoc(Filter(live, LiveFrom(t)), ToLive()(x), WeightOf());
      assert Filter(live, LiveFrom(t)) + [] == Filter(live, LiveFrom(t));
      assert SumBy(Filter(live, LiveFrom(t)), WeightOf()) == SumBy(Filter(spans, OpenAfter(t)), SizeOf());
    }
  }

  ghost predicate Arranged(order: seq<Paper>, ts: seq<Paper>) {
    multiset(order) == multiset(ts) && SortedBy(order, EntryMinute())
  }

  method SortedPapers(ts: seq<Paper>) returns (order: seq<Paper>)
    ensures Arranged(order, ts)
  {
    assert Total(EntryMinute()) && Transitive(EntryMinute());
    SortSorts(ts, EntryMinute());
    order := Sort(ts, EntryMinute());
  }

  /** One day of book_paper. */
  method PaperDay(ts: seq<Paper>, cap: Option<real>) returns (dayRet: real)
    ensures exists order :: Arranged(order, ts) && dayRet == SumBy(Weighted(order, cap), Earned())
  {
    var sorted := SortedPapers(ts);
    dayRet := SortedDay(sorted, cap);
  }

  method SortedDay(sorted: seq<Paper>, cap: Option<real>) returns (dayRet: real)
    requires SortedBy(sorted, EntryMinute())
    ensures dayRet == SumBy(Weighted(sorted, cap), Earned())
  {
    hide *;
    dayRet := 0.0;
    var live: seq<Live> := [];
    ghost var last := if sorted == [] then 0 else sorted[0].entry;
    assert sorted[..0] == [];
    NothingLive(last, cap);
    for i := 0 to |sorted|
      invariant dayRet == SumBy(Weighted(sorted[..i], cap), Earned())
      invariant LiveTracks(live, if cap.Some? then Weighted(sorted[..i], cap) else [], last)
      invariant i < |sorted| ==> last <= sorted[i].entry
    {
      var x := sorted[i];
      ghost var before := Weighted(sorted[..i], cap);
      NextEntry(sorted, i);
      var w;
      live, w := Admit(live, x, cap, before, last);
      last := x.entry;
      WeightedStep(sorted, i, cap, w);
      SumSnoc(before, Taken(x, w), Earned());
      EarnedOf(x, w);
      if cap.Some? && w <= 0.0 {
        continue;
      }
      dayRet := dayRet + Times(w, x.ret);
    }
    assert sorted[..|sorted|] == sorted;
  }

  lemma NextEntry(sorted: seq<Paper>, i: nat)
    requires SortedBy(sorted, EntryMinute())
    ensures i + 1 < |sorted| ==> sorted[i].entry <= sorted[i + 1].entry
  {
    if i + 1 < |sorted| {
      assert EntryMinute()(sorted[i], sorted[i + 1]);
    }
  }

  lemma EarnedOf(x: Paper, w: real)
    ensures Earned()(Taken(x, w)) == Times(w, x.ret)
  {
  }

  lemma NothingLive(from: int, cap: Option<real>)
    ensures LiveTracks([], [], from) && Weighted([], cap) == [] && SumBy([], Earned()) == 0.0
  {
  }

  lemma WeightedStep(order: seq<Paper>, i: nat, cap: Option<real>, w: real)
    requires i < |order|
    requires w == if cap.None? then Wanted(order[i])
                  else MinReal(Wanted(order[i]), MaxReal(Room(Weighted(order[..i], cap), cap.value, order[i].entry), 0.0))
    ensures Weighted(order[..i + 1], cap) ==
            if cap.Some? && w <= 0.0 then Weighted(order[..i], cap) else Weighted(order[..i], cap) + [Taken(order[i], w)]
  {
    assert order[..i + 1][..i] == order[..i];
    var before := Weighted(order[..i], cap);
    assert before + [] == before;
  }

  /** With room under the cap, beside the weights still open, the next trade gets its own size or all of the room, and
      without it nothing. */
  lemma WeightExactly(order: seq<Paper>, i: nat, cap: real)
    requires i < |order|
    ensures var before, x := Weighted(order[..i], Some(cap)), order[i];
      var room := cap - SumBy(Filter(Map(before, TakenSpan()), OpenAfter(x.entry)), SizeOf());
      Weighted(order[..i + 1], Some(cap)) == if room > 0.0 then before + [Taken(x, MinReal(Wanted(x), room))] else before
  {
    var before, x := Weighted(order[..i], Some(cap)), order[i];
    RoomLeft(before, cap, x.entry);
    WantedPositive(x);
    hide Weighted, Wanted, Filter, SumBy, Map, Room;
    WeightedStep(order, i, Some(cap), MinReal(Wanted(x), MaxReal(Room(before, cap, x.entry), 0.0)));
  }

  lemma RoomLeft(before: seq<Taken>, cap: real, t: int)
    ensures Room(before, cap, t) == cap - SumBy(Filter(Map(before, TakenSpan()), OpenAfter(t)), SizeOf())
  {
  }

  /** The weight of one entry, and the live list it leaves. */
  method Admit(live0: seq<Live>, x: Paper, cap: Option<real>, ghost before: seq<Taken>, ghost last: int)
    returns (live: seq<Live>, w: real)
    requires LiveTracks(live0, if cap.Some? then before else [], last) && last <= x.entry
    ensures cap.None? ==> w == Wanted(x) && LiveTracks(live, [], x.entry)
    ensures cap.Some? ==> w == MinReal(Wanted(x), MaxReal(Room(before, cap.value, x.entry), 0.0))
    ensures cap.Some? ==> LiveTracks(live, if w <= 0.0 then before else before + [Taken(x, w)], x.entry)
  {
    live, w := live0, Wanted(x);
    if cap.Some? {
      LiveFiltered(live, before, last, x.entry);
      live := Filter(live, LiveFrom(x.entry));
      FilterTwice(live0, LiveFrom(x.entry), LiveFrom(x.entry), LiveFrom(x.entry));
      var room := cap.value - SumBy(live, WeightOf());
      assert room == Room(before, cap.value, x.entry);
      w := MinReal(w, MaxReal(room, 0.0));
      if w > 0.0 {
        LiveAdded(live, before, Taken(x, w), x.entry);
        live := live + [Live(x.exit, w)];
      }
    }
  }

  lemma {:induction false} WeightedFits(order: seq<Paper>, cap: real)
    requires cap >= 0.0 && SortedBy(order, EntryMinute())
    ensures Fits(Map(Weighted(order, Some(cap)), TakenSpan()), cap)
    ensures forall x :: x in Weighted(order, Some(cap)) ==>
              order != [] && x.trade.entry <= order[|order| - 1].entry && 0.0 < x.weight <= MAX_WEIGHT
  {
    hide Fits, Wanted, Room;
    if order != [] {
      var n := |order| - 1;
      var before, x := Weighted(order[..n], Some(cap)), order[n];
      WeightedFits(order[..n], cap);
      if n > 0 {
        assert EntryMinute()(order[n - 1], order[n]);
      }
      var w := MinReal(Wanted(x), MaxReal(Room(before, cap, x.entry), 0.0));
      assert before + [] == before;
      WantedPositive(x);
      if w > 0.0 {
        WeightedOne(before, Taken(x, w), cap);
      }
    } else {
      NoSpans(cap);
      assert Map<Taken, Span>([], TakenSpan()) == [];
    }
  }

  lemma WeightedOne(before: seq<Taken>, x: Taken, cap: real)
    requires Fits(Map(before, TakenSpan()), cap) && forall y :: y in before ==> y.trade.entry <= x.trade.entry
    requires 0.0 < x.weight <= MaxReal(Room(before, cap, x.trade.entry), 0.0)
    ensures Fits(Map(before + [x], TakenSpan()), cap)
  {
    hide Fits;
    var spans := Map(before, TakenSpan());
    forall y | y in spans ensures y.start <= x.trade.entry {
      var i :| 0 <= i < |spans| && spans[i] == y;
      assert before[i] in before;
    }
    FitsSnoc(spans, TakenSpan()(x), cap);
    assert Map(before + [x], TakenSpan()) == spans + [TakenSpan()(x)];
  }

  /** At every minute the weights of the trades open then stay within the cap. */
  lemma CapNeverExceeded(order: seq<Paper>, cap: real, t: int)
    requires cap >= 0.0 && SortedBy(order, EntryMinute())
    ensures Load(Map(Weighted(order, Some(cap)), TakenSpan()), t) <= cap
  {
    WeightedFits(order, cap);
    SweepBound(Map(Weighted(order, Some(cap)), TakenSpan()), cap, t);
  }
}
