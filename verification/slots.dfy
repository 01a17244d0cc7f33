/** The slot books: entries in order, each taken while a slot is free (research/delist_drift/bt_delist.py:126-137,
    research/listing_pump/bt_spotlist.py:355-365, research/launch_day/bt_launch.py:184-194). */
module SlotBooks {
  import opened Lists
  import opened Sorting
  import opened SweepLine

  /** A trade of a slot book; liq is the tie-breaking liquidity of the delisting book. */
  datatype Trade = Trade(entry: int, exit: int, liq: real, ret: real)

  function EntryOrder(byLiquidity: bool): (Trade, Trade) -> bool {
    (a: Trade, b: Trade) => a.entry < b.entry || (a.entry == b.entry && (!byLiquidity || a.liq >= b.liq))
  }

  lemma EntryOrderTotal(byLiquidity: bool)
    ensures Total(EntryOrder(byLiquidity)) && Transitive(EntryOrder(byLiquidity))
  {
  }

  function ActiveAfter(t: int): Trade -> bool { (x: Trade) => x.exit > t }

  /** The trades a book with this many slots keeps, looking at them in order. */
  function Kept(order: seq<Trade>, slots: nat): seq<Trade> {
    if order == [] then []
    else
      var before := Kept(order[..|order| - 1], slots);
      var x := order[|order| - 1];
      before + if |Filter(before, ActiveAfter(x.entry))| < slots then [x] else []
  }

  function ExitOf(): Trade -> int { (x: Trade) => x.exit }

  /** One of the orders a sort by entry (and liquidity) may leave. */
  ghost predicate Arranged(order: seq<Trade>, trades: seq<Trade>, byLiquidity: bool) {
    multiset(order) == multiset(trades) && SortedBy(order, EntryOrder(byLiquidity))
  }

  method SortedTrades(trades: seq<Trade>, byLiquidity: bool) returns (order: seq<Trade>)
    ensures Arranged(order, trades, byLiquidity)
  {
    EntryOrderTotal(byLiquidity);
    SortSorts(trades, EntryOrder(byLiquidity));
    order := Sort(trades, EntryOrder(byLiquidity));
  }

  function After(t: int): int -> bool { (x: int) => x > t }

  /** From an instant on, the list of exits says which kept trades are still open. */
  ghost predicate Tracks(active: seq<int>, keep: seq<Trade>, from: int) {
    forall t :: t >= from ==> Filter(active, After(t)) == Map(Filter(keep, ActiveAfter(t)), ExitOf())
  }

  lemma TracksFiltered(active: seq<int>, keep: seq<Trade>, from: int, t: int)
    requires Tracks(active, keep, from) && from <= t
    ensures Tracks(Filter(active, After(t)), keep, t)
  {
    forall u | u >= t ensures Filter(Filter(active, After(t)), After(u)) == Map(Filter(keep, ActiveAfter(u)), ExitOf()) {
      FilterTwice(active, After(t), After(u), After(u));
    }
  }

  lemma TracksAdded(active: seq<int>, keep: seq<Trade>, x: Trade, from: int)
    requires Tracks(active, keep, from)
    ensures Tracks(active + [x.exit], keep + [x], from)
  {
    forall t | t >= from
      ensures Filter(active + [x.exit], After(t)) == Map(Filter(keep + [x], ActiveAfter(t)), ExitOf())
    {
      FilterSnoc(active, x.exit, After(t));
      FilterSnoc(keep, x, ActiveAfter(t));
    }
  }

  /** book() of the three slot strategies: free the slots whose exit is not after the entry, then take one if any is
      free. */
  method SlotBook(trades: seq<Trade>, slots: nat, byLiquidity: bool) returns (keep: seq<Trade>)
    ensures exists order :: Arranged(order, trades, byLiquidity) && keep == Kept(order, slots)
  {
    var sorted := SortedTrades(trades, byLiquidity);
    keep := [];
    var active: seq<int> := [];
    ghost var last := if sorted == [] then 0 else sorted[0].entry;
    for i := 0 to |sorted|
      invariant keep == Kept(sorted[..i], slots)
      invariant Tracks(active, keep, last)
      invariant i < |sorted| ==> last <= sorted[i].entry
    {
      assert sorted[..i + 1][..i] == sorted[..i];
      var x := sorted[i];
      TracksFiltered(active, keep, last, x.entry);
      assert |Filter(active, After(x.entry))| == |Filter(keep, ActiveAfter(x.entry))|;
      active := Filter(active, After(x.entry));
      if |active| < slots {
        TracksAdded(active, keep, x, x.entry);
        active := active + [x.exit];
        keep := keep + [x];
      }
      last := x.entry;
      if i + 1 < |sorted| {
        assert EntryOrder(byLiquidity)(sorted[i], sorted[i + 1]);
      }
    }
    assert sorted[..|sorted|] == sorted;
  }

  function HeldAt(t: int): Trade -> bool { (x: Trade) => x.entry <= t < x.exit }

  function UnitSpan(): Trade -> Span { (x: Trade) => Span(x.entry, x.exit, 1.0) }

  lemma {:induction false} KeptFits(order: seq<Trade>, slots: nat, byLiquidity: bool)
    requires SortedBy(order, EntryOrder(byLiquidity))
    ensures Fits(Map(Kept(order, slots), UnitSpan()), slots as real)
    ensures forall x :: x in Kept(order, slots) ==> order != [] && x.entry <= order[|order| - 1].entry
  {
    hide Fits, OpenAfter, ActiveAfter;
    if order != [] {
      var n := |order| - 1;
      var before, x := Kept(order[..n], slots), order[n];
      KeptFits(order[..n], slots, byLiquidity);
      if n > 0 {
        assert EntryOrder(byLiquidity)(order[n - 1], order[n]);
      }
      assert before + [] == before;
      if |Filter(before, ActiveAfter(x.entry))| < slots {
        KeptOne(before, x, slots);
      }
    } else {
      NoSpans(slots as real);
      assert Map<Trade, Span>([], UnitSpan()) == [];
    }
  }

  lemma KeptOne(before: seq<Trade>, x: Trade, slots: nat)
    requires Fits(Map(before, UnitSpan()), slots as real) && forall y :: y in before ==> y.entry <= x.entry
    requires |Filter(before, ActiveAfter(x.entry))| < slots
    ensures Fits(Map(before + [x], UnitSpan()), slots as real)
  {
    hide Fits;
    var spans := Map(before, UnitSpan());
    UnitLoad(before, OpenAfter(x.entry), ActiveAfter(x.entry));
    forall y | y in spans ensures y.start <= x.entry {
      var i :| 0 <= i < |spans| && spans[i] == y;
      assert before[i] in before;
    }
    FitsSnoc(spans, UnitSpan()(x), slots as real);
    assert Map(before + [x], UnitSpan()) == spans + [UnitSpan()(x)];
  }

  lemma {:induction false} UnitLoad(xs: seq<Trade>, f: Span -> bool, g: Trade -> bool)
    requires forall x :: f(UnitSpan()(x)) == g(x)
    ensures SumBy(Filter(Map(xs, UnitSpan()), f), SizeOf()) == |Filter(xs, g)| as real
  {
    if xs != [] {
      var n := |xs| - 1;
      UnitLoad(xs[..n], f, g);
      assert Map(xs, UnitSpan()) == Map(xs[..n], UnitSpan()) + [UnitSpan()(xs[n])];
      FilterLoad(Map(xs[..n], UnitSpan()), UnitSpan()(xs[n]), f);
    }
  }

  /** At every instant a slot book holds at most its number of slots. */
  lemma SlotsNeverExceeded(order: seq<Trade>, slots: nat, byLiquidity: bool, t: int)
    requires SortedBy(order, EntryOrder(byLiquidity))
    ensures |Filter(Kept(order, slots), HeldAt(t))| <= slots
  {
    KeptFits(order, slots, byLiquidity);
    SweepBound(Map(Kept(order, slots), UnitSpan()), slots as real, t);
    UnitLoad(Kept(order, slots), OpenAt(t), HeldAt(t));
  }

  /** A trade is refused exactly when all slots are held by kept trades at its entry. */
  lemma RefusedOnlyWhenFull(order: seq<Trade>, slots: nat, byLiquidity: bool, i: nat)
    requires SortedBy(order, EntryOrder(byLiquidity)) && i < |order|
    ensures Kept(order[..i + 1], slots) == Kept(order[..i], slots) <==>
            |Filter(Kept(order[..i], slots), HeldAt(order[i].entry))| == slots
  {
    var before, x := Kept(order[..i], slots), order[i];
    assert order[..i + 1][..i] == order[..i];
    KeptFits(order[..i], slots, byLiquidity);
    if i > 0 {
      assert EntryOrder(byLiquidity)(order[i - 1], order[i]);
    }
    FilterSame(before, HeldAt(x.entry), ActiveAfter(x.entry));
    SlotsNeverExceeded(order[..i], slots, byLiquidity, x.entry);
  }
}
