/** Books that look at entries in order and take one only if it fits beside those still open: checking a limit at the
    entries bounds what is open at every instant. */
module SweepLine {
  import opened Lists

  /** A position open from start up to, but not at, end, and the part of the limit it uses. */
  datatype Span = Span(start: int, end: int, size: real)

  function SizeOf(): Span -> real { (x: Span) => x.size }

  /** Still open when an entry at this instant is looked at. */
  function OpenAfter(t: int): Span -> bool { (x: Span) => x.end > t }

  function OpenAt(t: int): Span -> bool { (x: Span) => x.start <= t < x.end }

  /** What is in use at an instant. */
  function Load(xs: seq<Span>, t: int): real { SumBy(Filter(xs, OpenAt(t)), SizeOf()) }

  /** Entries in start order, each taken only if it fits beside those still open. */
  predicate Fits(xs: seq<Span>, limit: real) {
    && (forall i, j :: 0 <= i < j < |xs| ==> xs[i].start <= xs[j].start)
    && (forall i :: 0 <= i < |xs| ==> xs[i].size >= 0.0)
    && forall i :: 0 <= i < |xs| ==> SumBy(Filter(xs[..i], OpenAfter(xs[i].start)), SizeOf()) + xs[i].size <= limit
  }

  lemma {:induction false} LoadWithin(xs: seq<Span>, t: int, at: int)
    requires forall x :: x in xs ==> x.size >= 0.0
    requires at <= t
    ensures Load(xs, t) <= SumBy(Filter(xs, OpenAfter(at)), SizeOf())
  {
    if xs != [] {
      var n := |xs| - 1;
      var x := xs[n];
      assert xs == xs[..n] + [x];
      LoadWithin(xs[..n], t, at);
      FilterLoad(xs[..n], x, OpenAt(t));
      FilterLoad(xs[..n], x, OpenAfter(at));
    }
  }

  lemma FilterLoad(xs: seq<Span>, x: Span, f: Span -> bool)
    ensures SumBy(Filter(xs + [x], f), SizeOf()) == SumBy(Filter(xs, f), SizeOf()) + if f(x) then x.size else 0.0
  {
    FilterSumSnoc(xs, x, f, SizeOf());
  }

  /** The load of spans is the sum over what they are the spans of. */
  lemma {:induction false} MappedLoad<T>(xs: seq<T>, span: T -> Span, f: Span -> bool, g: T -> bool, h: T -> real)
    requires forall x :: x in xs ==> f(span(x)) == g(x) && span(x).size == h(x)
    ensures SumBy(Filter(Map(xs, span), f), SizeOf()) == SumBy(Filter(xs, g), h)
  {
    hide Filter, SumBy;
    if xs == [] {
      assert Map(xs, span) == [];
      NoLoad(f, g, h);
    } else {
      var n := |xs| - 1;
      var front, x := xs[..n], xs[n];
      assert xs == front + [x];
      MappedLoad(front, span, f, g, h);
      assert Map(xs, span) == Map(front, span) + [span(x)];
      FilterLoad(Map(front, span), span(x), f);
      FilterSumSnoc(front, x, g, h);
      assert x in xs;
    }
  }

  lemma NoLoad<T>(f: Span -> bool, g: T -> bool, h: T -> real)
    ensures SumBy(Filter([], f), SizeOf()) == SumBy(Filter([], g), h) == 0.0
  {
  }

  lemma FitsFront(xs: seq<Span>, limit: real)
    requires Fits(xs, limit) && xs != []
    ensures var front, x := xs[..|xs| - 1], xs[|xs| - 1];
      && Fits(front, limit) && (forall y :: y in front ==> y.size >= 0.0)
      && SumBy(Filter(front, OpenAfter(x.start)), SizeOf()) + x.size <= limit
  {
    hide Filter, SumBy;
    var n := |xs| - 1;
    forall i | 0 <= i < n ensures SumBy(Filter(xs[..n][..i], OpenAfter(xs[..n][i].start)), SizeOf()) + xs[..n][i].size <= limit {
      assert xs[..n][..i] == xs[..i];
    }
  }

  /** Sweep line: checking the limit at the entries bounds the load at every instant. */
  lemma {:induction false} SweepBound(xs: seq<Span>, limit: real, t: int)
    requires Fits(xs, limit) && limit >= 0.0
    ensures Load(xs, t) <= limit
  {
    hide Filter, SumBy, Fits;
    if xs == [] {
      NoLoad(OpenAt(t), OpenAt(t), SizeOf());
    } else {
      var n := |xs| - 1;
      var x := xs[n];
      assert xs == xs[..n] + [x];
      FitsFront(xs, limit);
      SweepBound(xs[..n], limit, t);
      FilterLoad(xs[..n], x, OpenAt(t));
      if OpenAt(t)(x) {
        LoadWithin(xs[..n], t, x.start);
      }
    }
  }

  lemma FitsSnoc(xs: seq<Span>, x: Span, limit: real)
    requires Fits(xs, limit) && x.size >= 0.0 && forall y :: y in xs ==> y.start <= x.start
    requires SumBy(Filter(xs, OpenAfter(x.start)), SizeOf()) + x.size <= limit
    ensures Fits(xs + [x], limit)
  {
    hide SumBy, Filter;
    var ys := xs + [x];
    forall i | 0 <= i < |ys|
      ensures SumBy(Filter(ys[..i], OpenAfter(ys[i].start)), SizeOf()) + ys[i].size <= limit
    {
      assert ys[..i] == xs[..i];
      assert xs[..|xs|] == xs;
    }
    assert forall i :: 0 <= i < |xs| ==> xs[i] in xs;
  }

  lemma NoSpans(limit: real)
    ensures Fits([], limit)
  {
  }
}
