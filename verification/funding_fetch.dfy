/** Fetching funding settlements through a paged endpoint, and resuming the fetch
    (research/strategy_search/fwd_update.py:30-48, 108-144). Times are in milliseconds. */
module FundingFetch {
  import opened Lists

  datatype Settlement = Settlement(t: int, symbol: string, rate: real)

  const PAGE := 1000
  const SMALL := 60_000
  const HOUR := 3_600_000
  const STEP := 4 * HOUR

  /** What the endpoint answers for [start, end - 1]; None for an unknown request. */
  type Endpoint = (int, int) -> Option<seq<Settlement>>

  function Within(start: int, end: int): Settlement -> bool { (x: Settlement) => start <= x.t < end }

  function In(all: seq<Settlement>, start: int, end: int): seq<Settlement> { Filter(all, Within(start, end)) }

  function FirstPage(s: seq<Settlement>): seq<Settlement> { if |s| <= PAGE then s else s[..PAGE] }

  predicate Ordered(all: seq<Settlement>) { forall i, j :: 0 <= i < j < |all| ==> all[i].t <= all[j].t }

  /** The endpoint holds these settlements, oldest first, and answers with the first page of a window. */
  ghost predicate Serves(get: Endpoint, all: seq<Settlement>) {
    Ordered(all) && forall start, end :: get(start, end) == Some(FirstPage(In(all, start, end)))
  }

  function Middle(start: int, end: int): int { (start + end) / 2 }

  /** funding_window(): a full page of a window longer than a minute is fetched again as two halves. */
  function FundingWindow(get: Endpoint, start: int, end: int): seq<Settlement>
    decreases end - start
  {
    var data := get(start, end);
    if data.Some? && |data.value| >= PAGE && end - start > SMALL then
      var middle := Middle(start, end);
      FundingWindow(get, start, middle) + FundingWindow(get, middle, end)
    else if data.None? then []
    else data.value
  }

  lemma {:induction false} InSplits(all: seq<Settlement>, start: int, middle: int, end: int)
    requires Ordered(all) && start <= middle <= end
    ensures In(all, start, end) == In(all, start, middle) + In(all, middle, end)
  {
    if all != [] {
      var n := |all| - 1;
      InSplits(all[..n], start, middle, end);
      if all[n].t < middle {
        NoneKept(all[..n], Within(middle, end));
      }
    }
  }

  /** The windows that are not halved further hold at most a page. */
  predicate LeavesFit(all: seq<Settlement>, start: int, end: int)
    decreases end - start
  {
    if |In(all, start, end)| >= PAGE && end - start > SMALL then
      LeavesFit(all, start, Middle(start, end)) && LeavesFit(all, Middle(start, end), end)
    else |In(all, start, end)| <= PAGE
  }

  lemma {:induction false} WindowSize(get: Endpoint, all: seq<Settlement>, start: int, end: int)
    requires Serves(get, all)
    ensures |FundingWindow(get, start, end)| <= |In(all, start, end)|
    ensures |FundingWindow(get, start, end)| == |In(all, start, end)| ==> LeavesFit(all, start, end)
    ensures LeavesFit(all, start, end) ==> FundingWindow(get, start, end) == In(all, start, end)
    decreases end - start
  {
    hide In;
    assert get(start, end) == Some(FirstPage(In(all, start, end)));
    if |In(all, start, end)| >= PAGE && end - start > SMALL {
      var middle := Middle(start, end);
      InSplits(all, start, middle, end);
      WindowSize(get, all, start, middle);
      WindowSize(get, all, middle, end);
    }
  }

  /** Every settlement of the window exactly once and in order, exactly when no leaf holds more than a page. */
  lemma WindowComplete(get: Endpoint, all: seq<Settlement>, start: int, end: int)
    requires Serves(get, all)
    ensures FundingWindow(get, start, end) == In(all, start, end) <==> LeavesFit(all, start, end)
  {
    WindowSize(get, all, start, end);
  }

  /** One settlement a millisecond. */
  function Dense(n: nat): seq<Settlement> { seq(n, i => Settlement(i, "A", 0.0)) }

  function PageOf(all: seq<Settlement>): Endpoint { (start, end) => Some(FirstPage(In(all, start, end))) }

  /** A page and one settlement inside a minute: the window is not halved and the last settlement is lost. */
  lemma CrowdedMinute()
    ensures var all, get := Dense(PAGE + 1), PageOf(Dense(PAGE + 1));
      Serves(get, all) && In(all, 0, SMALL) == all && FundingWindow(get, 0, SMALL) == all[..PAGE] != all
  {
    var all := Dense(PAGE + 1);
    forall x | x in all ensures Within(0, SMALL)(x) {
      var i :| 0 <= i < |all| && all[i] == x;
    }
    AllKept(all, Within(0, SMALL));
    hide Filter;
    assert PageOf(all)(0, SMALL) == Some(all[..PAGE]);
    assert |all[..PAGE]| < |all|;
  }

  /** No stretch of at most a minute holds more than a page. */
  ghost predicate Sparse(all: seq<Settlement>) {
    forall start, end :: end - start <= SMALL ==> |In(all, start, end)| <= PAGE
  }

  lemma {:induction false} SparseFits(all: seq<Settlement>, start: int, end: int)
    requires Sparse(all)
    ensures LeavesFit(all, start, end)
    decreases end - start
  {
    hide In;
    if |In(all, start, end)| >= PAGE && end - start > SMALL {
      SparseFits(all, start, Middle(start, end));
      SparseFits(all, Middle(start, end), end);
    }
  }

  // ---------------------------------------------------------------- resuming

  predicate SameKey(x: Settlement, y: Settlement) { x.t == y.t && x.symbol == y.symbol }

  function OtherKey(x: Settlement): Settlement -> bool { (y: Settlement) => !SameKey(x, y) }

  /** drop_duplicates by symbol and time, keeping the last. */
  function KeepLast(s: seq<Settlement>): seq<Settlement> {
    if s == [] then []
    else Filter(KeepLast(s[..|s| - 1]), OtherKey(s[|s| - 1])) + [s[|s| - 1]]
  }

  function MaxTime(s: seq<Settlement>): int
    requires s != []
  {
    if |s| == 1 then s[0].t else MaxInt(MaxTime(s[..|s| - 1]), s[|s| - 1].t)
  }

  function HourStart(t: int): int { t - t % HOUR }

  /** Where a run starts: the hour after the archive, or behind the last stored settlement. */
  function StartOf(rest: seq<Settlement>, archiveEnd: int): int {
    var start := HourStart(archiveEnd) + HOUR;
    if rest == [] then start else MaxInt(start, MaxTime(rest) + 1)
  }

  function WindowsFrom(get: Endpoint, start: int, end: int): seq<Settlement>
    decreases end - start
  {
    if start >= end then []
    else FundingWindow(get, start, MinInt(start + STEP, end)) + WindowsFrom(get, start + STEP, end)
  }

  /** update_funding(): the stored settlements after a run at a time. */
  function Updated(get: Endpoint, rest: seq<Settlement>, archiveEnd: int, now: int): seq<Settlement> {
    var rows := WindowsFrom(get, StartOf(rest, archiveEnd), HourStart(now));
    if rows == [] then rest else KeepLast(rest + rows)
  }

  /** The loop over windows of four hours. */
  method UpdateFunding(get: Endpoint, rest: seq<Settlement>, archiveEnd: int, now: int) returns (stored: seq<Settlement>)
    ensures stored == Updated(get, rest, archiveEnd, now)
    ensures DistinctBy(rest, KeyOf()) ==> DistinctBy(stored, KeyOf())
    ensures forall all | Serves(get, all) && Sparse(all) && StartOf(rest, archiveEnd) <= HourStart(now) ::
              var rows := In(all, StartOf(rest, archiveEnd), HourStart(now));
              stored == if rows == [] then rest else KeepLast(rest + rows)
  {
    hide FundingWindow, KeepLast, StartOf;
    var start := StartOf(rest, archiveEnd);
    var end := HourStart(now);
    var rows := [];
    var at := start;
    while at < end
      invariant rows + WindowsFrom(get, at, end) == WindowsFrom(get, start, end)
      decreases end - at
    {
      var items := FundingWindow(get, at, MinInt(at + STEP, end));
      assert WindowsFrom(get, at, end) == items + WindowsFrom(get, at + STEP, end);
      rows := rows + items;
      at := at + STEP;
    }
    assert rows + [] == rows;
    stored := if rows == [] then rest else KeepLast(rest + rows);
    KeepLastDistinct(rest + rows);
    hide In, Serves, Sparse, HourStart;
    forall all | Serves(get, all) && Sparse(all) && start <= end ensures rows == In(all, start, end) {
      WindowsAreIn(get, all, start, end);
    }
  }

  lemma {:induction false} WindowsAreIn(get: Endpoint, all: seq<Settlement>, start: int, end: int)
    requires Serves(get, all) && Sparse(all) && start <= end
    ensures WindowsFrom(get, start, end) == In(all, start, end)
    decreases end - start
  {
    hide In, Serves, Sparse, FundingWindow;
    if start == end {
      NothingIn(all, start);
    } else {
      var stop := MinInt(start + STEP, end);
      SparseFits(all, start, stop);
      WindowComplete(get, all, start, stop);
      ServedInOrder(get, all);
      InSplits(all, start, stop, end);
      if stop == end {
        NothingIn(all, end);
        assert In(all, start, end) + [] == In(all, start, end);
      } else {
        WindowsAreIn(get, all, stop, end);
      }
    }
  }

  lemma ServedInOrder(get: Endpoint, all: seq<Settlement>)
    requires Serves(get, all)
    ensures Ordered(all)
  {
  }

  lemma NothingIn(all: seq<Settlement>, t: int)
    ensures In(all, t, t) == []
  {
    NoneKept(all, Within(t, t));
  }

  // ---------------------------------------------------------------- duplicates

  lemma KeepLastSnoc(s: seq<Settlement>, x: Settlement)
    ensures KeepLast(s + [x]) == Filter(KeepLast(s), OtherKey(x)) + [x]
  {
    assert (s + [x])[..|s|] == s;
  }

  function KeyOf(): Settlement -> (int, string) { (x: Settlement) => (x.t, x.symbol) }

  lemma {:induction false} KeepLastDistinct(s: seq<Settlement>)
    ensures DistinctBy(KeepLast(s), KeyOf())
    ensures forall x :: x in KeepLast(s) ==> x in s
  {
    if s != [] {
      var n := |s| - 1;
      var kept, x := KeepLast(s[..n]), s[n];
      KeepLastDistinct(s[..n]);
      FilterDistinct(kept, OtherKey(x), KeyOf());
      FilterMembers(kept, OtherKey(x));
      DistinctConcat(Filter(kept, OtherKey(x)), [x], KeyOf());
    }
  }

  /** A list without repeated keys is kept as it is. */
  lemma {:induction false} DistinctKept(s: seq<Settlement>)
    requires DistinctBy(s, KeyOf())
    ensures KeepLast(s) == s
  {
    if s != [] {
      var n := |s| - 1;
      DistinctKept(s[..n]);
      forall y | y in s[..n] ensures OtherKey(s[n])(y) {
        var i :| 0 <= i < n && s[..n][i] == y;
        assert KeyOf()(s[i]) != KeyOf()(s[n]);
      }
      AllKept(s[..n], OtherKey(s[n]));
      assert s == s[..n] + [s[n]];
    }
  }

  /** Removing duplicates early changes nothing. */
  lemma {:induction false} KeepLastTwice(a: seq<Settlement>, b: seq<Settlement>)
    ensures KeepLast(KeepLast(a) + b) == KeepLast(a + b)
  {
    hide Filter, KeepLast;
    if b == [] {
      KeepLastDistinct(a);
      DistinctKept(KeepLast(a));
      assert KeepLast(a) + b == KeepLast(a) && a + b == a;
    } else {
      var n := |b| - 1;
      KeepLastTwice(a, b[..n]);
      KeepLastSnoc(KeepLast(a) + b[..n], b[n]);
      KeepLastSnoc(a + b[..n], b[n]);
      assert KeepLast(a) + b[..n] + [b[n]] == KeepLast(a) + b && a + b[..n] + [b[n]] == a + b;
    }
  }

  lemma {:induction false} MaxTimeIs(s: seq<Settlement>)
    requires s != []
    ensures forall x :: x in s ==> x.t <= MaxTime(s)
    ensures exists x :: x in s && x.t == MaxTime(s)
  {
    var n := |s| - 1;
    assert s == s[..n] + [s[n]] && s[n] in s;
    if n > 0 {
      MaxTimeIs(s[..n]);
    }
  }

  /** Every time stored before removing duplicates is stored after it. */
  lemma {:induction false} TimesKept(s: seq<Settlement>, x: Settlement)
    requires x in s
    ensures exists y :: y in KeepLast(s) && SameKey(x, y)
  {
    var n := |s| - 1;
    assert s == s[..n] + [s[n]];
    if SameKey(s[n], x) {
      assert s[n] in KeepLast(s);
    } else {
      TimesKept(s[..n], x);
      var y :| y in KeepLast(s[..n]) && SameKey(x, y);
      FilterMembers(KeepLast(s[..n]), OtherKey(s[n]));
      assert y in KeepLast(s);
    }
  }

  lemma KeepLastIn(s: seq<Settlement>, y: Settlement, x: Settlement)
    ensures x in KeepLast(s + [y]) <==> x == y || (x in KeepLast(s) && !SameKey(y, x))
  {
    hide Filter, SameKey, KeepLast;
    KeepLastSnoc(s, y);
    FilterMembers(KeepLast(s), OtherKey(y));
  }

  /** Position i holds x, and nothing behind it has its symbol and time. */
  predicate LastAt(s: seq<Settlement>, x: Settlement, i: int) {
    0 <= i < |s| && s[i] == x && forall j :: i < j < |s| ==> !(s[j].t == x.t && s[j].symbol == x.symbol)
  }

  lemma LastAtSnoc(s: seq<Settlement>, y: Settlement, x: Settlement)
    ensures (exists i :: LastAt(s + [y], x, i)) <==> x == y || ((exists i :: LastAt(s, x, i)) && !SameKey(y, x))
  {
    var more, n := s + [y], |s|;
    if x == y {
      assert LastAt(more, x, n);
    }
    if i :| LastAt(more, x, i) && i < n {
      assert more[n] == y && forall j :: 0 <= j < n ==> more[j] == s[j];
      assert LastAt(s, x, i);
    }
    if i :| LastAt(s, x, i) && !SameKey(y, x) {
      assert LastAt(more, x, i);
    }
  }

  /** What stays is, for each symbol and time, the last one. */
  lemma {:induction false} KeepLastMeaning(s: seq<Settlement>, x: Settlement)
    ensures x in KeepLast(s) <==> exists i :: LastAt(s, x, i)
  {
    if s != [] {
      hide KeepLast, LastAt, SameKey;
      var n := |s| - 1;
      assert s[..n] + [s[n]] == s;
      KeepLastMeaning(s[..n], x);
      KeepLastIn(s[..n], s[n], x);
      LastAtSnoc(s[..n], s[n], x);
    }
  }

  // ---------------------------------------------------------------- any schedule of runs

  function Stored(get: Endpoint, archiveEnd: int, nows: seq<int>): seq<Settlement> {
    if nows == [] then [] else Updated(get, Stored(get, archiveEnd, nows[..|nows| - 1]), archiveEnd, nows[|nows| - 1])
  }

  /** The end of the latest run, and never before the first window. */
  function Latest(archiveEnd: int, nows: seq<int>): int {
    if nows == [] then HourStart(archiveEnd) + HOUR
    else MaxInt(Latest(archiveEnd, nows[..|nows| - 1]), HourStart(nows[|nows| - 1]))
  }

  lemma {:induction false} LatestBound(archiveEnd: int, nows: seq<int>)
    ensures Latest(archiveEnd, nows) >= HourStart(archiveEnd) + HOUR
  {
    if nows != [] {
      LatestBound(archiveEnd, nows[..|nows| - 1]);
    }
  }

  lemma KeptOut(all: seq<Settlement>, first: int, mid: int, start: int, end: int)
    requires Ordered(all) && first <= start && first <= mid && start <= end
    requires forall x :: x in In(all, first, mid) ==> x.t < start
    requires start <= mid
    ensures In(all, start, end) == if end <= mid then [] else In(all, mid, end)
    ensures In(all, first, MaxInt(mid, end)) == In(all, first, mid) + In(all, start, end)
  {
    hide In;
    var stop := MaxInt(mid, end);
    InSplits(all, first, mid, stop);
    if end <= mid {
      NothingIn(all, mid);
      NothingBetween(all, first, mid, start, end);
      assert In(all, first, mid) + [] == In(all, first, mid);
    } else {
      NothingBetween(all, first, mid, start, mid);
      InSplits(all, start, mid, end);
      assert [] + In(all, mid, end) == In(all, mid, end);
    }
  }

  lemma NothingBetween(all: seq<Settlement>, first: int, mid: int, start: int, end: int)
    requires first <= start && end <= mid
    requires forall x :: x in In(all, first, mid) ==> x.t < start
    ensures In(all, start, end) == []
  {
    FilterMembers(all, Within(first, mid));
    forall x | x in all ensures !Within(start, end)(x) {
      assert Within(first, mid)(x) <==> x in In(all, first, mid);
    }
    NoneKept(all, Within(start, end));
  }

  /** Where a run resumes nothing is missing: all settlements so far lie before its start, and it starts in time. */
  lemma Resumes(all: seq<Settlement>, archiveEnd: int, mid: int)
    requires var first := HourStart(archiveEnd) + HOUR; first <= mid
    ensures var first := HourStart(archiveEnd) + HOUR; var start := StartOf(KeepLast(In(all, first, mid)), archiveEnd);
      first <= start <= mid && forall x :: x in In(all, first, mid) ==> x.t < start
  {
    hide HourStart;
    var first := HourStart(archiveEnd) + HOUR;
    var before := In(all, first, mid);
    var kept := KeepLast(before);
    KeepLastDistinct(before);
    FilterMembers(all, Within(first, mid));
    if kept != [] {
      MaxTimeIs(kept);
      var x :| x in kept && x.t == MaxTime(kept);
      assert x in before;
    }
    forall x | x in before ensures kept != [] && x.t <= MaxTime(kept) {
      TimesKept(before, x);
      var y :| y in kept && SameKey(x, y);
    }
  }

  /** Any schedule of runs, in any order of times, stores what one pass up to the latest of them holds. */
  lemma {:induction false} AnySchedule(get: Endpoint, all: seq<Settlement>, archiveEnd: int, nows: seq<int>)
    requires Serves(get, all) && Sparse(all)
    ensures Stored(get, archiveEnd, nows) ==
            KeepLast(In(all, HourStart(archiveEnd) + HOUR, Latest(archiveEnd, nows)))
  {
    hide Serves, Sparse, HourStart, In, KeepLast, StartOf, WindowsFrom;
    var first := HourStart(archiveEnd) + HOUR;
    if nows == [] {
      NothingIn(all, first);
      NothingKept();
    } else {
      var n := |nows| - 1;
      var mid, end := Latest(archiveEnd, nows[..n]), HourStart(nows[n]);
      AnySchedule(get, all, archiveEnd, nows[..n]);
      LatestBound(archiveEnd, nows[..n]);
      Resumes(all, archiveEnd, mid);
      var before := In(all, first, mid);
      var start := StartOf(KeepLast(before), archiveEnd);
      ServedInOrder(get, all);
      if end <= start {
        NoWindows(get, start, end);
      } else {
        WindowsAreIn(get, all, start, end);
        KeptOut(all, first, mid, start, end);
        KeepLastTwice(before, In(all, start, end));
        assert before + [] == before;
      }
    }
  }

  lemma NothingKept()
    ensures KeepLast([]) == []
  {
  }

  lemma NoWindows(get: Endpoint, start: int, end: int)
    requires end <= start
    ensures WindowsFrom(get, start, end) == []
  {
  }

  /** Resumed runs store the same settlements as one single run at the latest time. */
  lemma SameAsOneRun(get: Endpoint, all: seq<Settlement>, archiveEnd: int, nows: seq<int>, last: int)
    requires Serves(get, all) && Sparse(all) && last in nows && forall t :: t in nows ==> t <= last
    ensures Stored(get, archiveEnd, nows) == Updated(get, [], archiveEnd, last)
  {
    hide Serves, Sparse, In, KeepLast, WindowsFrom, Updated;
    AnySchedule(get, all, archiveEnd, nows);
    AnySchedule(get, all, archiveEnd, [last]);
    assert [last][..0] == [];
    LatestIs(archiveEnd, nows, last);
    LatestIs(archiveEnd, [last], last);
  }

  lemma HoursInOrder(a: int, b: int)
    requires a <= b
    ensures HourStart(a) <= HourStart(b)
  {
    assert HourStart(a) == a / HOUR * HOUR && HourStart(b) == b / HOUR * HOUR;
  }

  lemma {:induction false} LatestIs(archiveEnd: int, nows: seq<int>, last: int)
    requires forall t :: t in nows ==> t <= last
    ensures Latest(archiveEnd, nows) <= MaxInt(HourStart(archiveEnd) + HOUR, HourStart(last))
    ensures last in nows ==> Latest(archiveEnd, nows) == MaxInt(HourStart(archiveEnd) + HOUR, HourStart(last))
  {
    if nows != [] {
      var n := |nows| - 1;
      assert nows == nows[..n] + [nows[n]];
      assert forall t :: t in nows[..n] ==> t in nows;
      LatestIs(archiveEnd, nows[..n], last);
      LatestBound(archiveEnd, nows[..n]);
      assert nows[n] in nows;
      HoursInOrder(nows[n], last);
    }
  }

  /** What any schedule of runs has stored at the end: of the events from the hour after the archive's last one up to the
      latest run's whole hour, the last of each symbol and time. */
  lemma StoredMeaning(get: Endpoint, all: seq<Settlement>, archiveEnd: int, nows: seq<int>, last: int, x: Settlement)
    requires Serves(get, all) && Sparse(all) && last in nows && forall t :: t in nows ==> t <= last
    ensures x in Stored(get, archiveEnd, nows) <==>
              ((archiveEnd / 3_600_000 + 1) * 3_600_000 <= x.t < last / 3_600_000 * 3_600_000 &&
               exists i :: LastAt(all, x, i))
  {
    hide Serves, Sparse, In, KeepLast, Stored;
    AnySchedule(get, all, archiveEnd, nows);
    LatestIs(archiveEnd, nows, last);
    var first, end := HourStart(archiveEnd) + HOUR, Latest(archiveEnd, nows);
    KeepLastMeaning(all, x);
    KeepLastWithin(all, first, end, x);
  }

  /** Equal keys have equal times, so duplicates are removed alike inside a stretch of time. */
  lemma {:induction false} KeepLastWithin(all: seq<Settlement>, first: int, end: int, x: Settlement)
    ensures x in KeepLast(In(all, first, end)) <==> x in KeepLast(all) && first <= x.t < end
  {
    if all != [] {
      hide KeepLast;
      var n := |all| - 1;
      assert all[..n] + [all[n]] == all;
      KeepLastWithin(all[..n], first, end, x);
      KeepLastIn(all[..n], all[n], x);
      if Within(first, end)(all[n]) {
        KeepLastIn(In(all[..n], first, end), all[n], x);
      } else {
        assert In(all, first, end) == In(all[..n], first, end);
      }
    } else {
      NothingKept();
    }
  }
}
