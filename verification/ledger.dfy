/** The append-only forward ledger (research/strategy_search/fwd_run.py:106-152). */
module ForwardLedger {
  import opened Lists
  import opened Sums
  import opened Engine
  import opened Overlay
  import opened Sleeves

  datatype Key = Key(series: string, day: nat)
  datatype Line = Line(key: Key, pnl: real)

  const TOLERANCE := 0.000000001

  function KeyOf(): Line -> Key { (l: Line) => l.key }

  /** What a dictionary filled line by line holds for a key: the last line's profit. */
  function Recorded(ledger: seq<Line>, key: Key): Option<real> {
    if ledger == [] then None
    else if ledger[|ledger| - 1].key == key then Some(ledger[|ledger| - 1].pnl)
    else Recorded(ledger[..|ledger| - 1], key)
  }

  function NotIn(ledger: seq<Line>): Line -> bool { (l: Line) => Recorded(ledger, l.key).None? }

  function Revises(ledger: seq<Line>): Line -> bool {
    (l: Line) => match Recorded(ledger, l.key) case None => false case Some(x) => Abs(x - l.pnl) > TOLERANCE
  }

  /** The ledger part of main: lines of unrecorded days are appended, differing ones are only reported. */
  method Append(ledger: seq<Line>, computed: seq<Line>) returns (after: seq<Line>, revisions: nat)
    ensures after == ledger + Filter(computed, NotIn(ledger))
    ensures revisions == |Filter(computed, Revises(ledger))|
  {
    var recorded: map<Key, real> := map[];
    for i := 0 to |ledger|
      invariant forall key :: Lookup(recorded, key) == Recorded(ledger[..i], key)
    {
      assert ledger[..i + 1][..i] == ledger[..i];
      recorded := recorded[ledger[i].key := ledger[i].pnl];
    }
    assert ledger[..|ledger|] == ledger;
    var newRows: seq<Line> := [];
    revisions := 0;
    for i := 0 to |computed|
      invariant newRows == Filter(computed[..i], NotIn(ledger))
      invariant revisions == |Filter(computed[..i], Revises(ledger))|
    {
      assert computed[..i + 1][..i] == computed[..i];
      var line := computed[i];
      assert Lookup(recorded, line.key) == Recorded(ledger, line.key);
      if line.key !in recorded {
        newRows := newRows + [line];
      } else if Abs(recorded[line.key] - line.pnl) > TOLERANCE {
        revisions := revisions + 1;
      }
    }
    assert computed[..|computed|] == computed;
    after := ledger + newRows;
  }

  // ---------------------------------------------------------------- what one run computes

  /** The frozen setup: sleeves, library functions, first row of the base, start row, and the risk levels. */
  datatype Setup = Setup(sleeves: seq<Sleeve>, median: seq<BarRow> -> Row, vol: Vol, first: nat, start: nat,
                         levels: seq<(string, real)>)

  predicate DistinctNames(s: Setup) {
    forall i, j :: 0 <= i < j < |s.levels| ==> s.levels[i].0 != s.levels[j].0
  }

  ghost function SleevePnls(s: Setup, t: Tables): (r: seq<seq<real>>)
    requires Sound(t)
    ensures |r| == |s.sleeves| && forall k :: 0 <= k < |r| ==> r[k] == SleevePnl(t, s.sleeves[k], s.median)
  {
    seq(|s.sleeves|, k requires 0 <= k < |s.sleeves| => SleevePnl(t, s.sleeves[k], s.median))
  }

  ghost function BaseOf(s: Setup, t: Tables): seq<Day>
    requires Sound(t)
  {
    Base(SleevePnls(s, t), s.vol, s.first, |t.bars| - 1)
  }

  /** The days of one risk level from the start row on. */
  function LevelLines(s: Setup, base: seq<Day>, level: (string, real)): seq<Line> {
    var k := Before(base, s.start);
    var out := ProfitsFrom(s.vol, base, level.1, s.start);
    seq(|base| - k, i requires 0 <= i < |base| - k => Line(Key(level.0, base[k + i].row), out[k + i]))
  }

  function Computed(s: Setup, base: seq<Day>, n: nat): seq<Line>
    requires n <= |s.levels|
  {
    if n == 0 then [] else Computed(s, base, n - 1) + LevelLines(s, base, s.levels[n - 1])
  }

  ghost function Lines(s: Setup, t: Tables): seq<Line>
    requires Sound(t)
  {
    Computed(s, BaseOf(s, t), |s.levels|)
  }

  /** The lines of a run: for every risk level the overlay's loop, then the loop over its days from start on. */
  method ComputeLines(s: Setup, base: seq<Day>) returns (lines: seq<Line>)
    requires InOrder(base)
    ensures lines == Computed(s, base, |s.levels|)
  {
    lines := [];
    for n := 0 to |s.levels|
      invariant lines == Computed(s, base, n)
    {
      var out, scale := OverlayFrom(s.vol, base, s.levels[n].1, s.start);
      hide ProfitsFrom, Scales, Leverages, Before;
      var own := OwnDays(s, base, s.levels[n], out);
      lines := lines + own;
    }
  }

  method OwnDays(s: Setup, base: seq<Day>, level: (string, real), out: seq<real>) returns (lines: seq<Line>)
    requires InOrder(base) && out == ProfitsFrom(s.vol, base, level.1, s.start)
    ensures lines == LevelLines(s, base, level)
  {
    hide *;
    ghost var k := Before(base, s.start);
    ghost var all := LevelLines(s, base, level);
    LevelLinesAre(s, base, level);
    lines := [];
    for j := 0 to |base|
      invariant lines == all[..if j < k then 0 else j - k]
    {
      assert base[j].row >= s.start <==> j >= k by {
        StartsAt(base, s.start, j);
      }
      if base[j].row >= s.start {
        assert all[j - k] == Line(Key(level.0, base[j].row), out[j]);
        lines := lines + [Line(Key(level.0, base[j].row), out[j])];
      }
    }
  }

  lemma LevelLinesAre(s: Setup, base: seq<Day>, level: (string, real))
    ensures var k, lines := Before(base, s.start), LevelLines(s, base, level);
      && |lines| == |base| - k
      && forall j :: k <= j < |base| ==>
           lines[j - k] == Line(Key(level.0, base[j].row), ProfitsFrom(s.vol, base, level.1, s.start)[j])
  {
    hide Before, ProfitsFrom;
    var k, lines, out := Before(base, s.start), LevelLines(s, base, level), ProfitsFrom(s.vol, base, level.1, s.start);
    forall j | k <= j < |base| ensures lines[j - k] == Line(Key(level.0, base[j].row), out[j]) {
      assert k + (j - k) == j;
    }
  }

  lemma StartsAt(base: seq<Day>, start: nat, j: nat)
    requires InOrder(base) && j < |base|
    ensures base[j].row >= start <==> j >= Before(base, start)
  {
    var k := Before(base, start);
    hide Before;
    assert j > k ==> base[k].row < base[j].row;
  }

  // ---------------------------------------------------------------- what a line records

  /** The profit of day j for an account that comes into it with a: the capped leverage from the returns before the day,
      a quarter of it below four fifths of the peak, times the day's value. */
  function Earned(s: Setup, base: seq<Day>, target: real, a: Account, j: nat): real
    requires j < |base|
  {
    var v := s.vol(Map(base[..j], ValueOf()));
    var lev := if v.None? || v.value <= 0.01 then 0.0 else if target / v.value < 3.0 then target / v.value else 3.0;
    Times(if a.equity < Times(a.peak, 0.8) then Times(lev, 0.25) else lev, base[j].value)
  }

  /** A level's account before day j: fresh until the start row, compounding from then on. */
  function Live(s: Setup, base: seq<Day>, target: real, j: nat): Account
    requires j <= |base|
  {
    if j == 0 || base[j - 1].row < s.start then Account(1.0, 1.0)
    else
      var a := Live(s, base, target, j - 1);
      var equity := Times(a.equity, 1.0 + Earned(s, base, target, a, j - 1));
      Account(equity, MaxReal(a.peak, equity))
  }

  /** Line l records day j of the base for risk level n. */
  predicate Records(s: Setup, base: seq<Day>, n: nat, j: nat, l: Line)
    requires n < |s.levels| && j < |base|
  {
    && base[j].row >= s.start
    && l.key == Key(s.levels[n].0, base[j].row)
    && l.pnl == Earned(s, base, s.levels[n].1, Live(s, base, s.levels[n].1, j), j)
  }

  lemma EarnedIsOverlays(s: Setup, base: seq<Day>, target: real, a: Account, j: nat)
    requires j < |base|
    ensures var lev := Leverages(s.vol, Map(base, ValueOf()), target, MAX_LEV)[j];
      Earned(s, base, target, a, j) == Times(Scale(a, LIVE, lev), base[j].value)
  {
    assert Map(base, ValueOf())[..j] == Map(base[..j], ValueOf());
    assert forall x :: Times(x, 1.0) == x;
  }

  /** The direct account is the one of the overlay's loop over the days from start on. */
  lemma {:induction false} LiveIsAfter(s: Setup, base: seq<Day>, target: real, j: nat)
    requires InOrder(base) && Before(base, s.start) <= j <= |base|
    ensures var k, values := Before(base, s.start), Map(base, ValueOf());
      var levs := Leverages(s.vol, values, target, MAX_LEV);
      Live(s, base, target, j) == After(levs[k..], values[k..], LIVE, j - k)
  {
    hide Before, Earned, Scale, Leverages, Leverage;
    var k, values := Before(base, s.start), Map(base, ValueOf());
    if j > k {
      LiveIsAfter(s, base, target, j - 1);
      EarnedIsOverlays(s, base, target, Live(s, base, target, j - 1), j - 1);
    }
  }

  lemma ProfitOfDay(s: Setup, base: seq<Day>, target: real, j: nat)
    requires InOrder(base) && Before(base, s.start) <= j < |base|
    ensures ProfitsFrom(s.vol, base, target, s.start)[j] == Earned(s, base, target, Live(s, base, target, j), j)
  {
    hide Before, Earned, Scale, Leverage, Live, After;
    LiveIsAfter(s, base, target, j);
    EarnedIsOverlays(s, base, target, Live(s, base, target, j), j);
  }

  lemma LevelLine(s: Setup, base: seq<Day>, n: nat, l: Line)
    requires InOrder(base) && n < |s.levels|
    ensures l in LevelLines(s, base, s.levels[n]) <==> exists j :: 0 <= j < |base| && Records(s, base, n, j, l)
  {
    hide Before, Earned, ProfitsFrom, Live;
    var k, level := Before(base, s.start), s.levels[n];
    var lines := LevelLines(s, base, level);
    forall j | 0 <= j < |base|
      ensures base[j].row >= s.start <==> j >= k
      ensures Records(s, base, n, j, l) <==> j >= k && lines[j - k] == l
    {
      if j >= k {
        ProfitOfDay(s, base, level.1, j);
      }
    }
    if l in lines {
      var i :| 0 <= i < |lines| && lines[i] == l;
      assert Records(s, base, n, k + i, l);
    }
  }

  /** What a run computes: for every risk level and every day of the base from the start row on, and for no other, a line
      with what the level's account earns that day. */
  lemma LinesMeaning(s: Setup, t: Tables, l: Line)
    requires Sound(t)
    ensures var base := BaseOf(s, t);
      l in Lines(s, t) <==>
        exists n, j :: 0 <= n < |s.levels| && 0 <= j < |base| && Records(s, base, n, j, l)
  {
    hide Records, LevelLines, Base;
    var base := BaseOf(s, t);
    BaseInOrder(SleevePnls(s, t), s.vol, s.first, |t.bars| - 1);
    ComputedMembers(s, base, |s.levels|, l);
    forall n | 0 <= n < |s.levels|
      ensures l in LevelLines(s, base, s.levels[n]) <==> exists j :: 0 <= j < |base| && Records(s, base, n, j, l)
    {
      LevelLine(s, base, n, l);
    }
    if n, j :| 0 <= n < |s.levels| && 0 <= j < |base| && Records(s, base, n, j, l) {
      assert l in LevelLines(s, base, s.levels[n]);
    }
  }

  // ---------------------------------------------------------------- recomputation is stable

  lemma SleevePnlsSame(s: Setup, today: Tables, yesterday: Tables)
    requires Extends(today, yesterday)
    ensures SamePrefixes(SleevePnls(s, yesterday), SleevePnls(s, today), |yesterday.bars| - 1)
    ensures forall k :: 0 <= k < |SleevePnls(s, today)| ==> |SleevePnls(s, today)[k]| == |today.bars| - 1
  {
    var n := |yesterday.bars| - 1;
    var p, q := SleevePnls(s, yesterday), SleevePnls(s, today);
    forall k | 0 <= k < |p| ensures p[k][..n] == q[k][..n] {
      SleevePnlStable(today, yesterday, s.sleeves[k], s.median);
      assert p[k][..n] == p[k];
    }
  }

  lemma BaseOfStable(s: Setup, today: Tables, yesterday: Tables)
    requires Extends(today, yesterday)
    ensures BaseOf(s, yesterday) <= BaseOf(s, today)
  {
    hide Base, SleevePnls;
    SleevePnlsSame(s, today, yesterday);
    var n, m := |yesterday.bars| - 1, |today.bars| - 1;
    var p, q := SleevePnls(s, yesterday), SleevePnls(s, today);
    var before, after := BaseOf(s, yesterday), BaseOf(s, today);
    assert before == Base(p, s.vol, s.first, n);
    assert after == Base(q, s.vol, s.first, m);
    BaseExtends(p, q, s.vol, s.first, n, m);
    assert before <= after;
  }

  lemma {:induction false} ProfitsSame(levs: seq<real>, rets: seq<real>, levs': seq<real>, rets': seq<real>, b: Brake, n: nat)
    requires |levs| == |rets| && |levs'| == |rets'| && n <= |rets| && levs <= levs' && rets <= rets'
    ensures After(levs, rets, b, n) == After(levs', rets', b, n)
    ensures Profits(levs, rets, b, n) == Profits(levs', rets', b, n)
  {
    if n != 0 {
      ProfitsSame(levs, rets, levs', rets', b, n - 1);
    }
  }

  lemma {:induction false} BeforeSame(base: seq<Day>, more: seq<Day>, start: nat)
    requires base <= more
    ensures Before(base, start) == MinInt(Before(more, start), |base|)
  {
    if base != [] {
      BeforeSame(base[1..], more[1..], start);
    }
  }

  lemma {:induction false} ProfitsPrefix(levs: seq<real>, rets: seq<real>, b: Brake, n: nat, m: nat)
    requires |levs| == |rets| && n <= m <= |rets|
    ensures Profits(levs, rets, b, n) <= Profits(levs, rets, b, m)
  {
    if n < m {
      ProfitsPrefix(levs, rets, b, n, m - 1);
    }
  }

  /** The forward account earns the same on every day already in the base series. */
  lemma ProfitsFromStable(vol: Vol, base: seq<Day>, more: seq<Day>, target: real, start: nat)
    requires base <= more
    ensures ProfitsFrom(vol, base, target, start) <= ProfitsFrom(vol, more, target, start)
  {
    hide Before, Profits, Leverage;
    var k, k' := Before(base, start), Before(more, start);
    BeforeSame(base, more, start);
    var values, values' := Map(base, ValueOf()), Map(more, ValueOf());
    var levs, levs' := Leverages(vol, values, target, MAX_LEV), Leverages(vol, values', target, MAX_LEV);
    assert values <= values';
    forall i | 0 <= i < |base| ensures levs[i] == levs'[i] {
      assert values[..i] == values'[..i];
    }
    if k == k' {
      assert levs[k..] <= levs'[k..] && values[k..] <= values'[k..];
      ProfitsSame(levs[k..], values[k..], levs'[k..], values'[k..], LIVE, |base| - k);
      ProfitsPrefix(levs'[k..], values'[k..], LIVE, |base| - k, |more| - k);
    } else {
      assert k == |base|;
      assert Zeros(k) <= Zeros(k');
      assert Profits(levs[k..], values[k..], LIVE, |base| - k) == [];
    }
  }

  lemma LevelLinesStable(s: Setup, base: seq<Day>, more: seq<Day>, level: (string, real))
    requires base <= more
    ensures LevelLines(s, base, level) <= LevelLines(s, more, level)
  {
    BeforeSame(base, more, s.start);
    ProfitsFromStable(s.vol, base, more, level.1, s.start);
  }

  lemma {:induction false} ComputedMembers(s: Setup, base: seq<Day>, n: nat, l: Line)
    requires n <= |s.levels|
    ensures l in Computed(s, base, n) <==> exists k :: 0 <= k < n && l in LevelLines(s, base, s.levels[k])
  {
    hide LevelLines;
    if n != 0 {
      var before, added := Computed(s, base, n - 1), LevelLines(s, base, s.levels[n - 1]);
      ComputedMembers(s, base, n - 1, l);
      assert Computed(s, base, n) == before + added;
      assert l in before + added <==> l in before || l in added;
    }
  }

  /** Every line computed yesterday is computed again, with the same profit. */
  lemma LinesStable(s: Setup, today: Tables, yesterday: Tables, l: Line)
    requires Extends(today, yesterday) && l in Lines(s, yesterday)
    ensures l in Lines(s, today)
  {
    BaseOfStable(s, today, yesterday);
    var b, c := BaseOf(s, yesterday), BaseOf(s, today);
    ComputedMembers(s, b, |s.levels|, l);
    ComputedMembers(s, c, |s.levels|, l);
    var k :| 0 <= k < |s.levels| && l in LevelLines(s, b, s.levels[k]);
    LevelLinesStable(s, b, c, s.levels[k]);
    var i :| 0 <= i < |LevelLines(s, b, s.levels[k])| && LevelLines(s, b, s.levels[k])[i] == l;
    assert LevelLines(s, c, s.levels[k])[i] == l;
  }

  lemma {:induction false} ComputedKeys(s: Setup, base: seq<Day>, n: nat)
    requires n <= |s.levels| && DistinctNames(s) && InOrder(base)
    ensures DistinctBy(Computed(s, base, n), KeyOf())
    ensures forall l :: l in Computed(s, base, n) ==> exists k :: 0 <= k < n && l.key.series == s.levels[k].0
  {
    if n != 0 {
      ComputedKeys(s, base, n - 1);
      var before, added := Computed(s, base, n - 1), LevelLines(s, base, s.levels[n - 1]);
      LevelKeys(s, base, s.levels[n - 1]);
      DistinctConcat(before, added, KeyOf());
    }
  }

  lemma LevelKeys(s: Setup, base: seq<Day>, level: (string, real))
    requires InOrder(base)
    ensures DistinctBy(LevelLines(s, base, level), KeyOf())
    ensures forall l :: l in LevelLines(s, base, level) ==> l.key.series == level.0
  {
  }

  // ---------------------------------------------------------------- any number of runs

  /** A sequence of runs, each on tables that extend the previous run's. */
  predicate Growing(runs: seq<Tables>) {
    && (forall i :: 0 <= i < |runs| ==> Sound(runs[i]))
    && forall i :: 0 <= i < |runs| - 1 ==> Extends(runs[i + 1], runs[i])
  }

  /** The ledger after these runs, starting from an empty file. */
  ghost function Ledger(s: Setup, runs: seq<Tables>): seq<Line>
    requires Growing(runs)
  {
    if runs == [] then []
    else
      var before := Ledger(s, runs[..|runs| - 1]);
      before + Filter(Lines(s, runs[|runs| - 1]), NotIn(before))
  }

  lemma {:induction false} RecordedMeaning(ledger: seq<Line>, key: Key)
    requires DistinctBy(ledger, KeyOf())
    ensures Recorded(ledger, key).Some? ==> Line(key, Recorded(ledger, key).value) in ledger
    ensures forall l :: l in ledger && l.key == key ==> Recorded(ledger, key) == Some(l.pnl)
  {
    if ledger != [] {
      var n := |ledger| - 1;
      assert ledger == ledger[..n] + [ledger[n]];
      RecordedMeaning(ledger[..n], key);
      forall l | l in ledger && l.key == key ensures Recorded(ledger, key) == Some(l.pnl) {
        var i :| 0 <= i < |ledger| && ledger[i] == l;
        if i < n {
          assert KeyOf()(ledger[i]) != KeyOf()(ledger[n]);
          assert ledger[..n][i] == l;
        }
      }
    }
  }

  lemma LinesDistinct(s: Setup, t: Tables)
    requires Sound(t) && DistinctNames(s)
    ensures DistinctBy(Lines(s, t), KeyOf())
  {
    BaseInOrder(SleevePnls(s, t), s.vol, s.first, |t.bars| - 1);
    ComputedKeys(s, BaseOf(s, t), |s.levels|);
  }

  lemma OneLinePerKey(lines: seq<Line>, a: Line, b: Line)
    requires DistinctBy(lines, KeyOf()) && a in lines && b in lines && a.key == b.key
    ensures a == b
  {
    var i :| 0 <= i < |lines| && lines[i] == a;
    var j :| 0 <= j < |lines| && lines[j] == b;
    assert KeyOf()(lines[i]) == KeyOf()(lines[j]);
  }

  /** Appending a run that recomputes everything recorded leaves exactly the run's lines, with nothing to revise. */
  lemma AppendAll(ledger: seq<Line>, lines: seq<Line>)
    requires DistinctBy(ledger, KeyOf()) && DistinctBy(lines, KeyOf())
    requires forall l :: l in ledger ==> l in lines
    ensures DistinctBy(ledger + Filter(lines, NotIn(ledger)), KeyOf())
    ensures forall l :: l in ledger + Filter(lines, NotIn(ledger)) <==> l in lines
    ensures Filter(lines, Revises(ledger)) == []
  {
    var added := Filter(lines, NotIn(ledger));
    FilterDistinct(lines, NotIn(ledger), KeyOf());
    FilterMembers(lines, NotIn(ledger));
    forall x, y | x in ledger && y in added ensures KeyOf()(x) != KeyOf()(y) {
      RecordedMeaning(ledger, y.key);
    }
    DistinctConcat(ledger, added, KeyOf());
    forall l | l in lines ensures l in ledger || l in added {
      RecordedMeaning(ledger, l.key);
      if Recorded(ledger, l.key).Some? {
        OneLinePerKey(lines, l, Line(l.key, Recorded(ledger, l.key).value));
      }
    }
    forall l | l in lines ensures !Revises(ledger)(l) {
      RecordedMeaning(ledger, l.key);
      if Recorded(ledger, l.key).Some? {
        OneLinePerKey(lines, l, Line(l.key, Recorded(ledger, l.key).value));
      }
    }
    NoneKept(lines, Revises(ledger));
  }

  /** After any number of runs the ledger holds exactly one line per (series, final day), namely the one a single run on
      the latest tables would compute: what was written first is what every later run recomputes. */
  lemma {:induction false} LedgerIsLatest(s: Setup, runs: seq<Tables>)
    requires Growing(runs) && DistinctNames(s) && runs != []
    ensures DistinctBy(Ledger(s, runs), KeyOf())
    ensures forall l :: l in Ledger(s, runs) <==> l in Lines(s, runs[|runs| - 1])
  {
    var n := |runs| - 1;
    var before, lines := Ledger(s, runs[..n]), Lines(s, runs[n]);
    LinesDistinct(s, runs[n]);
    if n == 0 {
      assert runs[..n] == [];
    } else {
      LedgerIsLatest(s, runs[..n]);
      assert Extends(runs[n - 1 + 1], runs[n - 1]);
      AllRecomputed(s, runs[n], runs[n - 1]);
      assert runs[..n][n - 1] == runs[n - 1];
    }
    AppendAll(before, lines);
  }

  lemma AllRecomputed(s: Setup, today: Tables, yesterday: Tables)
    requires Extends(today, yesterday)
    ensures forall l :: l in Lines(s, yesterday) ==> l in Lines(s, today)
  {
    forall l | l in Lines(s, yesterday) ensures l in Lines(s, today) {
      LinesStable(s, today, yesterday, l);
    }
  }

  /** No run ever reports a revision. */
  lemma NoRevisions(s: Setup, runs: seq<Tables>, next: Tables)
    requires Growing(runs) && DistinctNames(s) && runs != [] && Extends(next, runs[|runs| - 1])
    ensures Filter(Lines(s, next), Revises(Ledger(s, runs))) == []
  {
    LedgerIsLatest(s, runs);
    LinesDistinct(s, next);
    AllRecomputed(s, next, runs[|runs| - 1]);
    AppendAll(Ledger(s, runs), Lines(s, next));
  }
}
