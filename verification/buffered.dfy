/** The buffered long and short states of round 7b against the plain quintiles
    (research/strategy_search/round7b.py:33-34, 47-63). */
module Hysteresis {
  import opened Lists

  /** One symbol in one row: its rank, missing as None, and whether it is live. */
  datatype Cell = Cell(rank: Option<real>, live: bool)

  /** A symbol's state in the next row: +1 long, -1 short, 0 flat. A comparison with a missing rank is false. */
  function Next(state: int, c: Cell, enter: real, hold: real): int {
    if !c.live || c.rank.None? then 0
    else
      var r := c.rank.value;
      if r >= enter then 1
      else if r <= 1.0 - enter then -1
      else if state > 0 && r >= hold then 1
      else if state < 0 && r <= 1.0 - hold then -1
      else 0
  }

  /** The state of a symbol after a column of cells. */
  function State(column: seq<Cell>, enter: real, hold: real): int {
    if column == [] then 0
    else Next(State(column[..|column| - 1], enter, hold), column[|column| - 1], enter, hold)
  }

  predicate Table<T>(rows: seq<seq<T>>, width: nat) { forall t :: 0 <= t < |rows| ==> |rows[t]| == width }

  /** One symbol's cells in the first rows of both tables. */
  function Column(rank: seq<seq<Option<real>>>, live: seq<seq<bool>>, width: nat, rows: nat, c: nat): (r: seq<Cell>)
    requires Table(rank, width) && Table(live, width) && |rank| == |live| && rows <= |rank| && c < width
    ensures |r| == rows
  {
    seq(rows, t requires 0 <= t < rows => Cell(rank[t][c], live[t][c]))
  }

  function Updated(state: seq<int>, rank: seq<Option<real>>, live: seq<bool>, enter: real, hold: real): (r: seq<int>)
    requires |state| == |rank| == |live|
    ensures |r| == |state|
  {
    seq(|state|, c requires 0 <= c < |state| => Next(state[c], Cell(rank[c], live[c]), enter, hold))
  }

  /** buffered(): row by row, each symbol by its own automaton. */
  method Buffered(rank: seq<seq<Option<real>>>, live: seq<seq<bool>>, width: nat, enter: real, hold: real)
    returns (out: seq<seq<int>>)
    requires Table(rank, width) && Table(live, width) && |rank| == |live|
    ensures |out| == |rank| && Table(out, width)
    ensures forall t, c :: 0 <= t < |rank| && 0 <= c < width ==>
              out[t][c] == State(Column(rank, live, width, t + 1, c), enter, hold)
  {
    hide State, Next;
    var state := seq(width, _ => 0);
    out := [];
    EmptyColumn(enter, hold);
    for t := 0 to |rank|
      invariant |out| == t && Table(out, width) && |state| == width
      invariant forall c :: 0 <= c < width ==> state[c] == State(Column(rank, live, width, t, c), enter, hold)
      invariant forall u, c :: 0 <= u < t && 0 <= c < width ==>
        out[u][c] == State(Column(rank, live, width, u + 1, c), enter, hold)
    {
      forall c | 0 <= c < width
        ensures State(Column(rank, live, width, t + 1, c), enter, hold) ==
                Next(state[c], Cell(rank[t][c], live[t][c]), enter, hold)
      {
        StateStep(Column(rank, live, width, t, c), Cell(rank[t][c], live[t][c]), enter, hold);
        assert Column(rank, live, width, t + 1, c) ==
               Column(rank, live, width, t, c) + [Cell(rank[t][c], live[t][c])];
      }
      state := Updated(state, rank[t], live[t], enter, hold);
      out := out + [state];
    }
  }

  lemma EmptyColumn(enter: real, hold: real)
    ensures State([], enter, hold) == 0
  {
  }

  lemma StateStep(column: seq<Cell>, c: Cell, enter: real, hold: real)
    ensures State(column + [c], enter, hold) == Next(State(column, enter, hold), c, enter, hold)
  {
    assert (column + [c])[..|column|] == column;
  }

  // ---------------------------------------------------------------- what a state means

  predicate Above(c: Cell, level: real) { c.live && c.rank.Some? && c.rank.value >= level }

  predicate Below(c: Cell, level: real) { c.live && c.rank.Some? && c.rank.value <= level }

  /** The last row is long because some row entered and every row since held. */
  ghost predicate LongSince(column: seq<Cell>, enter: real, hold: real) {
    exists s :: 0 <= s < |column| && Above(column[s], enter) && forall u :: s <= u < |column| ==> Above(column[u], hold)
  }

  ghost predicate ShortSince(column: seq<Cell>, enter: real, hold: real) {
    exists s :: 0 <= s < |column| && Below(column[s], 1.0 - enter) &&
      forall u :: s <= u < |column| ==> Below(column[u], 1.0 - hold)
  }

  ghost predicate Explained(column: seq<Cell>, enter: real, hold: real) {
    && (State(column, enter, hold) == 1 <==> LongSince(column, enter, hold))
    && (State(column, enter, hold) == -1 <==> ShortSince(column, enter, hold))
  }

  lemma LongStep(column: seq<Cell>, c: Cell, enter: real, hold: real)
    requires hold <= enter
    ensures LongSince(column + [c], enter, hold) <==>
            Above(c, enter) || (Above(c, hold) && LongSince(column, enter, hold))
  {
    var more := column + [c];
    var n := |column|;
    assert more[n] == c && forall u :: 0 <= u < n ==> more[u] == column[u];
    if LongSince(more, enter, hold) {
      var s :| 0 <= s <= n && Above(more[s], enter) && forall u :: s <= u <= n ==> Above(more[u], hold);
      if s < n {
        assert Above(column[s], enter) && forall u :: s <= u < n ==> Above(column[u], hold);
      }
    }
    if Above(c, enter) {
      assert Above(more[n], enter);
    } else if Above(c, hold) && LongSince(column, enter, hold) {
      var s :| 0 <= s < n && Above(column[s], enter) && forall u :: s <= u < n ==> Above(column[u], hold);
      assert Above(more[s], enter);
    }
  }

  lemma ShortStep(column: seq<Cell>, c: Cell, enter: real, hold: real)
    requires hold <= enter
    ensures ShortSince(column + [c], enter, hold) <==>
            Below(c, 1.0 - enter) || (Below(c, 1.0 - hold) && ShortSince(column, enter, hold))
  {
    var more := column + [c];
    var n := |column|;
    assert more[n] == c && forall u :: 0 <= u < n ==> more[u] == column[u];
    if ShortSince(more, enter, hold) {
      var s :| 0 <= s <= n && Below(more[s], 1.0 - enter) && forall u :: s <= u <= n ==> Below(more[u], 1.0 - hold);
      if s < n {
        assert Below(column[s], 1.0 - enter) && forall u :: s <= u < n ==> Below(column[u], 1.0 - hold);
      }
    }
    if Below(c, 1.0 - enter) {
      assert Below(more[n], 1.0 - enter);
    } else if Below(c, 1.0 - hold) && ShortSince(column, enter, hold) {
      var s :| 0 <= s < n && Below(column[s], 1.0 - enter) && forall u :: s <= u < n ==> Below(column[u], 1.0 - hold);
      assert Below(more[s], 1.0 - enter);
    }
  }

  /** The levels that make the rule mean what it says; the code's 0.8 and 0.5 are such. */
  predicate Sound(enter: real, hold: real) { 0.5 < enter && 1.0 - enter < hold <= enter }

  lemma {:induction false} StateExplained(column: seq<Cell>, enter: real, hold: real)
    requires Sound(enter, hold)
    ensures Explained(column, enter, hold)
  {
    hide LongSince, ShortSince;
    if column == [] {
      NoneSince(enter, hold);
    } else {
      var n := |column| - 1;
      var c := column[n];
      assert column == column[..n] + [c];
      StateExplained(column[..n], enter, hold);
      LongStep(column[..n], c, enter, hold);
      ShortStep(column[..n], c, enter, hold);
      StateStep(column[..n], c, enter, hold);
    }
  }

  lemma NoneSince(enter: real, hold: real)
    ensures !LongSince([], enter, hold) && !ShortSince([], enter, hold)
  {
  }

  lemma OneRow(r: real, enter: real, hold: real)
    ensures var column := [Cell(Some(r), true)];
      && State(column, enter, hold) == (if r >= enter then 1 else if r <= 1.0 - enter then -1 else 0)
      && (LongSince(column, enter, hold) <==> r >= enter && r >= hold)
      && (ShortSince(column, enter, hold) <==> r <= 1.0 - enter && r <= 1.0 - hold)
  {
    var c := Cell(Some(r), true);
    StateStep([], c, enter, hold);
    assert [] + [c] == [c];
    var column := [c];
    assert column[0] == c;
    if r >= enter && r >= hold {
      assert Above(column[0], enter) && forall u :: 0 <= u < 1 ==> Above(column[u], hold);
    }
    if r <= 1.0 - enter && r <= 1.0 - hold {
      assert Below(column[0], 1.0 - enter) && forall u :: 0 <= u < 1 ==> Below(column[u], 1.0 - hold);
    }
  }

  /** The levels are exactly those for which the state of every column is explained. */
  lemma ExplainedExactly(enter: real, hold: real)
    ensures (forall column :: Explained(column, enter, hold)) <==> Sound(enter, hold)
  {
    if Sound(enter, hold) {
      forall column ensures Explained(column, enter, hold) {
        StateExplained(column, enter, hold);
      }
    } else {
      var column := Unexplained(enter, hold);
      assert !Explained(column, enter, hold);
    }
  }

  /** Otherwise a column of one or two rows is not. */
  lemma Unexplained(enter: real, hold: real) returns (column: seq<Cell>)
    requires !Sound(enter, hold)
    ensures !Explained(column, enter, hold)
  {
    hide State, LongSince, ShortSince;
    var first := Cell(Some(enter), true);
    column := [first];
    OneRow(enter, enter, hold);
    if 0.5 < enter && hold <= 1.0 - enter {
      var second := Cell(Some(hold), true);
      StateStep(column, second, enter, hold);
      LongStep(column, second, enter, hold);
      column := column + [second];
    }
  }

  // ---------------------------------------------------------------- fewer changes than the plain rule

  /** quintiles() at any level: long at or above it, short at or below its mirror, whatever came before. */
  function Plain(c: Cell, enter: real): int {
    if c.rank.None? then 0
    else (if c.rank.value >= enter then 1 else 0) - (if c.rank.value <= 1.0 - enter then 1 else 0)
  }

  function PlainAt(enter: real): Cell -> int { (c: Cell) => Plain(c, enter) }

  function PlainStates(column: seq<Cell>, enter: real): (r: seq<int>) { Map(column, PlainAt(enter)) }

  /** Where a list of states that starts flat has got to. */
  function Last(states: seq<int>): int { if states == [] then 0 else states[|states| - 1] }

  function States(column: seq<Cell>, enter: real, hold: real): (r: seq<int>)
    ensures |r| == |column|
  {
    if column == [] then [] else States(column[..|column| - 1], enter, hold) + [State(column, enter, hold)]
  }

  /** How far apart two states are, in any sense that obeys the triangle inequality. */
  ghost predicate Metric(d: (int, int) -> nat) {
    && (forall x :: d(x, x) == 0)
    && (forall x, y :: d(x, y) == d(y, x))
    && forall x, y, z :: d(x, z) <= d(x, y) + d(y, z)
  }

  function Distance(): (int, int) -> nat { (x: int, y: int) => if x < y then y - x else x - y }

  function Differs(): (int, int) -> nat { (x: int, y: int) => if x == y then 0 else 1 }

  lemma Metrics()
    ensures Metric(Distance()) && Metric(Differs())
  {
  }

  /** The way travelled by a list of states, from flat. */
  function Travel(states: seq<int>, d: (int, int) -> nat): nat {
    if states == [] then 0
    else
      var n := |states| - 1;
      Travel(states[..n], d) + d(Last(states[..n]), states[n])
  }

  lemma TravelSnoc(states: seq<int>, x: int, d: (int, int) -> nat)
    ensures Travel(states + [x], d) == Travel(states, d) + d(Last(states), x)
  {
    assert (states + [x])[..|states|] == states;
  }

  /** Ranks are missing where a symbol is not live, as cs_rank leaves them. */
  predicate Masked(column: seq<Cell>) { forall t :: 0 <= t < |column| ==> column[t].live || column[t].rank.None? }

  lemma {:induction false} TravelsLess(column: seq<Cell>, enter: real, hold: real, d: (int, int) -> nat)
    requires enter > 0.5 && Masked(column) && Metric(d)
    ensures var plain := PlainStates(column, enter);
      Travel(States(column, enter, hold), d) + d(State(column, enter, hold), Last(plain)) <= Travel(plain, d)
  {
    hide Metric, Next, Plain, Travel, State, States, PlainStates;
    if column == [] {
      NoTravel(enter, hold, d);
    } else {
      var n := |column| - 1;
      var front, c := column[..n], column[n];
      assert column == front + [c];
      TravelsLess(front, enter, hold, d);
      StatesSnoc(front, c, enter, hold);
      var was, plain := States(front, enter, hold), PlainStates(front, enter);
      TravelSnoc(plain, Plain(c, enter), d);
      TravelSnoc(was, State(column, enter, hold), d);
      LastState(front, enter, hold);
      StateStep(front, c, enter, hold);
      NextOrPlain(front, c, enter, hold);
      Closer(Last(was), Last(plain), State(column, enter, hold), Plain(c, enter), d);
    }
  }

  lemma NoTravel(enter: real, hold: real, d: (int, int) -> nat)
    requires Metric(d)
    ensures Travel(States([], enter, hold), d) == Travel(PlainStates([], enter), d) == 0
    ensures d(State([], enter, hold), Last(PlainStates([], enter))) == 0
  {
  }

  lemma StatesSnoc(front: seq<Cell>, c: Cell, enter: real, hold: real)
    ensures States(front + [c], enter, hold) == States(front, enter, hold) + [State(front + [c], enter, hold)]
    ensures PlainStates(front + [c], enter) == PlainStates(front, enter) + [Plain(c, enter)]
    ensures Last(PlainStates(front + [c], enter)) == Plain(c, enter)
  {
    assert (front + [c])[..|front|] == front;
  }

  /** The new state is the plain one, or the plain one is flat and the old state is kept. */
  lemma NextOrPlain(front: seq<Cell>, c: Cell, enter: real, hold: real)
    requires enter > 0.5 && (c.live || c.rank.None?)
    ensures var b := State(front, enter, hold);
      Next(b, c, enter, hold) == Plain(c, enter) || (Plain(c, enter) == 0 && Next(b, c, enter, hold) == b)
  {
    StateRange(front, enter, hold);
  }

  lemma Closer(b: int, q: int, b': int, q': int, d: (int, int) -> nat)
    requires Metric(d) && (b' == q' || (q' == 0 && b' == b))
    ensures d(b, b') + d(b', q') <= d(q, q') + d(b, q)
  {
    assert d(b, q') <= d(b, q) + d(q, q');
  }

  lemma LastState(column: seq<Cell>, enter: real, hold: real)
    ensures Last(States(column, enter, hold)) == State(column, enter, hold)
  {
  }

  lemma {:induction false} StateRange(column: seq<Cell>, enter: real, hold: real)
    ensures -1 <= State(column, enter, hold) <= 1
  {
    if column != [] {
      StateRange(column[..|column| - 1], enter, hold);
    }
  }

  ghost predicate Calmer(column: seq<Cell>, enter: real, hold: real) {
    && Travel(States(column, enter, hold), Distance()) <= Travel(PlainStates(column, enter), Distance())
    && Travel(States(column, enter, hold), Differs()) <= Travel(PlainStates(column, enter), Differs())
  }

  /** Buffering adds neither total variation nor state changes, for any ranks and any hold level, exactly when no rank
      can be in both tails. */
  lemma BufferedIsCalmer(enter: real, hold: real)
    ensures (forall column :: Masked(column) ==> Calmer(column, enter, hold)) <==> enter > 0.5
  {
    if enter > 0.5 {
      forall column | Masked(column) ensures Calmer(column, enter, hold) {
        Metrics();
        TravelsLess(column, enter, hold, Distance());
        TravelsLess(column, enter, hold, Differs());
      }
    } else {
      var c := Cell(Some(enter), true);
      OneRow(enter, enter, hold);
      assert [c][..0] == [];
      assert States([c], enter, hold) == [1] && PlainStates([c], enter) == [0];
      TravelSnoc([], 1, Distance());
      TravelSnoc([], 0, Distance());
      assert [] + [1] == [1] && [] + [0] == [0];
      assert Masked([c]) && !Calmer([c], enter, hold);
    }
  }

  /** Where a rank is given without the symbol being live, buffering can add changes. */
  lemma UnmaskedCanTravelMore()
    ensures exists column :: !Calmer(column, 0.8, 0.5)
  {
    var on, off := Cell(Some(0.9), true), Cell(Some(0.9), false);
    var column := [on, off];
    assert column[..1] == [on] && [on][..0] == [];
    OneRow(0.9, 0.8, 0.5);
    StateStep([on], off, 0.8, 0.5);
    assert [on] + [off] == column;
    assert States([on], 0.8, 0.5) == [] + [1] == [1];
    assert States(column, 0.8, 0.5) == [1] + [0] == [1, 0];
    assert PlainStates(column, 0.8) == [1] + [1];
    TravelSnoc([], 1, Distance());
    TravelSnoc([1], 0, Distance());
    TravelSnoc([1], 1, Distance());
    assert !Calmer(column, 0.8, 0.5);
  }
}
