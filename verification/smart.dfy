/** The copy books of round 14: lazy pricing of the largest scores and the compounding ledgers
    (research/hl_smart/fwd_smart.py:95, 100-102, 206-213, 231-245, 448-499). */
module SmartBook {
  import opened Lists
  import opened Sorting

  const MIN_HOLDERS := 3
  const SLOTS := 5
  const SLOT_W: real := 0.2
  const FEE: real := 0.0005
  const DELIST_PENALTY: real := 0.02
  const SLIP_DEFAULT: real := 0.0025

  type Price = r: real | r > 0.0 witness 1.0

  datatype Score = Score(value: real, holders: nat)

  type Scores = map<string, Score>

  function ValueOf(sc: Scores, s: string): real { if s in sc then sc[s].value else 0.0 }

  /** Larger score first, whatever its sign, then the name. */
  predicate Before(sc: Scores, a: string, b: string) {
    var x, y := Abs(ValueOf(sc, a)), Abs(ValueOf(sc, b));
    x > y || (x == y && LexLe(a, b))
  }

  function RankOrder(sc: Scores): (string, string) -> bool { (a: string, b: string) => Before(sc, a, b) }

  lemma RankOrderTotal(sc: Scores)
    ensures Total(RankOrder(sc)) && Transitive(RankOrder(sc))
    ensures forall a, b :: Before(sc, a, b) && Before(sc, b, a) ==> a == b
  {
    forall a: string, b: string ensures Before(sc, a, b) || Before(sc, b, a)
      ensures Before(sc, a, b) && Before(sc, b, a) ==> a == b
    {
      LexTotal(a, b);
    }
    forall a: string, b: string, c: string | Before(sc, a, b) && Before(sc, b, c) ensures Before(sc, a, c) {
      if LexLe(a, b) && LexLe(b, c) {
        LexTransitive(a, b, c);
      }
    }
  }

  function Eligible(sc: Scores, banned: set<string>): set<string> {
    set s | s in sc && sc[s].holders >= MIN_HOLDERS && sc[s].value != 0.0 && s !in banned
  }

  /** The largest of a set of coins: at most SLOTS of them, and fewer only when there are no more. */
  ghost predicate IsTop(sc: Scores, eligible: set<string>, top: seq<string>) {
    && Distinct(top) && SortedBy(top, RankOrder(sc)) && |top| <= SLOTS
    && (forall s :: s in top ==> s in eligible)
    && forall s :: s in eligible && s !in top ==> |top| == SLOTS && forall t :: t in top ==> Before(sc, t, s)
  }

  lemma MissingOne(a: seq<string>, b: seq<string>, s: string) returns (t: string)
    requires Distinct(a) && |a| <= |b| && Distinct(b) && s in a && s !in b
    ensures t in b && t !in a
  {
    var x, y := KeySet(a, Same()), KeySet(b, Same());
    DistinctKeys(a);
    DistinctKeys(b);
    assert |x - {s}| == |x| - 1;
    t := Outside(y, x - {s});
  }

  function Same(): string -> string { (x: string) => x }

  lemma DistinctKeys(a: seq<string>)
    requires Distinct(a)
    ensures |KeySet(a, Same())| == |a| && forall s :: s in KeySet(a, Same()) <==> s in a
  {
    assert DistinctBy(a, Same());
    DistinctCount(a, Same());
  }

  lemma Outside(a: set<string>, b: set<string>) returns (t: string)
    requires |a| > |b|
    ensures t in a && t !in b
  {
    if a - b == {} {
      assert forall x :: x in a ==> x in a - b || x in b;
      SubsetSize(a, b);
    }
    t :| t in a - b;
  }

  lemma SubsetSize(a: set<string>, b: set<string>)
    requires a <= b
    ensures |a| <= |b|
  {
    assert b == a + (b - a);
  }

  /** There is only one such list. */
  lemma TopUnique(sc: Scores, eligible: set<string>, a: seq<string>, b: seq<string>)
    requires IsTop(sc, eligible, a) && IsTop(sc, eligible, b)
    ensures a == b
  {
    RankOrderTotal(sc);
    TopWithin(sc, eligible, a, b);
    TopWithin(sc, eligible, b, a);
    SameSetReordered(a, b);
    SortedUnique(a, b, RankOrder(sc));
  }

  lemma TopWithin(sc: Scores, eligible: set<string>, a: seq<string>, b: seq<string>)
    requires IsTop(sc, eligible, a) && IsTop(sc, eligible, b)
    ensures forall s :: s in a ==> s in b
  {
    hide IsTop;
    forall s | s in a ensures s in b {
      TopAlso(sc, eligible, a, b, s);
    }
  }

  lemma TopAlso(sc: Scores, eligible: set<string>, a: seq<string>, b: seq<string>, s: string)
    requires IsTop(sc, eligible, a) && IsTop(sc, eligible, b) && s in a
    ensures s in b
  {
    RankOrderTotal(sc);
    hide Before;
    if s !in b {
      var t := MissingOne(a, b, s);
      assert false;
    }
  }

  /** target_book(): the chosen coins in rank order. */
  method TargetBook(sc: Scores, banned: set<string>) returns (top: seq<string>)
    ensures IsTop(sc, Eligible(sc, banned), top)
  {
    var keys := DictKeys(map s | s in Eligible(sc, banned) :: true);
    RankOrderTotal(sc);
    SortSorts(keys, RankOrder(sc));
    var ok := Sort(keys, RankOrder(sc));
    top := if |ok| <= SLOTS then ok else ok[..SLOTS];
    FirstIsTop(sc, Eligible(sc, banned), keys, ok, top);
  }

  lemma FirstIsTop(sc: Scores, eligible: set<string>, keys: seq<string>, ok: seq<string>, top: seq<string>)
    requires Distinct(keys) && (forall s :: s in keys <==> s in eligible)
    requires multiset(ok) == multiset(keys) && SortedBy(ok, RankOrder(sc))
    requires top == if |ok| <= SLOTS then ok else ok[..SLOTS]
    ensures IsTop(sc, eligible, top)
  {
    SameMembers(ok, keys);
    DistinctReordered(ok, keys, Same());
    assert forall i, j :: 0 <= i < j < |ok| ==> Same()(ok[i]) != Same()(ok[j]);
    forall s, t | s in eligible && s !in top && t in top ensures Before(sc, t, s) {
      assert s in ok;
      var i :| 0 <= i < |ok| && ok[i] == s;
      var j :| 0 <= j < |top| && top[j] == t;
      assert forall k :: 0 <= k < |top| ==> top[k] == ok[k];
      assert i >= |top|;
      assert RankOrder(sc)(ok[j], ok[i]);
    }
  }

  // ---------------------------------------------------------------- lazy pricing

  type Opens = string -> Option<Price>

  /** The coins that could be chosen, had all of them been asked for their bar first. */
  function Priced(sc: Scores, dead: set<string>, open: Opens): set<string> {
    set s | s in Eligible(sc, dead) && open(s).Some?
  }

  /** priced_book(): bars are asked for only as needed, and the result is the largest of the coins that have one. */
  method PricedBook(sc: Scores, open: Opens, px0: map<string, Price>, dead0: set<string>)
    returns (top: seq<string>, px: map<string, Price>, dead: set<string>)
    requires forall s :: s in px0 && s !in dead0 ==> open(s) == Some(px0[s])
    ensures IsTop(sc, Priced(sc, dead0, open), top)
    ensures forall s :: s in top ==> s in px && open(s) == Some(px[s])
    ensures forall s :: s in px0 ==> s in px && px[s] == px0[s]
    ensures dead0 <= dead && forall s :: s in dead - dead0 ==> open(s).None?
    ensures forall s :: s in px && s !in px0 ==> open(s) == Some(px[s])
  {
    px, dead := px0, dead0;
    while true
      invariant dead0 <= dead && forall s :: s in dead - dead0 ==> open(s).None?
      invariant forall s :: s in px0 ==> s in px && px[s] == px0[s]
      invariant forall s :: s in px && s !in px0 ==> open(s) == Some(px[s])
      decreases Eligible(sc, dead)
    {
      top := TargetBook(sc, dead);
      var missing;
      px, missing := Ask(open, top, px, dead);
      if missing == {} {
        LazyIsEager(sc, open, dead0, dead, top);
        return;
      }
      NarrowsBy(sc, dead, missing);
      dead := dead + missing;
    }
  }

  /** One round of asking: the chosen coins without a price are asked, and those without a bar are missing. */
  method Ask(open: Opens, top: seq<string>, px0: map<string, Price>, ghost dead: set<string>)
    returns (px: map<string, Price>, missing: set<string>)
    requires forall s :: s in top ==> s !in dead
    requires forall s :: s in px0 && s !in dead ==> open(s) == Some(px0[s])
    ensures forall s :: s in px0 ==> s in px && px[s] == px0[s]
    ensures forall s :: s in px && s !in px0 ==> open(s) == Some(px[s])
    ensures forall s :: s in top && s !in missing ==> s in px && open(s) == Some(px[s])
    ensures forall s :: s in missing ==> s in top && open(s).None?
  {
    px, missing := px0, {};
    for i := 0 to |top|
      invariant forall s :: s in px0 ==> s in px && px[s] == px0[s]
      invariant forall s :: s in px && s !in px0 ==> open(s) == Some(px[s])
      invariant forall s :: s in top[..i] && s !in missing ==> s in px && open(s) == Some(px[s])
      invariant forall s :: s in missing ==> s in top && open(s).None?
    {
      var s := top[i];
      assert top[..i + 1] == top[..i] + [s] && s in top;
      if s !in px {
        var bar := open(s);
        if bar.Some? {
          px := px[s := bar.value];
        } else {
          missing := missing + {s};
        }
      }
    }
    assert top[..|top|] == top;
  }

  lemma NarrowsBy(sc: Scores, dead: set<string>, missing: set<string>)
    requires missing != {} && missing <= Eligible(sc, dead)
    ensures Eligible(sc, dead + missing) < Eligible(sc, dead)
  {
    var s :| s in missing;
    assert s in Eligible(sc, dead) && s !in Eligible(sc, dead + missing);
  }

  /** Asking late is filtering early. */
  lemma LazyIsEager(sc: Scores, open: Opens, dead0: set<string>, dead: set<string>, top: seq<string>)
    requires IsTop(sc, Eligible(sc, dead), top) && dead0 <= dead
    requires forall s :: s in dead - dead0 ==> open(s).None?
    requires forall s :: s in top ==> open(s).Some?
    ensures IsTop(sc, Priced(sc, dead0, open), top)
  {
    hide Before;
    assert Priced(sc, dead0, open) <= Eligible(sc, dead);
  }

  function Sign(x: real): real { if x > 0.0 then 1.0 else if x < 0.0 then -1.0 else 0.0 }

  type Book = map<string, real>

  /** The weights of the chosen coins. */
  function Weights(sc: Scores, top: seq<string>): Book {
    map s | s in top :: Sign(ValueOf(sc, s)) * SLOT_W
  }

  /** The book: at most five coins, each with three holders and a score other than zero, a fifth long when the score is
      positive and a fifth short when it is negative. A coin that could be held and is not finds five with larger scores
      in it, or equal ones and earlier names. */
  lemma BookMeaning(sc: Scores, banned: set<string>, top: seq<string>)
    requires IsTop(sc, Eligible(sc, banned), top)
    ensures var book := Weights(sc, top);
      && |book| <= 5
      && (forall s :: s in book ==> s in sc && s !in banned && sc[s].holders >= 3 && sc[s].value != 0.0)
      && (forall s :: s in book ==> book[s] == if sc[s].value > 0.0 then 0.2 else -0.2)
      && forall s, t :: s in sc && s !in banned && sc[s].holders >= 3 && sc[s].value != 0.0 && s !in book && t in book ==>
           (|book| == 5 && Abs(sc[t].value) >= Abs(sc[s].value) &&
            (Abs(sc[t].value) == Abs(sc[s].value) ==> LexLe(t, s)))
  {
    hide LexLe;
    var book := Weights(sc, top);
    assert book.Keys == set s | s in top;
    DistinctKeys(top);
    assert book.Keys == KeySet(top, Same());
    assert |book| == |book.Keys|;
  }

  // ---------------------------------------------------------------- one period

  ghost function ListOf(s: set<string>): (xs: seq<string>)
    ensures Distinct(xs) && forall x :: x in xs <==> x in s
  {
    if s == {} then []
    else
      var x :| x in s;
      [x] + ListOf(s - {x})
  }

  /** A sum over a set, in any order. */
  ghost function SetSum(s: set<string>, f: string -> real): real { SumBy(ListOf(s), f) }

  lemma AnyOrder(keys: seq<string>, s: set<string>, f: string -> real)
    requires Distinct(keys) && forall k :: k in keys <==> k in s
    ensures SumBy(keys, f) == SetSum(s, f)
  {
    SameSetReordered(keys, ListOf(s));
    SumReordered(keys, ListOf(s), f);
  }

  function WeightOf(book: Book, s: string): real { if s in book then book[s] else 0.0 }

  function Change(prev: map<string, Price>, now: map<string, Price>, s: string): real {
    if s in prev && s in now then
      var x: real, y: real := now[s], prev[s];
      x / y - 1.0
    else 0.0
  }

  function Moved(held: Book, prev: map<string, Price>, now: map<string, Price>): string -> real {
    (s: string) => Times(WeightOf(held, s), Change(prev, now, s))
  }

  function Delisted(held: Book, dead: set<string>): string -> real {
    (s: string) => if s in dead then Abs(WeightOf(held, s)) * DELIST_PENALTY else 0.0
  }

  function Paid(held: Book, funding: map<string, real>): string -> real {
    (s: string) => Times(WeightOf(held, s), WeightOf(funding, s))
  }

  function Cost(held: Book, target: Book, slips: map<string, real>): string -> real {
    (s: string) => Times(Abs(WeightOf(target, s) - WeightOf(held, s)), FEE + if s in slips then slips[s] else SLIP_DEFAULT)
  }

  /** The result of one period from fill to fill. */
  datatype Period = Period(gross: real, fund: real, costs: real, pnl: real)

  ghost predicate Measures(p: Period, held: Book, prev: map<string, Price>, now: map<string, Price>,
                           funding: map<string, real>, target: Book, slips: map<string, real>, dead: set<string>)
  {
    && p.gross == SetSum(held.Keys, Moved(held, prev, now)) - SetSum(held.Keys, Delisted(held, dead))
    && p.fund == -SetSum(held.Keys, Paid(held, funding))
    && p.costs == SetSum(held.Keys + target.Keys, Cost(held, target, slips))
    && p.pnl == p.gross + p.fund - p.costs
  }

  method SumOver(s: set<string>, f: string -> real) returns (total: real)
    ensures total == SetSum(s, f)
  {
    var keys := DictKeys(map x | x in s :: true);
    AnyOrder(keys, s, f);
    total := 0.0;
    for i := 0 to |keys|
      invariant total == SumBy(keys[..i], f)
    {
      SumSnoc(keys[..i], keys[i], f);
      assert keys[..i + 1] == keys[..i] + [keys[i]];
      total := total + f(keys[i]);
    }
    assert keys[..|keys|] == keys;
  }

  /** step(): defined when every held coin has a price at both fills. */
  method Step(held: Book, prev: map<string, Price>, now: map<string, Price>, funding: map<string, real>, target: Book,
              slips: map<string, real>, dead: set<string>) returns (p: Period)
    requires held.Keys <= prev.Keys && held.Keys <= now.Keys
    ensures Measures(p, held, prev, now, funding, target, slips, dead)
  {
    hide SetSum;
    var moved := SumOver(held.Keys, Moved(held, prev, now));
    var penalty := SumOver(held.Keys, Delisted(held, dead));
    var paid := SumOver(held.Keys, Paid(held, funding));
    var costs := SumOver(held.Keys + target.Keys, Cost(held, target, slips));
    p := Period(moved - penalty, -paid, costs, moved - penalty - paid - costs);
  }

  lemma SetSumOne(s: string, f: string -> real)
    ensures SetSum({s}, f) == f(s)
  {
    AnyOrder([s], {s}, f);
    assert [s][..0] == [] && SumBy([s][..0], f) == 0.0;
  }

  /** One coin held and kept or resized: a long gains what the price gains and pays a positive funding rate, a short the
      reverse; a delisting costs either, and so does every change of the weight. */
  lemma OneCoin(p: Period, s: string, held: real, next: real, prev: map<string, Price>, now: map<string, Price>,
                funding: map<string, real>, slips: map<string, real>, dead: set<string>)
    requires s in prev && s in now && s in funding && s in slips
    requires Measures(p, map[s := held], prev, now, funding, map[s := next], slips, dead)
    ensures var move := p.gross + if s in dead then Abs(held) * DELIST_PENALTY else 0.0;
      var before: real, after: real := prev[s], now[s];
      Times(before, move) == Times(held, after - before)
    ensures p.fund == -Times(held, funding[s])
    ensures p.costs == Times(Abs(next - held), FEE + slips[s]) && p.pnl == p.gross + p.fund - p.costs
  {
    hide SetSum;
    var h, n := map[s := held], map[s := next];
    assert h.Keys == {s} && h.Keys + n.Keys == {s};
    SetSumOne(s, Moved(h, prev, now));
    SetSumOne(s, Delisted(h, dead));
    SetSumOne(s, Paid(h, funding));
    SetSumOne(s, Cost(h, n, slips));
    Gain(prev[s], now[s], held);
  }

  lemma Gain(x: Price, y: Price, w: real)
    ensures var a: real, b: real := x, y;
      Times(a, Times(w, b / a - 1.0)) == Times(w, b - a)
  {
    var a: real, b: real := x, y;
    assert a * (b / a) == b;
    assert Times(a, Times(w, b / a - 1.0)) == w * (a * (b / a) - a);
  }

  // ---------------------------------------------------------------- the ledger

  datatype Line = Line(fillT: int, rebalanced: bool, book: Book, px: map<string, Price>, period: Period, equity: real)

  function Growth(lines: seq<Line>): real {
    if lines == [] then 1.0 else Times(Growth(lines[..|lines| - 1]), 1.0 + lines[|lines| - 1].period.pnl)
  }

  /** What every ledger keeps. */
  ghost predicate Sound(lines: seq<Line>) {
    && (forall i, j :: 0 <= i < j < |lines| ==> lines[i].fillT < lines[j].fillT)
    && (forall i :: 0 <= i < |lines| ==> SoundLine(lines[i]))
    && forall i :: 0 <= i < |lines| ==> lines[i].equity == Growth(lines[..i + 1])
  }

  predicate SoundBook(book: Book) { |book| <= SLOTS && forall s :: s in book ==> Abs(book[s]) == SLOT_W }

  predicate SoundLine(x: Line) { x.px.Keys == x.book.Keys && SoundBook(x.book) }

  lemma SoundAppend(lines: seq<Line>, x: Line)
    requires Sound(lines) && SoundLine(x) && (lines != [] ==> lines[|lines| - 1].fillT < x.fillT)
    requires x.equity == Times(if lines == [] then 1.0 else lines[|lines| - 1].equity, 1.0 + x.period.pnl)
    ensures Sound(lines + [x])
  {
    hide SoundLine, Growth;
    EquityAppend(lines, x);
    var more := lines + [x];
    forall i | 0 <= i < |lines| ensures more[i].fillT < x.fillT {
      assert i < |lines| - 1 ==> lines[i].fillT < lines[|lines| - 1].fillT;
    }
  }

  lemma EquityAppend(lines: seq<Line>, x: Line)
    requires forall i :: 0 <= i < |lines| ==> lines[i].equity == Growth(lines[..i + 1])
    requires x.equity == Times(if lines == [] then 1.0 else lines[|lines| - 1].equity, 1.0 + x.period.pnl)
    ensures forall i :: 0 <= i < |lines + [x]| ==> (lines + [x])[i].equity == Growth((lines + [x])[..i + 1])
  {
    hide Growth;
    var more, n := lines + [x], |lines|;
    GrowthSnoc(lines, x);
    assert n > 0 ==> lines[..n - 1 + 1] == lines;
    forall i | 0 <= i <= n ensures more[i].equity == Growth(more[..i + 1]) {
      assert more[..i + 1] == if i < n then lines[..i + 1] else more;
    }
  }

  lemma GrowthSnoc(lines: seq<Line>, x: Line)
    ensures Growth([]) == 1.0 && Growth(lines + [x]) == Times(Growth(lines), 1.0 + x.period.pnl)
  {
    assert (lines + [x])[..|lines|] == lines;
  }

  lemma TopBookSound(sc: Scores, eligible: set<string>, top: seq<string>)
    requires IsTop(sc, eligible, top) && eligible <= Eligible(sc, {})
    ensures SoundBook(Weights(sc, top)) && Weights(sc, top).Keys == set s | s in top
  {
    hide Before, RankOrder;
    var book := Weights(sc, top);
    assert book.Keys == (set s | s in top);
    MembersCount(top);
    assert |book| == |book.Keys|;
  }

  lemma {:induction false} MembersCount(xs: seq<string>)
    ensures |set s | s in xs| <= |xs|
  {
    if xs == [] {
      assert (set s | s in xs) == {};
    } else {
      var n := |xs| - 1;
      MembersCount(xs[..n]);
      assert xs == xs[..n] + [xs[n]];
      assert (set s | s in xs) == (set s | s in xs[..n]) + {xs[n]};
    }
  }

  /** What a fill looks up: today's scores, whether enough members are fresh, bars at the fill, last closes, funding
      since the last fill and slippage. */
  datatype Market = Market(sc: Scores, observed: nat, members: nat, open: Opens, lastClose: Opens,
                           funding: map<string, real>, slips: map<string, real>)

  function Fresh(m: Market): bool { 2 * m.observed >= MaxInt(m.members, 1) }

  /** The prices of the held coins and those of them without a bar. */
  ghost predicate Marked(held: Book, prev: map<string, Price>, m: Market, px: map<string, Price>, dead: set<string>) {
    && px.Keys == held.Keys
    && (forall s :: s in dead <==> s in held && m.open(s).None?)
    && forall s :: s in held && s in prev ==>
         px[s] == if m.open(s).Some? then m.open(s).value
                  else if m.lastClose(s).Some? then m.lastClose(s).value else prev[s]
  }

  method Mark(held: Book, prev: map<string, Price>, m: Market) returns (px: map<string, Price>, dead: set<string>)
    requires held.Keys <= prev.Keys
    ensures Marked(held, prev, m, px, dead)
  {
    px, dead := map[], {};
    var keys := DictKeys(held);
    for i := 0 to |keys|
      invariant px.Keys == set s | s in keys[..i]
      invariant forall s :: s in dead <==> s in keys[..i] && m.open(s).None?
      invariant forall s :: s in keys[..i] ==>
        px[s] == if m.open(s).Some? then m.open(s).value
                 else if m.lastClose(s).Some? then m.lastClose(s).value else prev[s]
    {
      var s := keys[i];
      assert keys[..i + 1] == keys[..i] + [s] && s in keys;
      var bar := m.open(s);
      if bar.Some? {
        px := px[s := bar.value];
      } else {
        dead := dead + {s};
        px := px[s := if m.lastClose(s).Some? then m.lastClose(s).value else prev[s]];
      }
    }
    assert keys[..|keys|] == keys;
  }

  /** The line a fill adds behind the last one, given the held coins' prices, those without a bar, and all prices
      looked up. */
  ghost predicate Follows(x: Line, held: Book, prev: map<string, Price>, equity: real, fillT: int, m: Market,
                          px: map<string, Price>, dead: set<string>, all: map<string, Price>)
  {
    && x.fillT == fillT && x.rebalanced == Fresh(m)
    && Marked(held, prev, m, px, dead) && Chosen(held, m, px, dead, x.book, all)
    && x.px == (map s | s in x.book && s in all :: all[s])
    && Measures(x.period, held, prev, all, m.funding, x.book, m.slips, dead)
    && x.equity == Times(equity, 1.0 + x.period.pnl)
  }

  /** The new book: the largest scores among the coins with a bar, or without enough fresh polls what is held and has
      a bar; its coins are priced at the fill. */
  ghost predicate Chosen(held: Book, m: Market, px: map<string, Price>, dead: set<string>, book: Book,
                         all: map<string, Price>)
  {
    && (if Fresh(m) then exists top :: IsTop(m.sc, Priced(m.sc, dead, m.open), top) && book == Weights(m.sc, top)
        else book == held - dead)
    && (forall s :: s in px ==> s in all && all[s] == px[s])
    && forall s :: s in book ==> s in all && m.open(s) == Some(all[s])
  }

  /** What a line records: the book is new exactly when at least one member, and half of them, were polled. A new book
      holds priced coins with three holders, long where the score is positive; an old one keeps the weights of the coins
      that still have a bar. Held coins without a bar are marked at their last close, or at their last price. */
  lemma FillMeaning(x: Line, held: Book, prev: map<string, Price>, equity: real, fillT: int, m: Market,
                    px: map<string, Price>, dead: set<string>, all: map<string, Price>)
    requires Follows(x, held, prev, equity, fillT, m, px, dead, all) && held.Keys <= prev.Keys
    ensures x.fillT == fillT && (x.rebalanced <==> m.observed >= 1 && m.members <= 2 * m.observed)
    ensures forall s :: s in x.book ==> m.open(s).Some? && s in x.px && x.px[s] == m.open(s).value
    ensures !x.rebalanced ==> forall s :: s in x.book <==> s in held && m.open(s).Some?
    ensures !x.rebalanced ==> forall s :: s in x.book ==> x.book[s] == held[s]
    ensures x.rebalanced ==> |x.book| <= 5 && forall s :: s in x.book ==>
              (s in m.sc && m.sc[s].holders >= 3 && x.book[s] == if m.sc[s].value > 0.0 then 0.2 else -0.2)
    ensures forall s :: s in held && m.open(s).None? ==>
              (s in dead && s in all && all[s] == if m.lastClose(s).Some? then m.lastClose(s).value else prev[s])
  {
    hide Measures;
    if Fresh(m) {
      hide Before, RankOrder;
      var top :| IsTop(m.sc, Priced(m.sc, dead, m.open), top) && x.book == Weights(m.sc, top);
      TopBookSound(m.sc, Priced(m.sc, dead, m.open), top);
    }
  }

  /** One of the two ledger files. */
  class Ledger {
    var lines: seq<Line>

    ghost predicate Valid()
      reads this
    {
      Sound(lines)
    }

    constructor ()
      ensures Valid() && lines == []
    {
      lines := [];
    }

    function Held(): Book
      reads this
    {
      if lines == [] then map[] else lines[|lines| - 1].book
    }

    function LastPx(): map<string, Price>
      reads this
    {
      if lines == [] then map[] else lines[|lines| - 1].px
    }

    function LastEquity(): real
      reads this
    {
      if lines == [] then 1.0 else lines[|lines| - 1].equity
    }

    /** trade() for one set: a repeated or older fill adds nothing, any other exactly one line. */
    method Trade(fillT: int, m: Market)
      requires Valid()
      modifies this
      ensures Valid()
      ensures old(lines) != [] && old(lines)[|old(lines)| - 1].fillT >= fillT ==> lines == old(lines)
      ensures (old(lines) == [] || old(lines)[|old(lines)| - 1].fillT < fillT) ==>
                |lines| == |old(lines)| + 1 && lines[..|old(lines)|] == old(lines) &&
                exists px: map<string, Price>, dead: set<string>, all: map<string, Price> ::
                  Follows(lines[|old(lines)|], old(Held()), old(LastPx()), old(LastEquity()), fillT, m, px, dead, all)
    {
      hide Sound, Follows;
      if lines != [] && lines[|lines| - 1].fillT >= fillT {
        return;
      }
      LastIsSound(lines);
      var x;
      ghost var px, dead, all;
      ghost var held, prev, equity := Held(), LastPx(), LastEquity();
      x, px, dead, all := NextLine(Held(), LastPx(), LastEquity(), fillT, m);
      LineEquity(x, Held(), LastPx(), LastEquity(), fillT, m, px, dead, all);
      SoundAppend(lines, x);
      lines := lines + [x];
      assert Follows(lines[|old(lines)|], held, prev, equity, fillT, m, px, dead, all);
    }
  }

  lemma LastIsSound(lines: seq<Line>)
    requires Sound(lines)
    ensures lines != [] ==> SoundLine(lines[|lines| - 1])
  {
  }

  lemma LineEquity(x: Line, held: Book, prev: map<string, Price>, equity: real, fillT: int, m: Market,
                   px: map<string, Price>, dead: set<string>, all: map<string, Price>)
    requires Follows(x, held, prev, equity, fillT, m, px, dead, all)
    ensures x.fillT == fillT && x.equity == Times(equity, 1.0 + x.period.pnl)
  {
  }

  method NextLine(held: Book, prev: map<string, Price>, equity: real, fillT: int, m: Market)
    returns (x: Line, ghost px: map<string, Price>, ghost dead: set<string>, ghost all: map<string, Price>)
    requires prev.Keys == held.Keys && SoundBook(held)
    ensures SoundLine(x) && Follows(x, held, prev, equity, fillT, m, px, dead, all)
  {
    hide Marked, Chosen, Measures, SoundBook;
    var marks, gone := Mark(held, prev, m);
    var book, prices := Choose(held, prev, m, marks, gone);
    px, dead, all := marks, gone, prices;
    var period := Step(held, prev, prices, m.funding, book, m.slips, gone);
    x := Line(fillT, Fresh(m), book, map s | s in book && s in prices :: prices[s], period,
              Times(equity, 1.0 + period.pnl));
    assert x.px.Keys == book.Keys;
  }

  lemma MarkedPrices(held: Book, prev: map<string, Price>, m: Market, px: map<string, Price>, dead: set<string>)
    requires Marked(held, prev, m, px, dead) && held.Keys <= prev.Keys
    ensures px.Keys == held.Keys && dead <= held.Keys
    ensures forall s :: s in px && s !in dead ==> m.open(s) == Some(px[s])
  {
  }

  lemma PricedEligible(sc: Scores, dead: set<string>, open: Opens)
    ensures Priced(sc, dead, open) <= Eligible(sc, {})
  {
  }

  lemma WeightsKeys(sc: Scores, eligible: set<string>, top: seq<string>)
    requires IsTop(sc, eligible, top) && eligible <= Eligible(sc, {})
    ensures SoundBook(Weights(sc, top)) && forall s :: s in Weights(sc, top) <==> s in top
  {
    TopBookSound(sc, eligible, top);
  }

  lemma ChosenTop(held: Book, m: Market, px: map<string, Price>, dead: set<string>, top: seq<string>,
                  all: map<string, Price>)
    requires Fresh(m) && IsTop(m.sc, Priced(m.sc, dead, m.open), top)
    requires forall s :: s in Weights(m.sc, top) <==> s in top
    requires forall s :: s in top ==> s in all && m.open(s) == Some(all[s])
    requires forall s :: s in px ==> s in all && all[s] == px[s]
    ensures Chosen(held, m, px, dead, Weights(m.sc, top), all)
  {
    hide IsTop, Priced, Weights;
  }

  lemma ChosenHeld(held: Book, m: Market, px: map<string, Price>, dead: set<string>)
    requires !Fresh(m) && px.Keys == held.Keys
    requires forall s :: s in px && s !in dead ==> m.open(s) == Some(px[s])
    ensures Chosen(held, m, px, dead, held - dead, px)
  {
  }

  method Choose(held: Book, prev: map<string, Price>, m: Market, px: map<string, Price>, dead: set<string>)
    returns (book: Book, all: map<string, Price>)
    requires Marked(held, prev, m, px, dead) && SoundBook(held) && held.Keys <= prev.Keys
    ensures Chosen(held, m, px, dead, book, all) && SoundBook(book)
    ensures held.Keys <= all.Keys && book.Keys <= all.Keys
  {
    hide IsTop, SoundBook, Weights, Marked, Priced, Eligible, Chosen;
    MarkedPrices(held, prev, m, px, dead);
    if Fresh(m) {
      var top, gone;
      top, all, gone := PricedBook(m.sc, m.open, px, dead);
      book := Weights(m.sc, top);
      PricedEligible(m.sc, dead, m.open);
      WeightsKeys(m.sc, Priced(m.sc, dead, m.open), top);
      ChosenTop(held, m, px, dead, top, all);
    } else {
      all, book := px, held - dead;
      KeptSound(held, dead);
      ChosenHeld(held, m, px, dead);
    }
  }

  lemma KeptSound(held: Book, dead: set<string>)
    requires SoundBook(held)
    ensures SoundBook(held - dead)
  {
    assert (held - dead).Keys == held.Keys - dead;
    assert |held - dead| == |(held - dead).Keys| && |held| == |held.Keys|;
    SubsetSize(held.Keys - dead, held.Keys);
  }

  // ---------------------------------------------------------------- the latest poll of each address

  /** A poll: its time and its address; what it holds does not matter here. */
  datatype Poll = Poll(t: int, a: string, id: nat)

  const FRESH_MS := 3_600_000

  predicate Usable(r: Poll, addrs: set<string>, t: int) { r.a in addrs && t - FRESH_MS <= r.t <= t }

  /** Row i is the address's latest usable poll, the first of equally late ones. */
  ghost predicate LatestAt(rows: seq<Poll>, addrs: set<string>, t: int, a: string, i: nat) {
    && i < |rows| && rows[i].a == a && Usable(rows[i], addrs, t)
    && forall j :: 0 <= j < |rows| && rows[j].a == a && Usable(rows[j], addrs, t) ==>
         rows[j].t <= rows[i].t && (j < i ==> rows[j].t < rows[i].t)
  }

  /** After n rows: each address's best row, and where it stands. */
  ghost predicate Best(rows: seq<Poll>, addrs: set<string>, t: int, n: nat, best: map<string, Poll>, at: map<string, nat>)
    requires n <= |rows|
  {
    && at.Keys == best.Keys
    && (forall a :: a in best ==> at[a] < n && rows[at[a]] == best[a] && LatestAt(rows[..n], addrs, t, a, at[a]))
    && forall j :: 0 <= j < n && Usable(rows[j], addrs, t) ==> rows[j].a in best
  }

  /** One more row replaces its address's best one exactly when it is usable and later. */
  lemma BestStep(rows: seq<Poll>, addrs: set<string>, t: int, n: nat, best: map<string, Poll>, at: map<string, nat>)
    requires n < |rows| && Best(rows, addrs, t, n, best, at)
    ensures var r := rows[n];
      if Usable(r, addrs, t) && (r.a !in best || r.t > best[r.a].t)
      then Best(rows, addrs, t, n + 1, best[r.a := r], at[r.a := n])
      else Best(rows, addrs, t, n + 1, best, at)
  {
    var r := rows[n];
    assert rows[..n + 1] == rows[..n] + [r];
    forall a | a in best && (a == r.a && Usable(r, addrs, t) ==> r.t <= best[a].t)
      ensures LatestAt(rows[..n + 1], addrs, t, a, at[a])
    {
      LatestKept(rows[..n], r, addrs, t, a, at[a]);
    }
    if Usable(r, addrs, t) && (r.a !in best || r.t > best[r.a].t) {
      LatestNow(rows[..n], r, addrs, t, best, at);
    }
  }

  lemma LatestKept(rows: seq<Poll>, r: Poll, addrs: set<string>, t: int, a: string, i: nat)
    requires LatestAt(rows, addrs, t, a, i) && (a == r.a && Usable(r, addrs, t) ==> r.t <= rows[i].t)
    ensures LatestAt(rows + [r], addrs, t, a, i)
  {
    hide Usable;
  }

  lemma LatestNow(rows: seq<Poll>, r: Poll, addrs: set<string>, t: int, best: map<string, Poll>, at: map<string, nat>)
    requires Usable(r, addrs, t)
    requires if r.a in best then r.a in at && LatestAt(rows, addrs, t, r.a, at[r.a]) && rows[at[r.a]].t < r.t
             else forall j :: 0 <= j < |rows| && Usable(rows[j], addrs, t) ==> rows[j].a in best
    ensures LatestAt(rows + [r], addrs, t, r.a, |rows|)
  {
    hide Usable;
  }

  /** latest_obs(): an address is there exactly when it is asked for and was polled within the last hour, and its poll is
      then the latest of those, the first of equally late ones. */
  method LatestObs(rows: seq<Poll>, addrs: set<string>, t: int) returns (best: map<string, Poll>)
    ensures forall a :: a in best <==>
                          a in addrs && exists i :: 0 <= i < |rows| && rows[i].a == a && 0 <= t - rows[i].t <= 3_600_000
    ensures forall a :: a in best ==> exists i: nat :: LatestAt(rows, addrs, t, a, i) && best[a] == rows[i]
    ensures forall a, i :: a in best && 0 <= i < |rows| && rows[i].a == a && 0 <= t - rows[i].t <= 3_600_000 ==>
              rows[i].t <= best[a].t
  {
    hide LatestAt, Best, Usable;
    best := map[];
    ghost var at: map<string, nat> := map[];
    NothingBest(rows, addrs, t);
    for n := 0 to |rows|
      invariant Best(rows, addrs, t, n, best, at)
    {
      var r := rows[n];
      BestStep(rows, addrs, t, n, best, at);
      if Usable(r, addrs, t) && (r.a !in best || r.t > best[r.a].t) {
        best := best[r.a := r];
        at := at[r.a := n];
      }
    }
    BestIsLatest(rows, addrs, t, best, at);
  }

  lemma NothingBest(rows: seq<Poll>, addrs: set<string>, t: int)
    ensures Best(rows, addrs, t, 0, map[], map[])
  {
  }

  lemma BestIsLatest(rows: seq<Poll>, addrs: set<string>, t: int, best: map<string, Poll>, at: map<string, nat>)
    requires Best(rows, addrs, t, |rows|, best, at)
    ensures forall a :: a in best <==>
                          a in addrs && exists i :: 0 <= i < |rows| && rows[i].a == a && 0 <= t - rows[i].t <= 3_600_000
    ensures forall a :: a in best ==> exists i: nat :: LatestAt(rows, addrs, t, a, i) && best[a] == rows[i]
    ensures forall a, i :: a in best && 0 <= i < |rows| && rows[i].a == a && 0 <= t - rows[i].t <= 3_600_000 ==>
              rows[i].t <= best[a].t
  {
    assert rows[..|rows|] == rows;
    forall a | a in best ensures exists i: nat :: LatestAt(rows, addrs, t, a, i) && best[a] == rows[i] {
      assert LatestAt(rows, addrs, t, a, at[a]);
    }
    assert forall i :: 0 <= i < |rows| ==> (Usable(rows[i], addrs, t) <==> rows[i].a in addrs && 0 <= t - rows[i].t <= 3_600_000);
  }
}
