/** The producer of the watcher's log: market-list differences, back-off and restarts
    (research/listing_pump/watch_upbit.py:50-53, 56-58, 87-135). */
module Watcher {
  import opened Lists
  import opened Sorting
  import WatchLog

  /** A market's warning and its sorted true caution keys. */
  datatype Flags = Flags(warning: bool, caution: seq<string>)

  const CLEAR := Flags(false, [])

  type Markets = map<string, Flags>

  /** What a request comes back with: the decoded list and the remaining budget, a status, or an exception. */
  datatype Reply =
    | Listed(state: Markets, budget: Option<nat>)
    | TooMany
    | Refused(status: int, cloudflare: bool)
    | Failed

  datatype Line =
    | Baseline(t: int, markets: seq<string>, flags: seq<(string, Flags)>)
    | Change(t: int, added: seq<string>, removed: seq<string>, flags: seq<(string, Flags)>)
    | Blocked(t: int, status: int)

  const INTERVAL: real := 1.0
  const PAUSE_BLOCKED: real := 3600.0

  /** The process's variables and the log file. */
  datatype Sys = Sys(known: Option<Markets>, wait: real, log: seq<Line>)

  const FRESH := Sys(None, INTERVAL, [])

  function StringOrder(): (string, string) -> bool { (a: string, b: string) => LexLe(a, b) }

  lemma StringOrderTotal()
    ensures Total(StringOrder()) && Transitive(StringOrder())
  {
    forall a: string, b: string ensures LexLe(a, b) || LexLe(b, a) {
      LexTotal(a, b);
    }
    forall a: string, b: string, c: string | LexLe(a, b) && LexLe(b, c) ensures LexLe(a, c) {
      LexTransitive(a, b, c);
    }
  }

  /** The names of a set in sorted order. */
  ghost predicate Names(xs: seq<string>, s: set<string>) {
    SortedBy(xs, StringOrder()) && Distinct(xs) && forall x :: x in xs <==> x in s
  }

  method Sorted(s: set<string>) returns (xs: seq<string>)
    ensures Names(xs, s)
  {
    var keys := DictKeys(map x | x in s :: true);
    StringOrderTotal();
    SortSorts(keys, StringOrder());
    xs := Sort(keys, StringOrder());
    SameMembers(xs, keys);
    DistinctReordered(xs, keys, Same());
    assert forall i, j :: 0 <= i < j < |xs| ==> Same()(xs[i]) != Same()(xs[j]);
  }

  function Same(): string -> string { (x: string) => x }

  function Name(): ((string, Flags)) -> string { (f: (string, Flags)) => f.0 }

  /** The flags of these markets, in the order of their names. */
  ghost predicate FlagsOf(fs: seq<(string, Flags)>, names: set<string>, state: Markets) {
    Names(Map(fs, Name()), names) && forall f :: f in fs ==> f.0 in state && f.1 == state[f.0]
  }

  method FlagList(names: set<string>, state: Markets) returns (fs: seq<(string, Flags)>)
    requires names <= state.Keys
    ensures FlagsOf(fs, names, state)
  {
    hide SortedBy, Distinct;
    var xs := Sorted(names);
    fs := [];
    for i := 0 to |xs|
      invariant Map(fs, Name()) == xs[..i]
      invariant forall f :: f in fs ==> f.0 in state && f.1 == state[f.0]
    {
      var x := xs[i];
      assert x in xs;
      assert Map(fs + [(x, state[x])], Name()) == Map(fs, Name()) + [x];
      fs := fs + [(x, state[x])];
    }
    assert xs[..|xs|] == xs;
  }

  function Flagged(state: Markets): set<string> { set m | m in state && state[m] != CLEAR }

  function Reflagged(known: Markets, state: Markets): set<string> {
    set m | m in state && m in known && known[m] != state[m]
  }

  /** The line a list is worth after what was known, if any. */
  ghost predicate Logged(known: Option<Markets>, state: Markets, t: int, lines: seq<Line>) {
    if known.None? then
      |lines| == 1 && lines[0].Baseline? && lines[0].t == t
      && Names(lines[0].markets, state.Keys) && FlagsOf(lines[0].flags, Flagged(state), state)
    else if state == known.value then lines == []
    else
      |lines| == 1 && lines[0].Change? && lines[0].t == t
      && Names(lines[0].added, state.Keys - known.value.Keys)
      && Names(lines[0].removed, known.value.Keys - state.Keys)
      && FlagsOf(lines[0].flags, Reflagged(known.value, state), state)
  }

  function BackOff(wait: real): real { MinReal(MaxReal(wait * 2.0, 2.0), 60.0) }

  /** One turn of the loop. */
  ghost predicate Step(a: Sys, reply: Reply, t: int, b: Sys) {
    match reply
    case Listed(state, budget) =>
      b.known == Some(state) && b.wait == INTERVAL &&
      exists lines :: Logged(a.known, state, t, lines) && b.log == a.log + lines
    case Refused(status, cloudflare) =>
      b.known == a.known &&
      if status == 403 || cloudflare then b == a.(log := a.log + [Blocked(t, status)], wait := PAUSE_BLOCKED)
      else b == a.(wait := BackOff(a.wait))
    case _ => b == a.(wait := BackOff(a.wait))
  }

  class Process {
    var known: Option<Markets>
    var wait: real
    var log: seq<Line>

    ghost function Now(): Sys
      reads this
    {
      Sys(known, wait, log)
    }

    /** A new process finds the log file as it is. */
    constructor (file: seq<Line>)
      ensures Now() == Sys(None, INTERVAL, file)
    {
      known, wait, log := None, INTERVAL, file;
    }

    /** One request and what follows from it. The pause for a low budget is never longer than the normal one. */
    method Turn(reply: Reply, t: int)
      modifies this
      ensures Step(old(Now()), reply, t, Now())
    {
      match reply
      case Listed(state, budget) =>
        wait := INTERVAL;
        var lines := Difference(known, state, t);
        log := log + lines;
        known := Some(state);
        if budget.Some? && budget.value <= 1 {
          wait := MaxReal(wait, 1.0);
        }
      case TooMany =>
        wait := MinReal(MaxReal(wait * 2.0, 2.0), 60.0);
      case Refused(status, cloudflare) =>
        if status == 403 || cloudflare {
          log := log + [Blocked(t, status)];
          wait := PAUSE_BLOCKED;
        } else {
          wait := MinReal(MaxReal(wait * 2.0, 2.0), 60.0);
        }
      case Failed =>
        wait := MinReal(MaxReal(wait * 2.0, 2.0), 60.0);
    }
  }

  method Difference(known: Option<Markets>, state: Markets, t: int) returns (lines: seq<Line>)
    ensures Logged(known, state, t, lines)
  {
    hide Names, FlagsOf;
    if known.None? {
      var markets := Sorted(state.Keys);
      var flags := FlagList(Flagged(state), state);
      lines := [Baseline(t, markets, flags)];
    } else if state != known.value {
      var added := Sorted(state.Keys - known.value.Keys);
      var removed := Sorted(known.value.Keys - state.Keys);
      var flags := FlagList(Reflagged(known.value, state), state);
      lines := [Change(t, added, removed, flags)];
    } else {
      lines := [];
    }
  }

  // ---------------------------------------------------------------- runs and replay

  datatype Event = Turned(reply: Reply, t: int) | Restarted

  ghost predicate Moves(a: Sys, ev: Event, b: Sys) {
    match ev
    case Turned(reply, t) => Step(a, reply, t, b)
    case Restarted => b == Sys(None, INTERVAL, a.log)
  }

  ghost predicate Run(evs: seq<Event>, states: seq<Sys>) {
    && |states| == |evs| + 1 && states[0] == FRESH
    && forall i :: 0 <= i < |evs| ==> Moves(states[i], evs[i], states[i + 1])
  }

  lemma RunFront(evs: seq<Event>, states: seq<Sys>)
    requires Run(evs, states) && evs != []
    ensures Run(evs[..|evs| - 1], states[..|evs|])
    ensures Moves(states[|evs| - 1], evs[|evs| - 1], states[|evs|])
  {
    hide Moves;
    var n, front := |evs| - 1, states[..|evs|];
    forall i | 0 <= i < n ensures Moves(front[i], evs[..n][i], front[i + 1]) {
      assert Moves(states[i], evs[i], states[i + 1]);
    }
  }

  /** The pause between requests is the normal second, a back-off of 2 to 60 seconds, or the hour after a block. */
  lemma {:induction false} WaitRange(evs: seq<Event>, states: seq<Sys>)
    requires Run(evs, states)
    ensures var w := states[|evs|].wait; w == 1.0 || 2.0 <= w <= 60.0 || w == 3600.0
  {
    hide Run;
    assert Run(evs, states) ==> |states| == |evs| + 1 by {
      RunSize(evs, states);
    }
    RunSize(evs, states);
    if evs != [] {
      RunFront(evs, states);
      WaitRange(evs[..|evs| - 1], states[..|evs|]);
    }
  }

  lemma RunSize(evs: seq<Event>, states: seq<Sys>)
    requires Run(evs, states)
    ensures |states| == |evs| + 1 && states[0] == FRESH
  {
  }

  function Doubled(n: nat): real { if n == 0 then 1.0 else 2.0 * Doubled(n - 1) }

  /** A request that neither brings a list nor is blocked. */
  predicate Misses(ev: Event) {
    ev.Turned? && !ev.reply.Listed? && !(ev.reply.Refused? && (ev.reply.status == 403 || ev.reply.cloudflare))
  }

  /** After a success, n requests in a row that miss make the pause 2, 4, 8 and so on up to 60 seconds, and write
      nothing. */
  lemma {:induction false} PauseDoubles(evs: seq<Event>, states: seq<Sys>, i: nat, n: nat)
    requires Run(evs, states) && i + n <= |evs| && states[i].wait == 1.0
    requires forall j :: i <= j < i + n ==> Misses(evs[j])
    ensures states[i + n].wait == MinReal(Doubled(n), 60.0) && Doubled(n) >= 1.0 && (n > 0 ==> Doubled(n) >= 2.0)
    ensures states[i + n].log == states[i].log && states[i + n].known == states[i].known
  {
    if n > 0 {
      PauseDoubles(evs, states, i, n - 1);
      assert Moves(states[i + n - 1], evs[i + n - 1], states[i + n - 1 + 1]);
    }
  }

  function Overlaid(m: Markets, fs: seq<(string, Flags)>): Markets {
    if fs == [] then m else Overlaid(m, fs[..|fs| - 1])[fs[|fs| - 1].0 := fs[|fs| - 1].1]
  }

  function Exchanged(m: Markets, added: seq<string>, removed: seq<string>): Markets {
    (map x | x in m && x !in removed :: m[x]) + (map x | x in added :: CLEAR)
  }

  lemma ExchangedMeaning(m: Markets, known: Markets, state: Markets, added: seq<string>, removed: seq<string>)
    requires m.Keys == known.Keys
    requires Names(added, state.Keys - known.Keys) && Names(removed, known.Keys - state.Keys)
    ensures Exchanged(m, added, removed).Keys == state.Keys
    ensures forall x :: x in state ==> Exchanged(m, added, removed)[x] == if x in known then m[x] else CLEAR
  {
    hide SortedBy, Distinct;
  }

  /** Reading the log: a baseline lists every market, unflagged unless said, and a change adds markets unflagged. */
  function Read(m: Markets, line: Line): Markets {
    match line
    case Baseline(t, markets, flags) => Overlaid(map x | x in markets :: CLEAR, flags)
    case Change(t, added, removed, flags) =>
      Overlaid(Exchanged(m, added, removed), flags)
    case Blocked(t, status) => m
  }

  function Replayed(log: seq<Line>): Markets {
    if log == [] then map[] else Read(Replayed(log[..|log| - 1]), log[|log| - 1])
  }

  /** The markets whose flags the log does not hold: added with flags, and those flags not logged since. */
  function Unlogged(evs: seq<Event>): set<string> {
    if evs == [] then {}
    else
      var front := evs[..|evs| - 1];
      match evs[|evs| - 1]
      case Restarted => {}
      case Turned(reply, t) =>
        if !reply.Listed? then Unlogged(front)
        else if Known(front).None? then {}
        else
          var known, state := Known(front).value, reply.state;
          (set m | m in Flagged(state) && m !in known) +
          (set m | m in Unlogged(front) && m in known && m in state && known[m] == state[m])
  }

  /** The last list since the last start. */
  function Known(evs: seq<Event>): Option<Markets> {
    if evs == [] then None
    else
      match evs[|evs| - 1]
      case Restarted => None
      case Turned(reply, t) => if reply.Listed? then Some(reply.state) else Known(evs[..|evs| - 1])
  }

  /** The markets in every list since the last start. */
  function Steady(evs: seq<Event>): set<string> {
    if evs == [] then {}
    else
      var front := evs[..|evs| - 1];
      match evs[|evs| - 1]
      case Restarted => {}
      case Turned(reply, t) =>
        if !reply.Listed? then Steady(front)
        else if Known(front).None? then reply.state.Keys
        else Steady(front) * reply.state.Keys
  }

  /** The log against what is known: the same markets, and the same flags but for the unlogged ones. */
  ghost predicate Faithful(replay: Markets, known: Markets, unlogged: set<string>) {
    && replay.Keys == known.Keys && unlogged <= known.Keys
    && forall m :: m in known ==>
         if m in unlogged then replay[m] == CLEAR && known[m] != CLEAR else replay[m] == known[m]
  }

  lemma {:induction false} OverlaidMeaning(m: Markets, fs: seq<(string, Flags)>, state: Markets)
    requires forall f :: f in fs ==> f.0 in state && f.1 == state[f.0]
    ensures Overlaid(m, fs).Keys == m.Keys + set f | f in fs :: f.0
    ensures forall x :: x in Overlaid(m, fs) ==>
              Overlaid(m, fs)[x] == if exists f :: f in fs && f.0 == x then state[x] else m[x]
  {
    if fs != [] {
      var n := |fs| - 1;
      assert fs == fs[..n] + [fs[n]];
      OverlaidMeaning(m, fs[..n], state);
      assert fs[n] in fs;
    }
  }

  lemma FlagsOverlaid(m: Markets, fs: seq<(string, Flags)>, names: set<string>, state: Markets)
    requires FlagsOf(fs, names, state)
    ensures Overlaid(m, fs).Keys == m.Keys + names
    ensures forall x :: x in Overlaid(m, fs) ==> Overlaid(m, fs)[x] == if x in names then state[x] else m[x]
  {
    OverlaidMeaning(m, fs, state);
    var xs := Map(fs, Name());
    forall x ensures x in names <==> exists f :: f in fs && f.0 == x {
      if x in names {
        var i :| 0 <= i < |xs| && xs[i] == x;
        assert fs[i] in fs;
      }
      if f :| f in fs && f.0 == x {
        var i :| 0 <= i < |fs| && fs[i] == f;
        assert xs[i] == x;
      }
    }
  }

  lemma BaselineFaithful(m: Markets, state: Markets, line: Line)
    requires line.Baseline? && Names(line.markets, state.Keys) && FlagsOf(line.flags, Flagged(state), state)
    ensures Faithful(Read(m, line), state, {})
  {
    hide FlagsOf;
    FlagsOverlaid(map x | x in line.markets :: CLEAR, line.flags, Flagged(state), state);
  }

  lemma ChangeFaithful(m: Markets, known: Markets, unlogged: set<string>, state: Markets, line: Line)
    requires Faithful(m, known, unlogged) && line.Change?
    requires Names(line.added, state.Keys - known.Keys) && Names(line.removed, known.Keys - state.Keys)
    requires FlagsOf(line.flags, Reflagged(known, state), state)
    ensures Faithful(Read(m, line), state,
                     (set x | x in Flagged(state) && x !in known) +
                     (set x | x in unlogged && x in known && x in state && known[x] == state[x]))
  {
    hide FlagsOf, Exchanged, Overlaid, Names;
    ExchangedMeaning(m, known, state, line.added, line.removed);
    FlagsOverlaid(Exchanged(m, line.added, line.removed), line.flags, Reflagged(known, state), state);
  }

  lemma {:induction false} KnownIsKnown(evs: seq<Event>, states: seq<Sys>)
    requires Run(evs, states)
    ensures states[|evs|].known == Known(evs)
  {
    hide Run, Logged;
    RunSize(evs, states);
    if evs != [] {
      RunFront(evs, states);
      KnownIsKnown(evs[..|evs| - 1], states[..|evs|]);
    }
  }

  lemma ReplaySnoc(log: seq<Line>, line: Line)
    ensures Replayed(log + [line]) == Read(Replayed(log), line)
  {
    assert (log + [line])[..|log|] == log;
  }

  /** After every list, and until the next restart, the log reconstructs the market set; it reconstructs the flags of a
      market exactly when the market was not added with flags that have not changed since. */
  lemma {:induction false} LogReconstructs(evs: seq<Event>, states: seq<Sys>)
    requires Run(evs, states) && Known(evs).Some?
    ensures states[|evs|].known == Known(evs)
    ensures Faithful(Replayed(states[|evs|].log), Known(evs).value, Unlogged(evs))
  {
    hide Run, Faithful, Read, Replayed;
    RunSize(evs, states);
    KnownIsKnown(evs, states);
    RunFront(evs, states);
    var n := |evs| - 1;
    var front, a, b, ev := evs[..n], states[n], states[|evs|], evs[n];
    KnownIsKnown(front, states[..|evs|]);
    if Known(front).Some? {
      LogReconstructs(front, states[..|evs|]);
    }
    if ev.reply.Listed? {
      Reconstructed(a, ev.reply.state, ev.t, b, Unlogged(front));
    } else if ev.reply.Refused? {
      ReplaySnoc(a.log, Blocked(ev.t, ev.reply.status));
      ReadBlocked(Replayed(a.log), ev.t, ev.reply.status);
    }
  }

  lemma ReadBlocked(m: Markets, t: int, status: int)
    ensures Read(m, Blocked(t, status)) == m
  {
  }

  lemma Reconstructed(a: Sys, state: Markets, t: int, b: Sys, unlogged: set<string>)
    requires exists lines :: Logged(a.known, state, t, lines) && b.log == a.log + lines
    requires a.known.Some? ==> Faithful(Replayed(a.log), a.known.value, unlogged)
    ensures Faithful(Replayed(b.log), state,
                     if a.known.None? then {}
                     else (set m | m in Flagged(state) && m !in a.known.value) +
                          (set m | m in unlogged && m in a.known.value && m in state && a.known.value[m] == state[m]))
  {
    hide Read, Replayed, Names, FlagsOf;
    var lines :| Logged(a.known, state, t, lines) && b.log == a.log + lines;
    if lines == [] {
      assert b.log == a.log;
    } else {
      assert lines == [lines[0]];
      ReplaySnoc(a.log, lines[0]);
      hide Faithful;
      if a.known.None? {
        BaselineFaithful(Replayed(a.log), state, lines[0]);
      } else {
        ChangeFaithful(Replayed(a.log), a.known.value, unlogged, state, lines[0]);
      }
    }
  }

  /** The flags of a market listed in every reply since the last start are in the log. */
  lemma {:induction false} SteadyIsLogged(evs: seq<Event>)
    ensures Steady(evs) !! Unlogged(evs)
    ensures Known(evs).Some? ==> Steady(evs) <= Known(evs).value.Keys
  {
    if evs != [] {
      SteadyIsLogged(evs[..|evs| - 1]);
    }
  }

  lemma SteadyFlags(evs: seq<Event>, states: seq<Sys>, market: string)
    requires Run(evs, states) && Known(evs).Some? && market in Steady(evs)
    ensures var replay := Replayed(states[|evs|].log);
      market in replay && market in Known(evs).value && replay[market] == Known(evs).value[market]
  {
    LogReconstructs(evs, states);
    SteadyIsLogged(evs);
  }

  const FLAGGED: Markets := map["A" := Flags(true, [])]

  /** A market added with a flag after the start: the log has the market, but not the flag. */
  lemma AddedWithFlag()
    ensures exists evs: seq<Event>, states: seq<Sys> ::
              Run(evs, states) && Known(evs) == Some(FLAGGED) &&
              "A" in Replayed(states[|evs|].log) && Replayed(states[|evs|].log)["A"] == CLEAR
  {
    hide Replayed, Known, Logged;
    var first, second := Baseline(0, [], []), Change(0, ["A"], [], []);
    var evs := [Turned(Listed(map[], None), 0), Turned(Listed(FLAGGED, None), 0)];
    var s1, s2 := Sys(Some(map[]), INTERVAL, [first]), Sys(Some(FLAGGED), INTERVAL, [first, second]);
    TwoLists(first, second);
    assert FRESH.log + [first] == s1.log && s1.log + [second] == s2.log;
    assert Moves(FRESH, evs[0], s1) && Moves(s1, evs[1], s2);
    assert Run(evs, [FRESH, s1, s2]);
    LastKnown(evs);
    ReplayedTwice(first, second);
  }

  lemma LastKnown(evs: seq<Event>)
    requires evs != [] && evs[|evs| - 1].Turned? && evs[|evs| - 1].reply.Listed?
    ensures Known(evs) == Some(evs[|evs| - 1].reply.state)
  {
  }

  lemma TwoLists(first: Line, second: Line)
    requires first == Baseline(0, [], []) && second == Change(0, ["A"], [], [])
    ensures Logged(None, map[], 0, [first]) && Logged(Some(map[]), FLAGGED, 0, [second])
  {
    assert "A" in FLAGGED;
    assert FLAGGED != map[];
  }

  lemma ReadNothing(m: Markets, line: Line)
    requires line == Baseline(0, [], [])
    ensures Read(m, line) == map[]
  {
  }

  lemma ReadAdded(line: Line)
    requires line == Change(0, ["A"], [], [])
    ensures Read(map[], line).Keys == {"A"} && Read(map[], line)["A"] == CLEAR
  {
    var m: Markets := map x | x in ["A"] :: CLEAR;
    assert m.Keys == {"A"};
  }

  lemma ReplayedTwice(first: Line, second: Line)
    requires first == Baseline(0, [], []) && second == Change(0, ["A"], [], [])
    ensures Replayed([first, second]).Keys == {"A"} && Replayed([first, second])["A"] == CLEAR
  {
    hide Replayed, Read;
    ReplaySnoc([], first);
    ReplaySnoc([first], second);
    assert [] + [first] == [first] && [first] + [second] == [first, second];
    ReadNothing(Replayed([]), first);
    ReadAdded(second);
  }

  // ---------------------------------------------------------------- what the readers rely on

  function ToRecord(): Line -> WatchLog.Record {
    (x: Line) =>
      match x
      case Baseline(t, markets, flags) => WatchLog.Record(true, t, markets, [])
      case Change(t, added, removed, flags) => WatchLog.Record(false, t, [], added)
      case Blocked(t, status) => WatchLog.Record(false, t, [], [])
  }

  predicate HasBaseline(log: seq<Line>) { exists j :: 0 <= j < |log| && log[j].Baseline? }

  lemma HeadedSnoc(log: seq<Line>, x: Line)
    requires WatchLog.Headed(Map(log, ToRecord())) && (x.Change? ==> HasBaseline(log))
    ensures WatchLog.Headed(Map(log + [x], ToRecord()))
    ensures HasBaseline(log + [x]) <==> HasBaseline(log) || x.Baseline?
  {
    var more := Map(log + [x], ToRecord());
    assert more == Map(log, ToRecord()) + [ToRecord()(x)];
    assert (log + [x])[|log|] == x;
    forall i | 0 <= i < |more| && !more[i].baseline && more[i].added != [] ensures exists j :: 0 <= j < i && more[j].baseline {
      if i < |log| {
        assert more[i] == Map(log, ToRecord())[i];
        var j :| 0 <= j < i && Map(log, ToRecord())[j].baseline;
        assert more[j].baseline;
      } else {
        assert x.Change?;
        var j :| 0 <= j < |log| && log[j].Baseline?;
        assert more[j].baseline;
      }
    }
    if HasBaseline(log) {
      var j :| 0 <= j < |log| && log[j].Baseline?;
      assert (log + [x])[j] == log[j];
    }
  }

  /** Whatever happens, nothing is added before the first baseline: the log both readers get starts with one. */
  lemma {:induction false} LogIsHeaded(evs: seq<Event>, states: seq<Sys>)
    requires Run(evs, states)
    ensures WatchLog.Headed(Map(states[|evs|].log, ToRecord()))
    ensures states[|evs|].known.Some? ==> HasBaseline(states[|evs|].log)
  {
    hide Run, WatchLog.Headed, HasBaseline, Names, FlagsOf;
    RunSize(evs, states);
    if evs == [] {
      NothingHeaded();
    } else {
      RunFront(evs, states);
      var n := |evs| - 1;
      LogIsHeaded(evs[..n], states[..|evs|]);
      var a, b, ev := states[n], states[|evs|], evs[n];
      if ev.Turned? && ev.reply.Listed? {
        var lines :| Logged(a.known, ev.reply.state, ev.t, lines) && b.log == a.log + lines;
        assert lines == [] || lines == [lines[0]];
        assert a.log + [] == a.log;
        if lines != [] {
          HeadedSnoc(a.log, lines[0]);
        }
      } else if ev.Turned? && ev.reply.Refused? {
        HeadedSnoc(a.log, Blocked(ev.t, ev.reply.status));
      }
    }
  }

  lemma NothingHeaded()
    ensures WatchLog.Headed(Map([], ToRecord()))
  {
  }
}
