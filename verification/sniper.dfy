/** The sniper's loop as a protocol over its memory, its state file and its ledger file: reading, settling, saving, and
    crashing at any point (research/listing_pump/fwd_sniper.py:105-172, 193-210). */
module SniperProtocol {
  import opened Lists
  import opened WatchLog

  const SETTLE := 3 * 60_000

  /** A ledger line: the trigger and the time of the loop that settled it. */
  datatype Row = Row(trigger: Trigger, at: int)

  /** The reader's fields in memory, in the state file, and the ledger file. */
  datatype Sys = Sys(mem: Snapshot, saved: Snapshot, ledger: seq<Row>)

  const FRESH := Sys(Snapshot(0, START), Snapshot(0, START), [])

  /** What can happen, one write at a time. Dropped: settling raised behind the removal from pending and before the
      ledger line was written. Crashed: the process ends, and starts again from the state file. */
  datatype Event =
    | Read(text: string, to: Snapshot, ok: bool)
    | Settled(trigger: Trigger, at: int)
    | Dropped(trigger: Trigger, at: int)
    | Saved
    | Crashed

  function RemoveFirst(s: seq<Trigger>, e: Trigger): (r: seq<Trigger>)
    ensures e !in s ==> r == s
    ensures e in s ==> multiset(r) == multiset(s) - multiset{e} && |r| == |s| - 1
  {
    if s == [] then []
    else if s[0] == e then
      assert s == [e] + s[1..];
      s[1..]
    else
      assert s == [s[0]] + s[1..];
      [s[0]] + RemoveFirst(s[1..], e)
  }

  function Pop(x: Snapshot, e: Trigger): Snapshot { x.(mem := x.mem.(triggers := RemoveFirst(x.mem.triggers, e))) }

  ghost predicate Allowed(s: Sys, ev: Event, log: string, decode: Decoder) {
    match ev
    case Read(text, to, ok) => text <= log && ReadStep(s.mem, text, to, ok, decode)
    case Settled(e, at) => e in s.mem.mem.triggers && at >= e.tSeen + SETTLE
    case Dropped(e, at) => e in s.mem.mem.triggers && at >= e.tSeen + SETTLE
    case _ => true
  }

  function Apply(s: Sys, ev: Event): Sys {
    match ev
    case Read(text, to, ok) => s.(mem := to)
    case Settled(e, at) => s.(mem := Pop(s.mem, e), ledger := s.ledger + [Row(e, at)])
    case Dropped(e, at) => s.(mem := Pop(s.mem, e))
    case Saved => s.(saved := s.mem)
    case Crashed => s.(mem := s.saved)
  }

  function After(s: Sys, evs: seq<Event>): Sys {
    if evs == [] then s else Apply(After(s, evs[..|evs| - 1]), evs[|evs| - 1])
  }

  ghost predicate Run(s: Sys, evs: seq<Event>, log: string, decode: Decoder) {
    forall i :: 0 <= i < |evs| ==> Allowed(After(s, evs[..i]), evs[i], log, decode)
  }

  lemma RunFront(s: Sys, evs: seq<Event>, log: string, decode: Decoder)
    requires Run(s, evs, log, decode) && evs != []
    ensures Run(s, evs[..|evs| - 1], log, decode)
    ensures Allowed(After(s, evs[..|evs| - 1]), evs[|evs| - 1], log, decode)
  {
    hide Allowed, After;
    var front := evs[..|evs| - 1];
    forall i | 0 <= i < |front| ensures Allowed(After(s, front[..i]), front[i], log, decode) {
      assert front[..i] == evs[..i];
    }
  }

  lemma RunSnoc(s: Sys, evs: seq<Event>, ev: Event, log: string, decode: Decoder)
    requires Run(s, evs, log, decode) && Allowed(After(s, evs), ev, log, decode)
    ensures Run(s, evs + [ev], log, decode) && After(s, evs + [ev]) == Apply(After(s, evs), ev)
  {
    hide Allowed;
    var more := evs + [ev];
    assert more[..|evs|] == evs;
    forall i | 0 <= i < |more| ensures Allowed(After(s, more[..i]), more[i], log, decode) {
      assert i < |evs| ==> more[..i] == evs[..i];
    }
  }

  // ---------------------------------------------------------------- the loop

  function Due(now: int): Trigger -> bool { (e: Trigger) => now >= e.tSeen + SETTLE }

  function NotDue(now: int): Trigger -> bool { (e: Trigger) => now < e.tSeen + SETTLE }

  function RowAt(now: int): Trigger -> Row { (e: Trigger) => Row(e, now) }

  lemma {:induction false} RemoveDue(s: seq<Trigger>, now: int)
    requires Filter(s, Due(now)) != []
    ensures var due := Filter(s, Due(now)); var r := RemoveFirst(s, due[0]);
      due[0] in s && Due(now)(due[0]) && Filter(r, Due(now)) == due[1..] && Filter(r, NotDue(now)) == Filter(s, NotDue(now))
  {
    if s != [] {
      var x, rest := s[0], s[1..];
      assert s == [x] + rest;
      FilterConcat([x], rest, Due(now));
      FilterConcat([x], rest, NotDue(now));
      FilterSnoc([], x, Due(now));
      FilterSnoc([], x, NotDue(now));
      assert [] + [x] == [x];
      if !Due(now)(x) {
        RemoveDue(rest, now);
        var r := RemoveFirst(rest, Filter(rest, Due(now))[0]);
        FilterConcat([x], r, Due(now));
        FilterConcat([x], r, NotDue(now));
      }
    }
  }

  /** Where settling raises, if it does: before the first line (the exchange cannot be reached), behind the removal of
      the n-th due trigger and before its line, or behind that line (the report). */
  datatype Fault = NoFault | Unreachable | BeforeLine(n: nat) | BehindLine(n: nat)

  /** The process and its two files. */
  class Sniper {
    const st: State
    var saved: Snapshot
    var ledger: seq<Row>

    ghost function Now(): Sys
      reads this, st
    {
      Sys(st.Snap(), saved, ledger)
    }

    constructor ()
      ensures Now() == FRESH && fresh(st)
    {
      st := new State();
      saved, ledger := Snapshot(0, START), [];
    }

    /** settle(): the due triggers leave pending one by one, each into a ledger line. Raising before the first one
        changes nothing, raising behind a line keeps it, and raising before a line drops the trigger at hand. */
    method Settle(now: int, fault: Fault, ghost log: string, ghost decode: Decoder)
      returns (ok: bool, ghost evs: seq<Event>)
      modifies this`ledger, st`pending
      ensures Run(old(Now()), evs, log, decode) && Now() == After(old(Now()), evs)
      ensures forall i :: 0 <= i < |evs| ==>
                evs[i].Settled? || (evs[i].Dropped? && i == |evs| - 1 && fault == BeforeLine(i))
      ensures fault.NoFault? ==> ok
      ensures ok ==> st.pending == Filter(old(st.pending), NotDue(now))
      ensures ok ==> ledger == old(ledger) + Map(Filter(old(st.pending), Due(now)), RowAt(now))
    {
      hide Run, Filter, RemoveFirst, After;
      NoEvents(Now(), log, decode);
      evs := [];
      var due := Filter(st.pending, Due(now));
      NoneDue(st.pending, now);
      if due == [] {
        assert ledger + Map(due, RowAt(now)) == ledger;
        return true, evs;
      }
      if fault.Unreachable? {
        return false, evs;
      }
      for i := 0 to |due|
        invariant Filter(st.pending, Due(now)) == due[i..]
        invariant Filter(st.pending, NotDue(now)) == Filter(old(st.pending), NotDue(now))
        invariant Run(old(Now()), evs, log, decode) && Now() == After(old(Now()), evs)
        invariant |evs| == i && forall j :: 0 <= j < |evs| ==> evs[j].Settled?
        invariant ledger == old(ledger) + Map(due[..i], RowAt(now))
      {
        var e := due[i];
        RemoveDue(st.pending, now);
        var drops := fault == BeforeLine(i);
        ghost var ev := if drops then Dropped(e, now) else Settled(e, now);
        RunSnoc(old(Now()), evs, ev, log, decode);
        evs := evs + [ev];
        st.pending := RemoveFirst(st.pending, e);
        if drops {
          return false, evs;
        }
        ledger := ledger + [Row(e, now)];
        assert Map(due[..i + 1], RowAt(now)) == Map(due[..i], RowAt(now)) + [Row(e, now)];
        if fault == BehindLine(i) {
          return false, evs;
        }
      }
      assert due[..|due|] == due;
      NoneDue(st.pending, now);
      ok := true;
    }

    /** save(): the state file is replaced in one step, or raising leaves it as it is. */
    method Save(raises: bool) returns (ghost evs: seq<Event>)
      modifies this`saved
      ensures evs == (if raises then [] else [Saved])
      ensures Now() == (if raises then old(Now()) else Apply(old(Now()), Saved))
    {
      evs := [];
      if !raises {
        saved := Snapshot(st.offset, Mem(st.base, st.last, st.pending));
        evs := [Saved];
      }
    }

    /** A new process reads the state file. */
    method Restart()
      modifies st
      ensures Now() == Apply(old(Now()), Crashed)
    {
      st.offset, st.base, st.last, st.pending := saved.offset, saved.mem.base, saved.mem.last, saved.mem.triggers;
    }

    /** One turn of loop(): the time request, reading, settling and saving, and whatever raises ends the turn. It is a run
        of the protocol. */
    method Turn(text: string, now: int, timed: bool, fault: Fault, saveRaises: bool, decode: Decoder, ghost log: string)
      returns (ghost evs: seq<Event>)
      requires text <= log && Boundary(text, st.offset)
      modifies this, st
      ensures Run(old(Now()), evs, log, decode) && Now() == After(old(Now()), evs)
    {
      hide Run, After, ReadStep;
      ghost var s0 := Now();
      NoEvents(s0, log, decode);
      evs := [];
      if !timed {
        return;
      }
      var ok := st.ReadNew(text, decode);
      ghost var read := Read(text, st.Snap(), ok);
      RunSnoc(s0, [], read, log, decode);
      evs := [] + [read];
      if !ok {
        return;
      }
      ghost var settles;
      ok, settles := Settle(now, fault, log, decode);
      RunConcat(s0, evs, settles, log, decode);
      evs := evs + settles;
      if !ok {
        return;
      }
      ghost var saves := Save(saveRaises);
      RunSnoc(s0, evs, Saved, log, decode);
      assert evs + [] == evs;
      evs := evs + saves;
    }
  }

  lemma NoEvents(s: Sys, log: string, decode: Decoder)
    ensures Run(s, [], log, decode) && After(s, []) == s
  {
  }

  lemma NoneDue(s: seq<Trigger>, now: int)
    ensures Filter(s, Due(now)) == [] ==> Filter(s, NotDue(now)) == s
  {
    if Filter(s, Due(now)) == [] {
      FilterMembers(s, Due(now));
      forall x | x in s ensures NotDue(now)(x) {
        assert x !in Filter(s, Due(now));
      }
      AllKept(s, NotDue(now));
    }
  }

  lemma {:induction false} RunConcat(s: Sys, a: seq<Event>, b: seq<Event>, log: string, decode: Decoder)
    requires Run(s, a, log, decode) && Run(After(s, a), b, log, decode)
    ensures Run(s, a + b, log, decode) && After(s, a + b) == After(After(s, a), b)
  {
    hide Run, Allowed;
    if b == [] {
      assert a + b == a;
    } else {
      var front, ev := b[..|b| - 1], b[|b| - 1];
      RunFront(After(s, a), b, log, decode);
      RunConcat(s, a, front, log, decode);
      RunSnoc(s, a + front, ev, log, decode);
      assert a + b == a + front + [ev];
    }
  }

  // ---------------------------------------------------------------- what every run keeps

  /** One pass over the log up to an offset. */
  function Pass(log: string, offset: nat, decode: Decoder): Mem
    requires offset <= |log|
  {
    FeedAll(START, Lines(log[..offset]), decode)
  }

  /** What is pending does not influence what is read. */
  lemma {:induction false} AddAllShift(m: Mem, p: seq<Trigger>, added: seq<string>, t: int)
    ensures var r := AddAll(m, added, t);
      AddAll(m.(triggers := p + m.triggers), added, t) == r.(triggers := p + r.triggers)
  {
    if added != [] {
      AddAllShift(m, p, added[..|added| - 1], t);
      var r := AddAll(m, added[..|added| - 1], t);
      assert forall e: Trigger :: (p + r.triggers) + [e] == p + (r.triggers + [e]);
    }
  }

  lemma {:induction false} FeedShift(m: Mem, p: seq<Trigger>, lines: seq<string>, decode: Decoder)
    ensures var r := FeedAll(m, lines, decode);
      FeedAll(m.(triggers := p + m.triggers), lines, decode) == r.(triggers := p + r.triggers)
  {
    if lines != [] {
      var front, d := lines[..|lines| - 1], decode(lines[|lines| - 1]);
      FeedShift(m, p, front, decode);
      if d.Some? && !d.value.baseline {
        AddAllShift(FeedAll(m, front, decode), p, d.value.added, d.value.t);
      }
    }
  }

  /** The listed markets and last times are those of the pass over the lines before the offset. */
  ghost predicate Follows(x: Snapshot, log: string, decode: Decoder) {
    Boundary(log, x.offset) && var m := Pass(log, x.offset, decode); x.mem.base == m.base && x.mem.last == m.last
  }

  /** A read extends the pass and what is pending by the same triggers. */
  lemma ReadExtends(a: Snapshot, text: string, b: Snapshot, ok: bool, log: string, decode: Decoder)
    returns (more: seq<Trigger>)
    requires Follows(a, log, decode) && text <= log && ReadStep(a, text, b, ok, decode)
    ensures Follows(b, log, decode) && b.mem.triggers == a.mem.triggers + more
    ensures Pass(log, b.offset, decode).triggers == Pass(log, a.offset, decode).triggers + more
  {
    hide FeedAll, Lines;
    var lines := Lines(text[a.offset..b.offset]);
    var m := Pass(log, a.offset, decode);
    var bare := m.(triggers := []);
    more := FeedAll(bare, lines, decode).triggers;
    var read := log[..b.offset];
    LinesCut(read, a.offset);
    assert read[..a.offset] == log[..a.offset];
    assert read[a.offset..] == text[a.offset..b.offset];
    FeedConcat(START, Lines(log[..a.offset]), lines, decode);
    FeedShift(bare, m.triggers, lines, decode);
    FeedShift(bare, a.mem.triggers, lines, decode);
    assert bare.(triggers := m.triggers + []) == m;
    assert bare.(triggers := a.mem.triggers + []) == a.mem;
  }

  // ---------------------------------------------------------------- triggers are distinct

  lemma {:induction false} DistinctOnce(s: seq<Trigger>, e: Trigger)
    requires DistinctBy(s, MarketOf())
    ensures multiset(s)[e] <= 1
  {
    if s != [] {
      var n := |s| - 1;
      assert s == s[..n] + [s[n]];
      DistinctOnce(s[..n], e);
      if e == s[n] {
        forall i | 0 <= i < n ensures s[..n][i] != e {
          assert MarketOf()(s[i]) != MarketOf()(s[n]);
        }
        assert e !in s[..n];
        assert multiset(s[..n])[e] == 0;
      }
    }
  }

  /** No market triggers twice in one pass. */
  lemma PassOnce(log: string, offset: nat, decode: Decoder, e: Trigger)
    requires offset <= |log|
    ensures multiset(Pass(log, offset, decode).triggers)[e] <= 1
  {
    FeedFresh(Lines(log[..offset]), decode);
    DistinctOnce(Pass(log, offset, decode).triggers, e);
  }

  // ---------------------------------------------------------------- safety over all runs

  function TriggerOf(): Row -> Trigger { (r: Row) => r.trigger }

  function Rows(s: Sys): seq<Trigger> { Map(s.ledger, TriggerOf()) }

  lemma RowsSnoc(s: Sys, r: Row)
    ensures Map(s.ledger + [r], TriggerOf()) == Rows(s) + [r.trigger]
  {
  }

  function IsDrop(): Event -> bool { (ev: Event) => ev.Dropped? }

  function IsCrash(): Event -> bool { (ev: Event) => ev.Crashed? }

  /** Still to come for a trigger: pending, or not yet read. */
  function Open(x: Snapshot, log: string, decode: Decoder, e: Trigger): nat
    requires x.offset <= |log|
  {
    multiset(x.mem.triggers)[e] + if e in Pass(log, x.offset, decode).triggers then 0 else 1
  }

  ghost predicate Bounded(s: Sys, log: string, decode: Decoder, e: Trigger, crashes: nat)
    requires Follows(s.mem, log, decode) && Follows(s.saved, log, decode)
  {
    && Open(s.mem, log, decode, e) <= 1 && Open(s.saved, log, decode, e) <= 1
    && multiset(Rows(s))[e] + Open(s.mem, log, decode, e) <= 1 + crashes
  }

  lemma ReadKeepsOpen(a: Snapshot, text: string, b: Snapshot, ok: bool, log: string, decode: Decoder, e: Trigger)
    requires Follows(a, log, decode) && text <= log && ReadStep(a, text, b, ok, decode)
    ensures Follows(b, log, decode) && Open(b, log, decode, e) == Open(a, log, decode, e)
  {
    hide Follows, Pass, ReadStep;
    OffsetsInside(a, text, b, ok, log, decode);
    var more := ReadExtends(a, text, b, ok, log, decode);
    PassOnce(log, b.offset, decode, e);
    var was := Pass(log, a.offset, decode).triggers;
    assert multiset(was + more) == multiset(was) + multiset(more);
    assert multiset(a.mem.triggers + more) == multiset(a.mem.triggers) + multiset(more);
    assert e in was <==> multiset(was)[e] > 0;
    assert e in was + more <==> multiset(was + more)[e] > 0;
  }

  lemma OffsetsInside(a: Snapshot, text: string, b: Snapshot, ok: bool, log: string, decode: Decoder)
    requires text <= log && ReadStep(a, text, b, ok, decode)
    ensures a.offset <= b.offset <= |log|
  {
  }

  lemma {:induction false} FollowsAlways(evs: seq<Event>, log: string, decode: Decoder)
    requires Run(FRESH, evs, log, decode)
    ensures Follows(After(FRESH, evs).mem, log, decode) && Follows(After(FRESH, evs).saved, log, decode)
  {
    hide Follows, Run, ReadStep;
    if evs == [] {
      FreshFollows(log, decode);
    } else {
      var n := |evs| - 1;
      RunFront(FRESH, evs, log, decode);
      FollowsAlways(evs[..n], log, decode);
      var s, ev := After(FRESH, evs[..n]), evs[n];
      if ev.Read? {
        var more := ReadExtends(s.mem, ev.text, ev.to, ev.ok, log, decode);
      } else if ev.Settled? || ev.Dropped? {
        PopFollows(s.mem, ev.trigger, log, decode);
      }
    }
  }

  lemma FreshFollows(log: string, decode: Decoder)
    ensures Follows(Snapshot(0, START), log, decode) && Pass(log, 0, decode) == START
  {
    assert log[..0] == log[0..0];
    NothingRead(log, 0, START, decode);
  }

  lemma PopFollows(x: Snapshot, e: Trigger, log: string, decode: Decoder)
    requires Follows(x, log, decode)
    ensures Follows(Pop(x, e), log, decode)
  {
  }

  lemma FollowsInside(x: Snapshot, log: string, decode: Decoder)
    requires Follows(x, log, decode)
    ensures x.offset <= |log| && Boundary(log, x.offset)
  {
  }

  /** A trigger is settled at most once more often than the process crashed. */
  lemma {:induction false} SettledAtMost(evs: seq<Event>, log: string, decode: Decoder, e: Trigger)
    requires Run(FRESH, evs, log, decode)
    ensures var s := After(FRESH, evs);
      Follows(s.mem, log, decode) && Follows(s.saved, log, decode) &&
      Bounded(s, log, decode, e, |Filter(evs, IsCrash())|)
  {
    hide Run, ReadStep, Pass, Follows;
    FollowsAlways(evs, log, decode);
    if evs == [] {
      FreshFollows(log, decode);
    } else {
      var n := |evs| - 1;
      RunFront(FRESH, evs, log, decode);
      SettledAtMost(evs[..n], log, decode, e);
      BoundedStep(After(FRESH, evs[..n]), evs[n], log, decode, e, |Filter(evs[..n], IsCrash())|);
    }
  }

  lemma BoundedStep(s: Sys, ev: Event, log: string, decode: Decoder, e: Trigger, crashes: nat)
    requires Follows(s.mem, log, decode) && Follows(s.saved, log, decode) && Allowed(s, ev, log, decode)
    requires Follows(Apply(s, ev).mem, log, decode) && Follows(Apply(s, ev).saved, log, decode)
    requires Bounded(s, log, decode, e, crashes)
    ensures Bounded(Apply(s, ev), log, decode, e, crashes + if ev.Crashed? then 1 else 0)
  {
    hide ReadStep, Pass, Follows;
    match ev
    case Read(text, to, ok) => ReadKeepsOpen(s.mem, text, to, ok, log, decode, e);
    case Settled(x, at) => RowsSnoc(s, Row(x, at));
    case _ =>
  }

  /** The triggers that failed to be written since the state last read from or written to the state file, in memory and in
      the file: a drop is forgotten with a crash and kept with a save. */
  datatype Drops = Drops(mem: set<Trigger>, saved: set<Trigger>)

  function DropsOf(evs: seq<Event>): Drops {
    if evs == [] then Drops({}, {})
    else
      var d := DropsOf(evs[..|evs| - 1]);
      match evs[|evs| - 1]
      case Dropped(e, at) => d.(mem := d.mem + {e})
      case Saved => d.(saved := d.mem)
      case Crashed => d.(mem := d.saved)
      case _ => d
  }

  /** A trigger consumed up to a snapshot's offset that is neither in the ledger nor pending there. */
  ghost predicate Lost(x: Snapshot, rows: seq<Trigger>, log: string, decode: Decoder, e: Trigger)
    requires x.offset <= |log|
  {
    e in Pass(log, x.offset, decode).triggers && e !in rows && e !in x.mem.triggers
  }

  /** The drops behind a snapshot are consumed and not pending; everything else consumed is in the ledger or pending. */
  ghost predicate Exact(x: Snapshot, drops: set<Trigger>, rows: seq<Trigger>, log: string, decode: Decoder) {
    && x.offset <= |log|
    && (forall e :: Open(x, log, decode, e) <= 1)
    && (forall e :: e in drops ==> e in Pass(log, x.offset, decode).triggers && e !in x.mem.triggers)
    && forall e :: e in Pass(log, x.offset, decode).triggers && e !in drops ==> e in rows || e in x.mem.triggers
  }

  lemma ExactRead(a: Snapshot, text: string, b: Snapshot, ok: bool, drops: set<Trigger>, rows: seq<Trigger>, log: string,
                  decode: Decoder)
    requires Follows(a, log, decode) && text <= log && ReadStep(a, text, b, ok, decode)
    requires Exact(a, drops, rows, log, decode)
    ensures Exact(b, drops, rows, log, decode)
  {
    hide ReadStep, Pass, Follows;
    OffsetsInside(a, text, b, ok, log, decode);
    var more := ReadExtends(a, text, b, ok, log, decode);
    forall e ensures Open(b, log, decode, e) <= 1 {
      ReadKeepsOpen(a, text, b, ok, log, decode, e);
    }
    var was := Pass(log, a.offset, decode).triggers;
    forall e | e in drops ensures e !in more {
      PassOnce(log, b.offset, decode, e);
      assert multiset(was + more) == multiset(was) + multiset(more);
      assert multiset(was)[e] > 0;
    }
  }

  lemma ExactSettled(x: Snapshot, e: Trigger, drops: set<Trigger>, rows: seq<Trigger>, log: string, decode: Decoder)
    requires Exact(x, drops, rows, log, decode) && e in x.mem.triggers
    ensures Exact(Pop(x, e), drops, rows + [e], log, decode)
  {
    hide Pass, RemoveFirst;
    RemovedMembers(x.mem.triggers, e);
    forall y ensures Open(Pop(x, e), log, decode, y) <= 1 {
      assert Open(x, log, decode, y) <= 1;
    }
  }

  lemma ExactDropped(x: Snapshot, e: Trigger, drops: set<Trigger>, rows: seq<Trigger>, log: string, decode: Decoder)
    requires Exact(x, drops, rows, log, decode) && e in x.mem.triggers
    ensures Exact(Pop(x, e), drops + {e}, rows, log, decode)
  {
    hide Pass, RemoveFirst;
    RemovedMembers(x.mem.triggers, e);
    forall y ensures Open(Pop(x, e), log, decode, y) <= 1 {
      assert Open(x, log, decode, y) <= 1;
    }
    assert multiset(x.mem.triggers)[e] > 0;
    assert Open(x, log, decode, e) <= 1;
    var left := RemoveFirst(x.mem.triggers, e);
    assert multiset(left) == multiset(x.mem.triggers) - multiset{e};
    assert e !in multiset(left);
  }

  lemma RemovedMembers(s: seq<Trigger>, e: Trigger)
    ensures forall x :: x in s && x != e ==> x in RemoveFirst(s, e)
    ensures forall x :: x in RemoveFirst(s, e) ==> x in s
    ensures forall x :: multiset(RemoveFirst(s, e))[x] <= multiset(s)[x]
  {
    hide RemoveFirst;
    var r := RemoveFirst(s, e);
    forall x ensures (x in s && x != e ==> x in r) && (x in r ==> x in s) {
      assert x in s <==> x in multiset(s);
      assert x in r <==> x in multiset(r);
    }
  }

  lemma MoreRows(x: Snapshot, drops: set<Trigger>, rows: seq<Trigger>, e: Trigger, log: string, decode: Decoder)
    requires Exact(x, drops, rows, log, decode)
    ensures Exact(x, drops, rows + [e], log, decode)
  {
    hide Pass, Open;
  }

  lemma ExactStep(s: Sys, ev: Event, d: Drops, next: Drops, log: string, decode: Decoder)
    requires Follows(s.mem, log, decode) && Allowed(s, ev, log, decode)
    requires Exact(s.mem, d.mem, Rows(s), log, decode) && Exact(s.saved, d.saved, Rows(s), log, decode)
    requires match ev
             case Dropped(e, at) => next == d.(mem := d.mem + {e})
             case Saved => next == d.(saved := d.mem)
             case Crashed => next == d.(mem := d.saved)
             case _ => next == d
    ensures var t := Apply(s, ev);
      Exact(t.mem, next.mem, Rows(t), log, decode) && Exact(t.saved, next.saved, Rows(t), log, decode)
  {
    hide ReadStep, Follows, Exact, Pop;
    match ev
    case Read(text, to, ok) => ExactRead(s.mem, text, to, ok, d.mem, Rows(s), log, decode);
    case Settled(e, at) =>
      RowsSnoc(s, Row(e, at));
      ExactSettled(s.mem, e, d.mem, Rows(s), log, decode);
      MoreRows(s.saved, d.saved, Rows(s), e, log, decode);
    case Dropped(e, at) => ExactDropped(s.mem, e, d.mem, Rows(s), log, decode);
    case _ =>
  }

  lemma FreshExact(log: string, decode: Decoder)
    ensures Exact(Snapshot(0, START), {}, [], log, decode)
  {
    FreshFollows(log, decode);
  }

  lemma {:induction false} ExactAlways(evs: seq<Event>, log: string, decode: Decoder)
    requires Run(FRESH, evs, log, decode)
    ensures var s, d := After(FRESH, evs), DropsOf(evs);
      Exact(s.mem, d.mem, Rows(s), log, decode) && Exact(s.saved, d.saved, Rows(s), log, decode)
  {
    hide Run, ReadStep, Exact, Follows;
    if evs == [] {
      FreshExact(log, decode);
      assert Rows(FRESH) == [];
    } else {
      var n := |evs| - 1;
      RunFront(FRESH, evs, log, decode);
      ExactAlways(evs[..n], log, decode);
      FollowsAlways(evs[..n], log, decode);
      ExactStep(After(FRESH, evs[..n]), evs[n], DropsOf(evs[..n]), DropsOf(evs), log, decode);
    }
  }

  lemma ExactLost(x: Snapshot, drops: set<Trigger>, rows: seq<Trigger>, log: string, decode: Decoder, e: Trigger)
    requires Exact(x, drops, rows, log, decode)
    ensures Lost(x, rows, log, decode, e) <==> e in drops && e !in rows
  {
    hide Pass, Open;
  }

  /** Over all runs, with any crashes and any failing writes, a trigger is lost exactly when its ledger line failed to be
      written, that drop was not forgotten by a crash before the next save, and no other line has the trigger. In the state
      file the same holds of the drops saved there. */
  lemma LostExactly(evs: seq<Event>, log: string, decode: Decoder, e: Trigger)
    requires Run(FRESH, evs, log, decode)
    ensures var s := After(FRESH, evs); s.mem.offset <= |log| && s.saved.offset <= |log|
    ensures Lost(After(FRESH, evs).mem, Rows(After(FRESH, evs)), log, decode, e) <==>
            e in DropsOf(evs).mem && e !in Rows(After(FRESH, evs))
    ensures Lost(After(FRESH, evs).saved, Rows(After(FRESH, evs)), log, decode, e) <==>
            e in DropsOf(evs).saved && e !in Rows(After(FRESH, evs))
  {
    hide Run, Lost;
    var s, d := After(FRESH, evs), DropsOf(evs);
    ExactAlways(evs, log, decode);
    ExactLost(s.mem, d.mem, Rows(s), log, decode, e);
    ExactLost(s.saved, d.saved, Rows(s), log, decode, e);
  }

  lemma {:induction false} NothingDropped(evs: seq<Event>)
    requires Filter(evs, IsDrop()) == []
    ensures DropsOf(evs) == Drops({}, {})
  {
    if evs != [] {
      NothingDropped(evs[..|evs| - 1]);
    }
  }

  /** So nothing is lost in any run, with any crashes, in which no ledger line failed to be written. */
  lemma NoTriggerLost(evs: seq<Event>, log: string, decode: Decoder, e: Trigger)
    requires Run(FRESH, evs, log, decode) && Filter(evs, IsDrop()) == []
    ensures var s := After(FRESH, evs); s.mem.offset <= |log| && s.saved.offset <= |log|
    ensures !Lost(After(FRESH, evs).mem, Rows(After(FRESH, evs)), log, decode, e)
    ensures !Lost(After(FRESH, evs).saved, Rows(After(FRESH, evs)), log, decode, e)
  {
    hide Run, Lost;
    NothingDropped(evs);
    LostExactly(evs, log, decode, e);
  }

  /** The ledger line is not early, and its trigger is one of a pass over the lines of the log. */
  ghost predicate Earned(r: Row, log: string, decode: Decoder) {
    r.at >= r.trigger.tSeen + SETTLE && exists o: nat :: o <= |log| && r.trigger in Pass(log, o, decode).triggers
  }

  lemma PendingIsRead(x: Snapshot, drops: set<Trigger>, rows: seq<Trigger>, log: string, decode: Decoder, e: Trigger)
    requires Exact(x, drops, rows, log, decode) && e in x.mem.triggers
    ensures x.offset <= |log| && e in Pass(log, x.offset, decode).triggers
  {
    hide Pass;
    assert Open(x, log, decode, e) <= 1;
    assert multiset(x.mem.triggers)[e] > 0;
  }

  /** No ledger line is early, and every one is of a trigger of the log. */
  lemma {:induction false} NeverEarly(evs: seq<Event>, log: string, decode: Decoder)
    requires Run(FRESH, evs, log, decode)
    ensures forall r :: r in After(FRESH, evs).ledger ==> Earned(r, log, decode)
  {
    hide Run, ReadStep, Exact, Pass;
    if evs != [] {
      var n := |evs| - 1;
      RunFront(FRESH, evs, log, decode);
      NeverEarly(evs[..n], log, decode);
      ExactAlways(evs[..n], log, decode);
      var s, ev := After(FRESH, evs[..n]), evs[n];
      if ev.Settled? {
        PendingIsRead(s.mem, DropsOf(evs[..n]).mem, Rows(s), log, decode, ev.trigger);
        assert Earned(Row(ev.trigger, ev.at), log, decode);
      }
    }
  }

  ghost predicate Balanced(s: Sys, lost: seq<Trigger>, log: string, decode: Decoder)
    requires Follows(s.mem, log, decode)
  {
    multiset(Rows(s)) + multiset(s.mem.mem.triggers) + multiset(lost) ==
    multiset(Pass(log, s.mem.offset, decode).triggers)
  }

  lemma BalancedStep(s: Sys, ev: Event, lost: seq<Trigger>, log: string, decode: Decoder)
    requires Follows(s.mem, log, decode) && Allowed(s, ev, log, decode) && !ev.Crashed?
    requires Follows(Apply(s, ev).mem, log, decode) && Balanced(s, lost, log, decode)
    ensures Balanced(Apply(s, ev), lost + if ev.Dropped? then [ev.trigger] else [], log, decode)
  {
    hide ReadStep, Pass, Follows, Balanced;
    assert lost + [] == lost;
    match ev
    case Read(text, to, ok) => ReadBalanced(s, text, to, ok, lost, log, decode);
    case Settled(e, at) => SettledBalanced(s, e, at, lost, log, decode);
    case Dropped(e, at) => DroppedBalanced(s, e, at, lost, log, decode);
    case _ => SaveBalanced(s, lost, log, decode);
  }

  lemma SaveBalanced(s: Sys, lost: seq<Trigger>, log: string, decode: Decoder)
    requires Follows(s.mem, log, decode) && Balanced(s, lost, log, decode)
    ensures Balanced(s.(saved := s.mem), lost, log, decode)
  {
  }

  lemma SettledBalanced(s: Sys, e: Trigger, at: int, lost: seq<Trigger>, log: string, decode: Decoder)
    requires Follows(s.mem, log, decode) && Follows(Pop(s.mem, e), log, decode) && e in s.mem.mem.triggers
    requires Balanced(s, lost, log, decode)
    ensures Balanced(Apply(s, Settled(e, at)), lost, log, decode)
  {
    hide Pass, Follows;
    RowsSnoc(s, Row(e, at));
    var pending := s.mem.mem.triggers;
    assert multiset(RemoveFirst(pending, e)) == multiset(pending) - multiset{e};
    assert multiset(Rows(s) + [e]) == multiset(Rows(s)) + multiset{e};
  }

  lemma DroppedBalanced(s: Sys, e: Trigger, at: int, lost: seq<Trigger>, log: string, decode: Decoder)
    requires Follows(s.mem, log, decode) && Follows(Pop(s.mem, e), log, decode) && e in s.mem.mem.triggers
    requires Balanced(s, lost, log, decode)
    ensures Balanced(Apply(s, Dropped(e, at)), lost + [e], log, decode)
  {
    hide Pass, Follows;
    var pending := s.mem.mem.triggers;
    assert multiset(RemoveFirst(pending, e)) == multiset(pending) - multiset{e};
    assert multiset(lost + [e]) == multiset(lost) + multiset{e};
  }

  lemma ReadBalanced(s: Sys, text: string, to: Snapshot, ok: bool, lost: seq<Trigger>, log: string, decode: Decoder)
    requires Follows(s.mem, log, decode) && text <= log && ReadStep(s.mem, text, to, ok, decode)
    requires Follows(to, log, decode) && Balanced(s, lost, log, decode)
    ensures Balanced(s.(mem := to), lost, log, decode)
  {
    hide ReadStep, Pass, Follows;
    OffsetsInside(s.mem, text, to, ok, log, decode);
    var more := ReadExtends(s.mem, text, to, ok, log, decode);
    var was := Pass(log, s.mem.offset, decode).triggers;
    assert multiset(was + more) == multiset(was) + multiset(more);
    assert multiset(s.mem.mem.triggers + more) == multiset(s.mem.mem.triggers) + multiset(more);
  }

  /** Without a crash, the ledger, what is pending and what was dropped are together the triggers of one pass. */
  lemma {:induction false} Accounted(evs: seq<Event>, log: string, decode: Decoder)
    requires Run(FRESH, evs, log, decode) && Filter(evs, IsCrash()) == []
    ensures var s := After(FRESH, evs);
      Follows(s.mem, log, decode) && Balanced(s, Map(Filter(evs, IsDrop()), DroppedTrigger()), log, decode)
  {
    hide Run, ReadStep, Pass, Follows, Balanced;
    FollowsAlways(evs, log, decode);
    if evs == [] {
      FreshBalanced(log, decode);
    } else {
      var n := |evs| - 1;
      RunFront(FRESH, evs, log, decode);
      Accounted(evs[..n], log, decode);
      var drops, ev := Filter(evs[..n], IsDrop()), evs[n];
      var lost := Map(drops, DroppedTrigger());
      BalancedStep(After(FRESH, evs[..n]), ev, lost, log, decode);
      assert drops + [] == drops && lost + [] == lost;
      assert ev.Dropped? ==> Map(drops + [ev], DroppedTrigger()) == lost + [ev.trigger];
    }
  }

  lemma FreshBalanced(log: string, decode: Decoder)
    ensures Follows(FRESH.mem, log, decode) && Balanced(FRESH, Map(Filter([], IsDrop()), DroppedTrigger()), log, decode)
  {
    FreshFollows(log, decode);
  }

  function DroppedTrigger(): Event -> Trigger {
    (ev: Event) => if ev.Settled? || ev.Dropped? then ev.trigger else Trigger("", "", 0)
  }

  /** Without a crash, every trigger read is settled exactly once or still pending, exactly when no ledger line failed
      to be written. */
  lemma ExactlyOnce(evs: seq<Event>, log: string, decode: Decoder)
    requires Run(FRESH, evs, log, decode) && Filter(evs, IsCrash()) == []
    ensures var s := After(FRESH, evs);
      Follows(s.mem, log, decode) &&
      (Filter(evs, IsDrop()) == [] <==>
        multiset(Rows(s)) + multiset(s.mem.mem.triggers) == multiset(Pass(log, s.mem.offset, decode).triggers))
    ensures forall e :: multiset(Rows(After(FRESH, evs)))[e] <= 1
  {
    hide Run, ReadStep, Pass, Follows, Filter;
    Accounted(evs, log, decode);
    var s := After(FRESH, evs);
    var lost := Map(Filter(evs, IsDrop()), DroppedTrigger());
    FollowsInside(s.mem, log, decode);
    NoneLeft(Rows(s), s.mem.mem.triggers, lost, Pass(log, s.mem.offset, decode).triggers);
    forall e ensures multiset(Rows(s))[e] <= 1 {
      PassOnce(log, s.mem.offset, decode, e);
    }
  }

  lemma NoneLeft(a: seq<Trigger>, b: seq<Trigger>, lost: seq<Trigger>, all: seq<Trigger>)
    requires multiset(a) + multiset(b) + multiset(lost) == multiset(all)
    ensures lost == [] <==> multiset(a) + multiset(b) == multiset(all)
    ensures forall e :: multiset(a)[e] <= multiset(all)[e]
  {
    if lost != [] {
      var e := lost[0];
      assert e in lost;
      assert multiset(lost)[e] > 0;
      assert (multiset(a) + multiset(b))[e] < multiset(all)[e];
    }
  }

  // ---------------------------------------------------------------- the one way to lose a trigger

  function TwoLines(line: string): Option<Record> {
    if line == "B\n" then Some(Record(true, 0, [], []))
    else if line == "A\n" then Some(Record(false, 0, [], ["K-X"]))
    else None
  }

  /** A ledger line that fails to be written loses its trigger once the state is saved: here the whole log is read,
      and the one trigger is neither in the ledger nor pending, in memory or in the state file. */
  lemma LostTrigger()
    ensures var log, e := "B\nA\n", Trigger("K-X", "X", 0);
      exists evs :: Run(FRESH, evs, log, TwoLines) && e in Pass(log, 4, TwoLines).triggers &&
        After(FRESH, evs) == Sys(Snapshot(4, Mem({"K-X"}, map["X" := 0], [])),
                                 Snapshot(4, Mem({"K-X"}, map["X" := 0], [])), [])
  {
    var log, e := "B\nA\n", Trigger("K-X", "X", 0);
    TwoLinesRead();
    var to := Snapshot(4, FeedAll(START, Lines(log), TwoLines));
    var read, drop := Read(log, to, true), Dropped(e, SETTLE);
    assert log[0..4] == log && log[4..] == "" && log[..4] == log;
    NoEvents(FRESH, log, TwoLines);
    RunSnoc(FRESH, [], read, log, TwoLines);
    RunSnoc(FRESH, [] + [read], drop, log, TwoLines);
    RunSnoc(FRESH, [] + [read] + [drop], Saved, log, TwoLines);
    assert RemoveFirst([e], e) == [];
  }

  lemma TwoLinesRead()
    ensures Lines("B\nA\n") == ["B\n", "A\n"] && Lines("") == []
    ensures FeedAll(START, ["B\n", "A\n"], TwoLines) ==
            Mem({"K-X"}, map["X" := 0], [Trigger("K-X", "X", 0)])
  {
    var text := "B\nA\n";
    LineEndUnique(text, 0, 2);
    LinesStep(text, 2);
    assert text[..2] == "B\n" && text[2..] == "A\n";
    LineEndUnique("A\n", 0, 2);
    LinesStep("A\n", 2);
    assert "A\n"[..2] == "A\n" && "A\n"[2..] == "";
    NoLines();
    var ls := ["B\n", "A\n"];
    assert ls[..1] == ["B\n"] && ls[..1][..0] == [];
    KrwX();
    assert FeedAll(START, ls[..1], TwoLines) == START;
    assert ["K-X"][..0] == [];
    assert AddAll(START, ["K-X"], 0) == AddMarket(START, "K-X", 0);
  }

  lemma KrwX()
    ensures CoinOf("K-X") == Some("X")
  {
    assert "K-X"[1..] == "-X" && "-X"[1..] == "X";
  }
}
