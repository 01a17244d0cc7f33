/** The request limiter shared by the collector's workers (research/hl_liqmap/collector.py:44, 135-154). Times are
    seconds of the monotonic clock. A wait reserves its slot before it sleeps, so concurrent waits are a sequence. */
module RateLimiter {
  import opened Lists

  const PENALTY_S: real := 600.0
  const HOLD_OFF: real := 30.0

  type Positive = r: real | r > 0.0 witness 1.0

  /** The fields that change. */
  datatype Sys = Sys(until: real, next: real)

  /** The clock is read twice in both methods. */
  datatype Event = Wait(now: real, rateAt: real) | Penalty(now: real, holdAt: real)

  function Rate(s: Sys, base: Positive, at: real): (r: real)
    ensures r > 0.0
  {
    if at < s.until then base / 2.0 else base
  }

  /** The slot a wait gets. */
  function Slot(s: Sys, now: real): real { MaxReal(s.next, now) }

  function Apply(s: Sys, base: Positive, ev: Event): Sys {
    match ev
    case Wait(now, rateAt) => s.(next := Slot(s, now) + 60.0 / Rate(s, base, rateAt))
    case Penalty(now, holdAt) => Sys(now + PENALTY_S, MaxReal(s.next, holdAt + HOLD_OFF))
  }

  class Limiter {
    const base: Positive
    var until: real
    var next: real

    ghost function Now(): Sys
      reads this
    {
      Sys(until, next)
    }

    constructor (perMin: Positive, clock: real)
      ensures base == perMin && Now() == Sys(0.0, clock)
    {
      base, until, next := perMin, 0.0, clock;
    }

    method Penalize(now: real, holdAt: real)
      modifies this
      ensures Now() == Apply(old(Now()), base, Penalty(now, holdAt))
    {
      until := now + PENALTY_S;
      next := MaxReal(next, holdAt + HOLD_OFF);
    }

    /** The caller sleeps for the returned time: until its slot, and not at all when the slot is now. */
    method Reserve(now: real, rateAt: real) returns (delay: real)
      modifies this
      ensures Now() == Apply(old(Now()), base, Wait(now, rateAt))
      ensures delay >= 0.0 && now + delay == Slot(old(Now()), now)
    {
      next := MaxReal(next, now);
      delay := next - now;
      var rate := if rateAt < until then base / 2.0 else base;
      next := next + 60.0 / rate;
    }
  }

  // ---------------------------------------------------------------- runs

  function After(s: Sys, base: Positive, evs: seq<Event>): Sys {
    if evs == [] then s else Apply(After(s, base, evs[..|evs| - 1]), base, evs[|evs| - 1])
  }

  /** The slots reserved in a run, or only those reserved under a penalty. */
  function Slots(s: Sys, base: Positive, evs: seq<Event>, penalized: bool): seq<real> {
    if evs == [] then []
    else
      var front, ev := evs[..|evs| - 1], evs[|evs| - 1];
      var before := After(s, base, front);
      Slots(s, base, front, penalized) +
      if ev.Wait? && (penalized ==> ev.rateAt < before.until) then [Slot(before, ev.now)] else []
  }

  predicate Spaced(slots: seq<real>, gap: real) {
    forall i, j :: 0 <= i < j < |slots| ==> slots[i] + gap <= slots[j]
  }

  function Gap(base: Positive, penalized: bool): (g: real)
    ensures g > 0.0
  {
    if penalized then 120.0 / base else 60.0 / base
  }

  /** Slots are a base interval apart, and those of a penalty two. */
  lemma {:induction false} SlotsSpaced(s: Sys, base: Positive, evs: seq<Event>, penalized: bool)
    ensures Spaced(Slots(s, base, evs, penalized), Gap(base, penalized))
    ensures forall x :: x in Slots(s, base, evs, penalized) ==> x + Gap(base, penalized) <= After(s, base, evs).next
  {
    if evs != [] {
      var front, ev := evs[..|evs| - 1], evs[|evs| - 1];
      SlotsSpaced(s, base, front, penalized);
      HalfRate(base);
      var slots := Slots(s, base, front, penalized);
      assert forall i :: 0 <= i < |slots| ==> slots[i] in slots;
    }
  }

  lemma HalfRate(base: Positive)
    ensures 60.0 / (base / 2.0) == 120.0 / base > 60.0 / base > 0.0
  {
    var half := base / 2.0;
    assert 60.0 / half * half == 60.0;
    assert 120.0 / base * half == 60.0;
  }

  lemma {:induction false} SpacedSpan(slots: seq<real>, gap: real)
    requires Spaced(slots, gap) && slots != []
    ensures slots[0] + Times((|slots| - 1) as real, gap) <= slots[|slots| - 1]
  {
    var n := |slots| - 1;
    if n > 0 {
      SpacedSpan(slots[..n], gap);
      TimesNext((n - 1) as real, gap);
      assert slots[n - 1] + gap <= slots[n];
    }
  }

  lemma {:induction false} FilterSpaced(slots: seq<real>, gap: real, f: real -> bool)
    requires Spaced(slots, gap)
    ensures Spaced(Filter(slots, f), gap)
  {
    if slots != [] {
      var n := |slots| - 1;
      var kept := Filter(slots[..n], f);
      FilterSpaced(slots[..n], gap, f);
      FilterMembers(slots[..n], f);
      forall i | 0 <= i < |kept| ensures kept[i] + gap <= slots[n] {
        assert kept[i] in slots[..n];
      }
    }
  }

  function Inside(from: real, width: real): real -> bool { (x: real) => from <= x <= from + width }

  /** In any window of a width there are at most floor(width * base / 60) + 1 slots, and half as many, plus one, that
      were reserved under a penalty. */
  lemma WindowBound(s: Sys, base: Positive, evs: seq<Event>, penalized: bool, from: real, width: real)
    requires width >= 0.0
    ensures |Filter(Slots(s, base, evs, penalized), Inside(from, width))| <=
            (Times(width, base) / if penalized then 120.0 else 60.0).Floor + 1
  {
    hide Slots, Filter;
    var gap := Gap(base, penalized);
    var slots := Slots(s, base, evs, penalized);
    SlotsSpaced(s, base, evs, penalized);
    FilterSpaced(slots, gap, Inside(from, width));
    FilterMembers(slots, Inside(from, width));
    var kept := Filter(slots, Inside(from, width));
    var unit := if penalized then 120.0 else 60.0;
    assert Times(width, base) >= 0.0;
    if kept != [] {
      SpacedSpan(kept, gap);
      assert kept[0] in kept && kept[|kept| - 1] in kept;
      AtMostIntervals(|kept| - 1, width, base, unit);
    }
  }

  lemma AtMostIntervals(n: nat, width: real, base: Positive, unit: real)
    requires Times(n as real, unit / base) <= width && unit > 0.0
    ensures n <= (Times(width, base) / unit).Floor
  {
    var x := n as real;
    assert x * (unit / base) * base <= width * base;
    assert x * (unit / base) * base == x * unit by {
      assert unit / base * base == unit;
    }
    assert x <= Times(width, base) / unit;
  }

  /** Waits that pile up get the full rate and no less: their slots follow each other by exactly the interval. */
  lemma {:induction false} Saturated(s: Sys, base: Positive, evs: seq<Event>, penalized: bool)
    requires forall ev :: ev in evs ==> ev.Wait? && ev.now <= s.next && (ev.rateAt < s.until <==> penalized)
    ensures var slots, gap := Slots(s, base, evs, false), if penalized then 120.0 / base else 60.0 / base;
      && |slots| == |evs| && (forall i :: 0 <= i < |evs| ==> slots[i] == s.next + Times(i as real, gap))
      && After(s, base, evs) == Sys(s.until, s.next + Times(|evs| as real, gap))
  {
    var gap := if penalized then 120.0 / base else 60.0 / base;
    HalfRate(base);
    if evs != [] {
      hide Times;
      var n := |evs| - 1;
      var before := After(s, base, evs[..n]);
      Saturated(s, base, evs[..n], penalized);
      assert evs[n] in evs;
      TimesNext(n as real, gap);
      NotBack(n, gap);
      assert Slot(before, evs[n].now) == before.next;
    } else {
      NotBack(0, gap);
    }
  }

  lemma NotBack(n: nat, gap: real)
    requires gap >= 0.0
    ensures Times(n as real, gap) >= 0.0 && Times(0.0, gap) == 0.0
  {
  }

  // ---------------------------------------------------------------- after a penalty

  lemma {:induction false} NextGrows(s: Sys, base: Positive, evs: seq<Event>)
    ensures After(s, base, evs).next >= s.next
  {
    if evs != [] {
      NextGrows(s, base, evs[..|evs| - 1]);
    }
  }

  /** Every slot reserved after a penalty lies at least 30 seconds behind it. */
  lemma {:induction false} HeldOff(s: Sys, base: Positive, now: real, holdAt: real, evs: seq<Event>)
    ensures forall x :: x in Slots(Apply(s, base, Penalty(now, holdAt)), base, evs, false) ==> x >= holdAt + HOLD_OFF
  {
    if evs != [] {
      var p := Apply(s, base, Penalty(now, holdAt));
      HeldOff(s, base, now, holdAt, evs[..|evs| - 1]);
      NextGrows(p, base, evs[..|evs| - 1]);
    }
  }

  /** The clock does not run backwards from the penalty on. */
  predicate ClockFrom(now: real, evs: seq<Event>) {
    && (forall i :: 0 <= i < |evs| ==> now <= evs[i].now)
    && forall i, j :: 0 <= i < j < |evs| ==> evs[i].now <= evs[j].now
  }

  lemma {:induction false} PenaltyLasts(s: Sys, base: Positive, now: real, holdAt: real, evs: seq<Event>)
    requires ClockFrom(now, evs)
    ensures After(Apply(s, base, Penalty(now, holdAt)), base, evs).until >= now + PENALTY_S
  {
    if evs != [] {
      PenaltyLasts(s, base, now, holdAt, evs[..|evs| - 1]);
    }
  }

  /** Within ten minutes of a penalty every slot is one reserved under a penalty. */
  lemma {:induction false} SlowAfterPenalty(s: Sys, base: Positive, now: real, holdAt: real, evs: seq<Event>)
    requires ClockFrom(now, evs)
    requires forall ev :: ev in evs && ev.Wait? ==> ev.rateAt < now + PENALTY_S
    ensures var p := Apply(s, base, Penalty(now, holdAt)); Slots(p, base, evs, false) == Slots(p, base, evs, true)
  {
    if evs != [] {
      var n := |evs| - 1;
      assert evs == evs[..n] + [evs[n]];
      SlowAfterPenalty(s, base, now, holdAt, evs[..n]);
      PenaltyLasts(s, base, now, holdAt, evs[..n]);
      assert evs[n] in evs;
    }
  }

  /** So within ten minutes of a penalty the doubled spacing bounds all slots of any window. */
  lemma PenaltyBound(s: Sys, base: Positive, now: real, holdAt: real, evs: seq<Event>, from: real, width: real)
    requires width >= 0.0 && ClockFrom(now, evs)
    requires forall ev :: ev in evs && ev.Wait? ==> ev.rateAt < now + PENALTY_S
    ensures var p := Apply(s, base, Penalty(now, holdAt));
      |Filter(Slots(p, base, evs, false), Inside(from, width))| <= (Times(width, base) / 120.0).Floor + 1
  {
    hide Slots, Filter;
    SlowAfterPenalty(s, base, now, holdAt, evs);
    WindowBound(Apply(s, base, Penalty(now, holdAt)), base, evs, true, from, width);
  }
}
