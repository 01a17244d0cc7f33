/** audit_funding_payments: the loops that fill the indexes and bump the counters
    (scripts/funding_payment_audit.py:48-346). */
module FundingAudit {
  import opened Lists
  import opened FundingModel

  method PerpetualLegs(payload: Payload) returns (legs: Legs, errors: nat)
    ensures LegScan(legs, errors) == ScanLegs([payload.legA, payload.legB])
  {
    legs, errors := map[], 0;
    var entries := [payload.legA, payload.legB];
    for i := 0 to 2
      invariant LegScan(legs, errors) == ScanLegs(entries[..i])
    {
      assert entries[..i + 1][..i] == entries[..i];
      if entries[i].None? {
        errors := errors + 1;
        continue;
      }
      var leg := entries[i].value;
      if !leg.perpetual {
        continue;
      }
      if leg.exchange.None? || leg.symbol.None? || leg.side.None? {
        errors := errors + 1;
        continue;
      }
      var key := Pair(leg.exchange.value, leg.symbol.value);
      if key in legs && legs[key] != leg.side.value {
        errors := errors + 1;
        continue;
      }
      legs := legs[key := leg.side.value];
    }
    assert entries[..2] == entries;
  }

  // ---------------------------------------------------------------- the three dictionaries over positions

  ghost predicate IndexesPositions(
    ps: seq<Position>, byId: map<string, Position>, legsBy: map<string, Legs>, targets: map<LegId, int>)
  {
    && (forall id :: Lookup(byId, id) == PositionFor(ps, id))
    && (forall id :: (if id in legsBy then legsBy[id] else map[]) == LegsFor(ps, id))
    && (forall leg :: Lookup(targets, leg) == TargetFor(ps, leg))
  }

  lemma NoPositions(a: Audit)
    ensures IndexesPositions([], map[], map[], map[]) && forall c :: Total(a, c, []) == 0
  {
  }

  /** The last row of an id decides what its look-ups find. */
  lemma LastPosition(ps: seq<Position>, p: Position)
    ensures forall id :: PositionFor(ps + [p], id) == if id == p.id then Some(p) else PositionFor(ps, id)
    ensures forall id :: LegsFor(ps + [p], id) == if id == p.id then LegsOf(p) else LegsFor(ps, id)
  {
    assert (ps + [p])[..|ps|] == ps;
  }

  lemma PayloadTally(a: Audit, p: Position)
    ensures Tally(a, PayloadValid, p) ==
            ScanLegs([PayloadOf(p).legA, PayloadOf(p).legB]).errors
            + (if p.payload.None? then 1 else 0) + (if p.openedAt.None? then 1 else 0)
    ensures LegsOf(p) == ScanLegs([PayloadOf(p).legA, PayloadOf(p).legB]).legs
  {
  }

  method IndexPositions(a: Audit)
    returns (byId: map<string, Position>, legsBy: map<string, Legs>, targets: map<LegId, int>,
             payloadErrors: nat, missing: nat, notAfterOpen: nat)
    ensures IndexesPositions(a.positions, byId, legsBy, targets)
    ensures payloadErrors == Total(a, PayloadValid, a.positions)
    ensures missing == Total(a, TargetPresent, a.positions)
    ensures notAfterOpen == Total(a, TargetAfterOpen, a.positions)
  {
    hide Total, Tally, PositionFor, LegsFor, TargetFor, Scan, PayloadOf;
    byId, legsBy, targets := map[], map[], map[];
    payloadErrors, missing, notAfterOpen := 0, 0, 0;
    assert a.positions[..0] == [];
    NoPositions(a);
    for i := 0 to |a.positions|
      invariant IndexesPositions(a.positions[..i], byId, legsBy, targets)
      invariant payloadErrors == Total(a, PayloadValid, a.positions[..i])
      invariant missing == Total(a, TargetPresent, a.positions[..i])
      invariant notAfterOpen == Total(a, TargetAfterOpen, a.positions[..i])
    {
      assert a.positions[..i + 1] == a.positions[..i] + [a.positions[i]];
      var p := a.positions[i];
      LastPosition(a.positions[..i], p);
      TotalsStep(a, a.positions[..i], p);
      PayloadTally(a, p);
      byId := byId[p.id := p];
      var payload := PayloadOf(p);
      var legs, errors := PerpetualLegs(payload);
      legsBy := legsBy[p.id := legs];
      payloadErrors := payloadErrors + errors + if p.payload.Some? then 0 else 1;
      if p.openedAt.None? {
        payloadErrors := payloadErrors + 1;
      }
      var m, n;
      targets, m, n := IndexTargets(a, i, legs, targets);
      missing, notAfterOpen := missing + m, notAfterOpen + n;
    }
    assert a.positions[..|a.positions|] == a.positions;
  }

  /** The target of a leg once these pairs of p have been walked. */
  function TargetAfter(before: seq<Position>, p: Position, done: seq<Pair>, leg: LegId): Option<int> {
    if leg.positionId == p.id && leg.pair in done && TargetOf(p, leg.pair).Some? then TargetOf(p, leg.pair)
    else TargetFor(before, leg)
  }

  ghost predicate TargetsAre(targets: map<LegId, int>, before: seq<Position>, p: Position, done: seq<Pair>) {
    forall leg :: Lookup(targets, leg) == TargetAfter(before, p, done, leg)
  }

  lemma TargetsStep(targets: map<LegId, int>, before: seq<Position>, p: Position, done: seq<Pair>, pair: Pair)
    requires TargetsAre(targets, before, p, done)
    ensures TargetsAre(
      if TargetOf(p, pair).Some? then targets[LegId(p.id, pair) := TargetOf(p, pair).value] else targets,
      before, p, done + [pair])
  {
    var after := if TargetOf(p, pair).Some? then targets[LegId(p.id, pair) := TargetOf(p, pair).value] else targets;
    forall leg ensures Lookup(after, leg) == TargetAfter(before, p, done + [pair], leg) {
      assert Lookup(targets, leg) == TargetAfter(before, p, done, leg);
      assert leg.pair in done + [pair] <==> leg.pair in done || leg.pair == pair;
    }
  }

  lemma TargetsDone(targets: map<LegId, int>, ps: seq<Position>, i: nat, done: seq<Pair>)
    requires i < |ps| && TargetsAre(targets, ps[..i], ps[i], done)
    requires forall pair :: pair in done <==> pair in LegsOf(ps[i])
    ensures forall leg :: Lookup(targets, leg) == TargetFor(ps[..i + 1], leg)
  {
    assert ps[..i + 1][..i] == ps[..i];
  }

  /** The inner loop over one position's legs. */
  method IndexTargets(a: Audit, i: nat, legs: Legs, before: map<LegId, int>)
    returns (targets: map<LegId, int>, missing: nat, notAfterOpen: nat)
    requires i < |a.positions| && legs == LegsOf(a.positions[i])
    requires forall leg :: Lookup(before, leg) == TargetFor(a.positions[..i], leg)
    ensures forall leg :: Lookup(targets, leg) == TargetFor(a.positions[..i + 1], leg)
    ensures missing == Tally(a, TargetPresent, a.positions[i])
    ensures notAfterOpen == Tally(a, TargetAfterOpen, a.positions[i])
  {
    var p := a.positions[i];
    targets, missing, notAfterOpen := before, 0, 0;
    var keys := DictKeys(legs);
    for j := 0 to |keys|
      invariant missing == |Filter(keys[..j], LegTest(a, TargetPresent, p))|
      invariant notAfterOpen == |Filter(keys[..j], LegTest(a, TargetAfterOpen, p))|
      invariant TargetsAre(targets, a.positions[..i], p, keys[..j])
    {
      var pair := keys[j];
      assert keys[..j + 1] == keys[..j] + [pair];
      TargetsStep(targets, a.positions[..i], p, keys[..j], pair);
      FilterSnoc(keys[..j], pair, LegTest(a, TargetPresent, p));
      FilterSnoc(keys[..j], pair, LegTest(a, TargetAfterOpen, p));
      var target := Lookup(PayloadOf(p).targets, pair.Name());
      assert pair in keys && target == TargetOf(p, pair);
      if target.None? {
        missing := missing + 1;
        continue;
      }
      targets := targets[LegId(p.id, pair) := target.value];
      if p.openedAt.Some? && target.value <= p.openedAt.value {
        notAfterOpen := notAfterOpen + 1;
      }
    }
    assert keys[..|keys|] == keys;
    TargetsDone(targets, a.positions, i, keys);
    FilterIsKeep(keys, legs.Keys, LegTest(a, TargetPresent, p));
    FilterIsKeep(keys, legs.Keys, LegTest(a, TargetAfterOpen, p));
  }

  // ---------------------------------------------------------------- history and payment indexes

  method IndexHistory(history: seq<Event>) returns (events: map<Pair, seq<Event>>)
    ensures Grouped(events, history, PairKey())
  {
    events := map[];
    for i := 0 to |history|
      invariant Grouped(events, history[..i], PairKey())
    {
      GroupStep(events, history[..i], PairKey(), history[i]);
      assert history[..i + 1] == history[..i] + [history[i]];
      events := Push(events, EventPair(history[i]), history[i]);
    }
    assert history[..|history|] == history;
  }

  /** The Counter of the payments' identities. */
  method CountIdentities(payments: seq<Payment>) returns (counter: map<Identity, nat>)
    ensures counter.Keys == Identities(payments)
    ensures forall id :: id in counter ==> counter[id] == |Filter(payments, Is(IdentityKey(), id))|
  {
    counter := map[];
    for i := 0 to |payments|
      invariant counter.Keys == Identities(payments[..i])
      invariant forall id :: |Filter(payments[..i], Is(IdentityKey(), id))| == if id in counter then counter[id] else 0
    {
      var id := IdentityOf(payments[i]);
      assert payments[..i + 1] == payments[..i] + [payments[i]];
      forall other ensures |Filter(payments[..i + 1], Is(IdentityKey(), other))| ==
                           |Filter(payments[..i], Is(IdentityKey(), other))| + if other == id then 1 else 0 {
        FilterSnoc(payments[..i], payments[i], Is(IdentityKey(), other));
      }
      assert Identities(payments[..i + 1]) == Identities(payments[..i]) + {id};
      counter := counter[id := 1 + if id in counter then counter[id] else 0];
    }
    assert payments[..|payments|] == payments;
  }

  /** The sum of the identities' counts less one. */
  method CountDuplicates(payments: seq<Payment>, counter: map<Identity, nat>) returns (duplicates: int)
    requires counter.Keys == Identities(payments)
    requires forall id :: id in counter ==> counter[id] == |Filter(payments, Is(IdentityKey(), id))|
    ensures duplicates == Duplicates(payments)
  {
    duplicates := 0;
    var keys := DictKeys(counter);
    for i := 0 to |keys|
      invariant duplicates == SumNat(keys[..i], ClassCount(payments, IdentityKey())) - i
    {
      assert keys[..i + 1][..i] == keys[..i] && keys[i] in keys;
      duplicates := duplicates + counter[keys[i]] - 1;
    }
    assert keys[..|keys|] == keys;
    Partition(payments, IdentityKey(), keys);
    AllKept(payments, AnyOf(IdentityKey(), keys));
    KeysSize(keys, counter.Keys);
  }

  lemma KeysSize<T>(keys: seq<T>, s: set<T>)
    requires Distinct(keys) && forall k :: k in keys <==> k in s
    ensures |keys| == |s|
  {
    AllKept(keys, _ => true);
    FilterIsKeep(keys, s, _ => true);
    assert Keep(s, _ => true) == s;
  }

  // ---------------------------------------------------------------- the loop over payments

  function Known(a: Audit): Payment -> bool { (q: Payment) => PositionFor(a.positions, q.positionId).Some? }

  datatype PaymentCounts = PaymentCounts(
    orphans: nat, legs: nat, history: nat, beforeOpen: nat, afterClose: nat, notional: nat, pnl: nat)

  ghost predicate CountsPayments(a: Audit, qs: seq<Payment>, n: PaymentCounts) {
    && n.orphans == PaymentCount(a, Orphan, qs)
    && n.legs == PaymentCount(a, LegMatch, qs)
    && n.history == PaymentCount(a, ExactHistory, qs)
    && n.beforeOpen == PaymentCount(a, BeforeOpen, qs)
    && n.afterClose == PaymentCount(a, AfterClose, qs)
    && n.notional == PaymentCount(a, Notional, qs)
    && n.pnl == PaymentCount(a, PaymentPnl, qs)
  }

  function Add(n: PaymentCounts, m: PaymentCounts): PaymentCounts {
    PaymentCounts(n.orphans + m.orphans, n.legs + m.legs, n.history + m.history, n.beforeOpen + m.beforeOpen,
                  n.afterClose + m.afterClose, n.notional + m.notional, n.pnl + m.pnl)
  }

  /** What one payment adds to the counters. */
  function Ones(a: Audit, q: Payment): PaymentCounts {
    PaymentCounts(
      One(PaymentViolates(a, Orphan, q)), One(PaymentViolates(a, LegMatch, q)), One(PaymentViolates(a, ExactHistory, q)),
      One(PaymentViolates(a, BeforeOpen, q)), One(PaymentViolates(a, AfterClose, q)),
      One(PaymentViolates(a, Notional, q)), One(PaymentViolates(a, PaymentPnl, q)))
  }

  lemma CountsStep(a: Audit, qs: seq<Payment>, q: Payment, n: PaymentCounts)
    requires CountsPayments(a, qs, n)
    ensures CountsPayments(a, qs + [q], Add(n, Ones(a, q)))
  {
    forall c ensures PaymentCount(a, c, qs + [q]) == PaymentCount(a, c, qs) + One(PaymentViolates(a, c, q)) {
      FilterSnoc(qs, q, PaymentTest(a, c));
    }
  }

  /** A payment of a known position joins the lists of its position and of its leg. */
  method IndexPayment(a: Audit, ghost qs: seq<Payment>, q: Payment,
                      byPosition0: map<string, seq<Payment>>, byLeg0: map<LegId, seq<Payment>>, byId: map<string, Position>)
    returns (byPosition: map<string, seq<Payment>>, byLeg: map<LegId, seq<Payment>>)
    requires forall id :: Lookup(byId, id) == PositionFor(a.positions, id)
    requires Grouped(byPosition0, Filter(qs, Known(a)), PositionKey()) && Grouped(byLeg0, Filter(qs, Known(a)), LegKey())
    ensures Grouped(byPosition, Filter(qs + [q], Known(a)), PositionKey())
    ensures Grouped(byLeg, Filter(qs + [q], Known(a)), LegKey())
  {
    byPosition, byLeg := byPosition0, byLeg0;
    FilterSnoc(qs, q, Known(a));
    assert Known(a)(q) ==> Filter(qs + [q], Known(a)) == Filter(qs, Known(a)) + [q];
    assert !Known(a)(q) ==> Filter(qs + [q], Known(a)) == Filter(qs, Known(a));
    assert PositionKey()(q) == q.positionId && LegKey()(q) == LegId(q.positionId, PairOf(q));
    assert Lookup(byId, q.positionId) == PositionFor(a.positions, q.positionId);
    if q.positionId in byId {
      GroupStep(byPosition, Filter(qs, Known(a)), PositionKey(), q);
      GroupStep(byLeg, Filter(qs, Known(a)), LegKey(), q);
      byPosition := Push(byPosition, q.positionId, q);
      byLeg := Push(byLeg, LegId(q.positionId, PairOf(q)), q);
    }
  }

  method CheckPayments(a: Audit, byId: map<string, Position>, legsBy: map<string, Legs>, ghost targets: map<LegId, int>)
    returns (byPosition: map<string, seq<Payment>>, byLeg: map<LegId, seq<Payment>>, n: PaymentCounts)
    requires IndexesPositions(a.positions, byId, legsBy, targets)
    ensures Grouped(byPosition, Filter(a.payments, Known(a)), PositionKey())
    ensures Grouped(byLeg, Filter(a.payments, Known(a)), LegKey())
    ensures CountsPayments(a, a.payments, n)
  {
    byPosition, byLeg := map[], map[];
    n := PaymentCounts(0, 0, 0, 0, 0, 0, 0);
    for i := 0 to |a.payments|
      invariant Grouped(byPosition, Filter(a.payments[..i], Known(a)), PositionKey())
      invariant Grouped(byLeg, Filter(a.payments[..i], Known(a)), LegKey())
      invariant CountsPayments(a, a.payments[..i], n)
    {
      var q := a.payments[i];
      var m := CheckPayment(a, q, byId, legsBy, targets);
      CountsStep(a, a.payments[..i], q, n);
      n := Add(n, m);
      byPosition, byLeg := IndexPayment(a, a.payments[..i], q, byPosition, byLeg, byId);
      assert a.payments[..i + 1] == a.payments[..i] + [q];
    }
    assert a.payments[..|a.payments|] == a.payments;
  }

  function One(b: bool): nat { if b then 1 else 0 }

  /** The body of the loop over payments. */
  method CheckPayment(a: Audit, q: Payment, byId: map<string, Position>, legsBy: map<string, Legs>,
                      ghost targets: map<LegId, int>)
    returns (n: PaymentCounts)
    requires IndexesPositions(a.positions, byId, legsBy, targets)
    ensures n == Ones(a, q)
  {
    n := PaymentCounts(0, 0, 0, 0, 0, 0, 0);
    assert Lookup(byId, q.positionId) == PositionFor(a.positions, q.positionId);
    if q.positionId !in byId {
      return n.(orphans := 1);
    }
    var matched := byId[q.positionId];
    var legs := if q.positionId in legsBy then legsBy[q.positionId] else map[];
    assert legs == LegsFor(a.positions, q.positionId) == LegsOf(matched);
    if PairOf(q) !in legs {
      n := n.(legs := 1);
    } else {
      var expected := if legs[PairOf(q)].Buy? then Times(-q.notional, q.rate) else Times(q.notional, q.rate);
      if Abs(q.pnl - expected) > PNL_TOLERANCE {
        n := n.(pnl := 1);
      }
    }
    assert n.legs == One(PaymentViolates(a, LegMatch, q)) && n.pnl == One(PaymentViolates(a, PaymentPnl, q));
    if Event(q.exchange, q.symbol, q.at, q.rate) !in a.history {
      n := n.(history := 1);
    }
    if matched.openedAt.None? || q.at <= matched.openedAt.value {
      n := n.(beforeOpen := 1);
    }
    if matched.closedAt.Some? && q.at > matched.closedAt.value {
      n := n.(afterClose := 1);
    }
    if q.notional != matched.capital {
      n := n.(notional := 1);
    }
  }

  // ---------------------------------------------------------------- the loop over positions

  datatype PositionCounts = PositionCounts(
    unpaid: nat, unpaidTargets: nat, late: nat, marker: nat, eventCount: nat, total: nat)

  /** Every index the loop over positions reads. */
  datatype Indexes = Indexes(
    legsBy: map<string, Legs>, targets: map<LegId, int>, events: map<Pair, seq<Event>>, identities: set<Identity>,
    byPosition: map<string, seq<Payment>>, byLeg: map<LegId, seq<Payment>>)

  ghost predicate Indexed(a: Audit, x: Indexes) {
    && (forall id :: (if id in x.legsBy then x.legsBy[id] else map[]) == LegsFor(a.positions, id))
    && (forall leg :: Lookup(x.targets, leg) == TargetFor(a.positions, leg))
    && Grouped(x.events, a.history, PairKey())
    && x.identities == Identities(a.payments)
    && Grouped(x.byPosition, Filter(a.payments, Known(a)), PositionKey())
    && Grouped(x.byLeg, Filter(a.payments, Known(a)), LegKey())
  }

  /** The lists of a position's payments hold all of its payments: none of them is an orphan. */
  lemma IndexedPayments(a: Audit, p: Position, pair: Pair, x: Indexes)
    requires p in a.positions && Indexed(a, x)
    ensures Get(x.byPosition, p.id) == PositionPayments(a, p)
    ensures Get(x.byLeg, LegId(p.id, pair)) == LegPayments(a, p, pair)
  {
    PositionForFound(a.positions, p.id);
    FilterTwice(a.payments, Known(a), Is(PositionKey(), p.id), Is(PositionKey(), p.id));
    FilterTwice(a.payments, Known(a), Is(LegKey(), LegId(p.id, pair)), Is(LegKey(), LegId(p.id, pair)));
  }

  /** How many unpaid events one pair adds for a position. */
  function UnpaidOf(a: Audit, p: Position): Pair -> nat {
    pair => |Filter(Filter(a.history, Is(PairKey(), pair)), Unpaid(a, p))|
  }

  lemma {:induction false} UnpaidPartition(a: Audit, p: Position, keys: seq<Pair>, pairs: seq<Pair>)
    requires Distinct(keys) && pairs <= keys
    requires forall k :: k in keys <==> k in LegsFor(a.positions, p.id)
    ensures SumNat(pairs, UnpaidOf(a, p)) == |Filter(Filter(a.history, Unpaid(a, p)), AnyOf(PairKey(), pairs))|
  {
    var unpaid := Filter(a.history, Unpaid(a, p));
    if pairs == [] {
      NoneKept(unpaid, AnyOf(PairKey(), pairs));
    } else {
      var n := |pairs| - 1;
      var pair := pairs[n];
      assert pairs == pairs[..n] + [pair] && keys[n] == pair && keys[..n] == pairs[..n];
      UnpaidPartition(a, p, keys, pairs[..n]);
      FilterDisjoint(unpaid, AnyOf(PairKey(), pairs[..n]), Is(PairKey(), pair), AnyOf(PairKey(), pairs));
      var both := (e: Event) => Unpaid(a, p)(e) && EventPair(e) == pair;
      FilterTwice(a.history, Is(PairKey(), pair), Unpaid(a, p), both);
      FilterTwice(a.history, Unpaid(a, p), Is(PairKey(), pair), both);
    }
  }

  /** The body of the loop over one opened position's legs: its raw events, then its target. */
  method CheckLeg(a: Audit, p: Position, pair: Pair, x: Indexes) returns (unpaid: nat, unpaidTarget: nat, late: nat)
    requires p in a.positions && p.openedAt.Some? && Indexed(a, x) && pair in LegsFor(a.positions, p.id)
    ensures unpaid == UnpaidOf(a, p)(pair)
    ensures unpaidTarget == One(LegViolates(a, TargetPaid, p, pair))
    ensures late == One(LegViolates(a, TargetInTime, p, pair))
  {
    IndexedPayments(a, p, pair, x);
    unpaid := UnpaidEvents(a, p, pair, x);
    unpaidTarget, late := 0, 0;
    var leg := LegId(p.id, pair);
    assert Lookup(x.targets, leg) == TargetFor(a.positions, leg);
    if leg in x.targets && p.openedAt.value < x.targets[leg] <= EffectiveEnd(a, p) - a.maxDelay * SECOND {
      var after := Filter(Get(x.byLeg, leg), NotBefore(x.targets[leg]));
      if after == [] {
        unpaidTarget := 1;
      } else {
        var delay := Earliest(after) - x.targets[leg];
        if delay > a.maxDelay * SECOND {
          late := 1;
        }
      }
    }
  }

  /** The loop over one leg's history events. */
  method UnpaidEvents(a: Audit, p: Position, pair: Pair, x: Indexes) returns (n: nat)
    requires p.openedAt.Some? && Indexed(a, x) && pair in LegsFor(a.positions, p.id)
    ensures n == UnpaidOf(a, p)(pair)
  {
    var events := Get(x.events, pair);
    FilterMembers(a.history, Is(PairKey(), pair));
    n := 0;
    for i := 0 to |events|
      invariant n == |Filter(events[..i], Unpaid(a, p))|
    {
      assert events[..i + 1][..i] == events[..i];
      var e := events[i];
      assert e in events && EventPair(e) == pair;
      if p.openedAt.value < e.at <= EffectiveEnd(a, p) && Identity(LegId(p.id, pair), e.at) !in x.identities {
        n := n + 1;
      }
    }
    assert events[..|events|] == events;
  }

  /** The loop over one opened position's legs. */
  method CheckLegs(a: Audit, p: Position, keys: seq<Pair>, x: Indexes)
    returns (unpaid: nat, unpaidTargets: nat, late: nat)
    requires p in a.positions && p.openedAt.Some? && Indexed(a, x)
    requires forall k :: k in keys ==> k in LegsFor(a.positions, p.id)
    ensures unpaid == SumNat(keys, UnpaidOf(a, p))
    ensures unpaidTargets == |Filter(keys, LegTest(a, TargetPaid, p))|
    ensures late == |Filter(keys, LegTest(a, TargetInTime, p))|
  {
    unpaid, unpaidTargets, late := 0, 0, 0;
    for i := 0 to |keys|
      invariant unpaid == SumNat(keys[..i], UnpaidOf(a, p))
      invariant unpaidTargets == |Filter(keys[..i], LegTest(a, TargetPaid, p))|
      invariant late == |Filter(keys[..i], LegTest(a, TargetInTime, p))|
    {
      var u, t, l := CheckLeg(a, p, keys[i], x);
      LegStep(a, p, keys[..i], keys[i]);
      assert keys[..i + 1] == keys[..i] + [keys[i]];
      unpaid, unpaidTargets, late := unpaid + u, unpaidTargets + t, late + l;
    }
    assert keys[..|keys|] == keys;
  }

  lemma LegStep(a: Audit, p: Position, keys: seq<Pair>, pair: Pair)
    ensures SumNat(keys + [pair], UnpaidOf(a, p)) == SumNat(keys, UnpaidOf(a, p)) + UnpaidOf(a, p)(pair)
    ensures |Filter(keys + [pair], LegTest(a, TargetPaid, p))| ==
            |Filter(keys, LegTest(a, TargetPaid, p))| + One(LegViolates(a, TargetPaid, p, pair))
    ensures |Filter(keys + [pair], LegTest(a, TargetInTime, p))| ==
            |Filter(keys, LegTest(a, TargetInTime, p))| + One(LegViolates(a, TargetInTime, p, pair))
  {
    assert (keys + [pair])[..|keys|] == keys;
    FilterSnoc(keys, pair, LegTest(a, TargetPaid, p));
    FilterSnoc(keys, pair, LegTest(a, TargetInTime, p));
  }

  method CheckEventsAndTargets(a: Audit, p: Position, x: Indexes) returns (unpaid: nat, unpaidTargets: nat, late: nat)
    requires p in a.positions && p.openedAt.Some? && Indexed(a, x)
    ensures unpaid == Tally(a, EventsPaid, p)
    ensures unpaidTargets == Tally(a, TargetPaid, p)
    ensures late == Tally(a, TargetInTime, p)
  {
    var legs := if p.id in x.legsBy then x.legsBy[p.id] else map[];
    assert legs == LegsFor(a.positions, p.id);
    var keys := DictKeys(legs);
    unpaid, unpaidTargets, late := CheckLegs(a, p, keys, x);
    FilterIsKeep(keys, legs.Keys, LegTest(a, TargetPaid, p));
    FilterIsKeep(keys, legs.Keys, LegTest(a, TargetInTime, p));
    UnpaidSum(a, p, keys);
  }

  lemma UnpaidSum(a: Audit, p: Position, keys: seq<Pair>)
    requires Distinct(keys) && forall k :: k in keys <==> k in LegsFor(a.positions, p.id)
    ensures SumNat(keys, UnpaidOf(a, p)) == Tally(a, EventsPaid, p)
  {
    UnpaidPartition(a, p, keys, keys);
    FilterMembers(a.history, Unpaid(a, p));
    AllKept(Filter(a.history, Unpaid(a, p)), AnyOf(PairKey(), keys));
  }

  /** The loop over one position's settlement markers. */
  method CheckMarkers(a: Audit, p: Position, x: Indexes) returns (stale: nat)
    requires p in a.positions && Indexed(a, x)
    ensures stale == Tally(a, Marker, p)
  {
    stale := 0;
    var legs := if p.id in x.legsBy then x.legsBy[p.id] else map[];
    assert legs == LegsFor(a.positions, p.id);
    var keys := DictKeys(legs);
    for i := 0 to |keys|
      invariant stale == |Filter(keys[..i], LegTest(a, Marker, p))|
    {
      assert keys[..i + 1][..i] == keys[..i];
      var pair := keys[i];
      IndexedPayments(a, p, pair, x);
      var paid := Get(x.byLeg, LegId(p.id, pair));
      var expected := if paid == [] then None else Some(Latest(paid));
      if Lookup(PayloadOf(p).settled, pair.Name()) != expected {
        stale := stale + 1;
      }
    }
    assert keys[..|keys|] == keys;
    FilterIsKeep(keys, legs.Keys, LegTest(a, Marker, p));
  }

  /** The body of the loop over positions. */
  method CheckPosition(a: Audit, p: Position, x: Indexes) returns (n: PositionCounts)
    requires p in a.positions && Indexed(a, x)
    ensures n == PositionCounts(
      Tally(a, EventsPaid, p), Tally(a, TargetPaid, p), Tally(a, TargetInTime, p),
      Tally(a, Marker, p), Tally(a, EventCount, p), Tally(a, FundingTotal, p))
  {
    IndexedPayments(a, p, Pair("", ""), x);
    var unpaid, unpaidTargets, late := 0, 0, 0;
    if p.openedAt.Some? {
      unpaid, unpaidTargets, late := CheckEventsAndTargets(a, p, x);
    } else {
      NeverOpened(a, p, a.history);
    }
    var paid := Get(x.byPosition, p.id);
    var eventCount := if PayloadOf(p).fundingEvents != Some(|paid| as real) then 1 else 0;
    assert eventCount == Tally(a, EventCount, p);
    var stale := CheckMarkers(a, p, x);
    var total := CheckTotal(a, p, paid);
    n := PositionCounts(unpaid, unpaidTargets, late, stale, eventCount, total);
  }

  /** The sum of the position's payments against its persisted funding PnL. */
  method CheckTotal(a: Audit, p: Position, paid: seq<Payment>) returns (total: nat)
    requires paid == PositionPayments(a, p)
    ensures total == Tally(a, FundingTotal, p)
  {
    var calculated := 0.0;
    for i := 0 to |paid|
      invariant calculated == SumBy(paid[..i], PnlOf())
    {
      assert paid[..i + 1][..i] == paid[..i];
      calculated := calculated + paid[i].pnl;
    }
    assert paid[..|paid|] == paid;
    total := 0;
    if PayloadOf(p).fundingPnl.None? {
      total := 1;
    } else if Abs(PayloadOf(p).fundingPnl.value - calculated) > PNL_TOLERANCE {
      total := 1;
    }
  }

  lemma NeverOpened(a: Audit, p: Position, events: seq<Event>)
    requires p.openedAt.None?
    ensures Filter(events, Unpaid(a, p)) == []
    ensures forall s :: |Keep(s, LegTest(a, TargetPaid, p))| == 0 && |Keep(s, LegTest(a, TargetInTime, p))| == 0
  {
    if events != [] {
      NeverOpened(a, p, events[..|events| - 1]);
    }
    forall s ensures |Keep(s, LegTest(a, TargetPaid, p))| == 0 && |Keep(s, LegTest(a, TargetInTime, p))| == 0 {
      assert Keep(s, LegTest(a, TargetPaid, p)) == {};
      assert Keep(s, LegTest(a, TargetInTime, p)) == {};
    }
  }

  lemma TotalsStep(a: Audit, ps: seq<Position>, p: Position)
    ensures forall c :: Total(a, c, ps + [p]) == Total(a, c, ps) + Tally(a, c, p)
  {
    assert (ps + [p])[..|ps|] == ps;
  }

  lemma NoTotals(a: Audit)
    ensures forall c :: Total(a, c, []) == 0
  {
  }

  method CheckPositions(a: Audit, x: Indexes) returns (n: PositionCounts)
    requires Indexed(a, x)
    ensures n == Totals(a, a.positions)
  {
    hide Total, Tally, Indexed;
    n := PositionCounts(0, 0, 0, 0, 0, 0);
    NoTotals(a);
    assert a.positions[..0] == [];
    for i := 0 to |a.positions|
      invariant n == Totals(a, a.positions[..i])
    {
      var m := CheckPosition(a, a.positions[i], x);
      TotalsStep(a, a.positions[..i], a.positions[i]);
      assert a.positions[..i + 1] == a.positions[..i] + [a.positions[i]];
      n := PositionCounts(n.unpaid + m.unpaid, n.unpaidTargets + m.unpaidTargets, n.late + m.late,
                          n.marker + m.marker, n.eventCount + m.eventCount, n.total + m.total);
    }
    assert a.positions[..|a.positions|] == a.positions;
  }

  function Totals(a: Audit, ps: seq<Position>): PositionCounts {
    PositionCounts(Total(a, EventsPaid, ps), Total(a, TargetPaid, ps), Total(a, TargetInTime, ps),
                   Total(a, Marker, ps), Total(a, EventCount, ps), Total(a, FundingTotal, ps))
  }

  // ---------------------------------------------------------------- the audit

  /** Every counter is the number of violations of its check, and ok says that every check is clean. */
  method AuditFundingPayments(a: Audit) returns (r: Report)
    ensures Counts(a, r)
    ensures r.ok <==> Clean(a)
  {
    var byId, legsBy, targets, payloadErrors, missing, notAfterOpen := IndexPositions(a);
    var events := IndexHistory(a.history);
    var counter := CountIdentities(a.payments);
    var duplicates := CountDuplicates(a.payments, counter);
    IdentitiesBound(a.payments);
    var byPosition, byLeg, q := CheckPayments(a, byId, legsBy, targets);
    var n := CheckPositions(a, Indexes(legsBy, targets, events, counter.Keys, byPosition, byLeg));
    r := Report(false, payloadErrors, missing, notAfterOpen, q.orphans, q.legs, q.history, q.beforeOpen, q.afterClose,
                q.notional, q.pnl, n.unpaid, n.unpaidTargets, n.late, n.marker, n.eventCount, n.total, duplicates);
    var ok := (!a.requirePayments || a.payments != []) && AllZero(r);
    r := r.(ok := ok);
    ZeroIsClean(a, r);
  }

  predicate AllZero(r: Report) {
    && r.payloadErrors == 0 && r.missingTargets == 0 && r.targetsNotAfterOpen == 0
    && r.orphans == 0 && r.legMismatches == 0 && r.historyMismatches == 0
    && r.beforeOpen == 0 && r.afterClose == 0 && r.notionalMismatches == 0 && r.pnlMismatches == 0
    && r.unpaidEvents == 0 && r.unpaidTargets == 0 && r.lateTargets == 0
    && r.markerMismatches == 0 && r.eventCountMismatches == 0 && r.totalMismatches == 0
    && r.duplicates == 0
  }

  lemma ZeroIsClean(a: Audit, r: Report)
    requires Counts(a, r)
    ensures (!a.requirePayments || a.payments != []) && AllZero(r) <==> Clean(a)
  {
    if (!a.requirePayments || a.payments != []) && AllZero(r) {
      forall c ensures PaymentCount(a, c, a.payments) == 0 {
        match c { case Orphan => case LegMatch => case PaymentPnl => case ExactHistory =>
                  case BeforeOpen => case AfterClose => case Notional => }
      }
      forall c ensures Total(a, c, a.positions) == 0 {
        match c { case PayloadValid => case TargetPresent => case TargetAfterOpen => case EventsPaid =>
                  case TargetPaid => case TargetInTime => case Marker => case EventCount => case FundingTotal => }
      }
    }
  }

  lemma IdentitiesBound(payments: seq<Payment>)
    ensures Duplicates(payments) >= 0
  {
    if payments != [] {
      var n := |payments| - 1;
      IdentitiesBound(payments[..n]);
      assert payments == payments[..n] + [payments[n]];
      assert Identities(payments) == Identities(payments[..n]) + {IdentityOf(payments[n])};
    }
  }
}
