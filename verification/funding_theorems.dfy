/** What a clean funding audit means: the verdict against a declarative reconciliation, its independence of row
    order, the bijection between payments and raw events, and the bound on the persisted funding PnL. */
module FundingTheorems {
  import opened Lists
  import opened FundingModel

  // ---------------------------------------------------------------- counters that are zero

  lemma CountZero<T>(s: seq<T>, f: T -> bool)
    ensures |Filter(s, f)| == 0 <==> forall x :: x in s ==> !f(x)
  {
    FilterMembers(s, f);
    if |Filter(s, f)| != 0 {
      assert Filter(s, f)[0] in Filter(s, f);
    }
  }

  lemma KeepZero<T>(s: set<T>, f: T -> bool)
    ensures |Keep(s, f)| == 0 <==> forall x :: x in s ==> !f(x)
  {
    if x :| x in s && f(x) {
      assert x in Keep(s, f);
    } else {
      assert Keep(s, f) == {};
    }
  }

  lemma {:induction false} TotalZero(a: Audit, c: PositionCheck, ps: seq<Position>)
    ensures Total(a, c, ps) == 0 <==> forall p :: p in ps ==> Tally(a, c, p) == 0
  {
    hide Tally;
    if ps != [] {
      TotalZero(a, c, ps[..|ps| - 1]);
      assert ps == ps[..|ps| - 1] + [ps[|ps| - 1]];
    }
  }

  // ---------------------------------------------------------------- the reconciliation

  /** The payment belongs to this position: its leg, its raw event, holding interval and notional; a long pays a positive
      rate and a short receives it. */
  ghost predicate Fits(a: Audit, p: Position, q: Payment) {
    var pair := Pair(q.exchange, q.symbol);
    && q.positionId == p.id && pair in LegsOf(p)
    && (LegsOf(p)[pair] == Buy ==> Abs(q.pnl + Times(p.capital, q.rate)) <= PNL_TOLERANCE)
    && (LegsOf(p)[pair] == Sell ==> Abs(q.pnl - Times(p.capital, q.rate)) <= PNL_TOLERANCE)
    && Event(q.exchange, q.symbol, q.at, q.rate) in a.history
    && p.openedAt.Some? && p.openedAt.value < q.at
    && (p.closedAt.Some? ==> q.at <= p.closedAt.value)
    && q.notional == p.capital
  }

  /** A payment of this leg at this instant. */
  ghost predicate PaidAt(a: Audit, p: Position, pair: Pair, at: int) {
    exists q :: q in a.payments && q.positionId == p.id && Pair(q.exchange, q.symbol) == pair && q.at == at
  }

  /** An instant of the audited part of the holding interval, (opened, min(closed, observed)]. */
  predicate Audited(a: Audit, p: Position, at: int) {
    && p.openedAt.Some? && p.openedAt.value < at <= a.observed
    && (p.closedAt.Some? ==> at <= p.closedAt.value)
  }

  /** A target's grace period ends before the observation and the close. */
  predicate GraceOver(a: Audit, p: Position, target: int) {
    var end := target + a.maxDelay * SECOND;
    end <= a.observed && (p.closedAt.Some? ==> end <= p.closedAt.value)
  }

  /** The key of a pair in the payload's dictionaries. */
  function KeyIn(pair: Pair): string { pair.exchange + "|" + pair.symbol }

  /** A perpetual leg has a target after the opening, a payment within the limit once the target's grace period is
      over, and a settlement marker at its last payment. */
  ghost predicate LegReconciled(a: Audit, p: Position, pair: Pair) {
    && p.payload.Some? && p.openedAt.Some?
    && var payload, key := p.payload.value, KeyIn(pair);
    && key in payload.targets && p.openedAt.value < payload.targets[key]
    && (GraceOver(a, p, payload.targets[key]) ==>
          exists at :: PaidAt(a, p, pair, at) && 0 <= at - payload.targets[key] <= a.maxDelay * SECOND)
    && if key in payload.settled then
         PaidAt(a, p, pair, payload.settled[key]) && forall at :: PaidAt(a, p, pair, at) ==> at <= payload.settled[key]
       else forall at :: !PaidAt(a, p, pair, at)
  }

  /** Every raw event of the position's legs in the audited part of its holding interval has its payment. */
  ghost predicate EventsReconciled(a: Audit, p: Position) {
    forall e :: e in a.history && Pair(e.exchange, e.symbol) in LegsOf(p) && Audited(a, p, e.at) ==>
      PaidAt(a, p, Pair(e.exchange, e.symbol), e.at)
  }

  /** The persisted event count and funding PnL are those of the position's payments. */
  ghost predicate TotalsReconciled(a: Audit, p: Position)
    requires p.payload.Some?
  {
    var payload := p.payload.value;
    && payload.fundingEvents == Some(|PositionPayments(a, p)| as real)
    && payload.fundingPnl.Some?
    && Abs(payload.fundingPnl.value - SumBy(PositionPayments(a, p), PnlOf())) <= PNL_TOLERANCE
  }

  /** Both legs are sound, and no pair is on both sides. */
  ghost predicate LegsAgree(payload: Payload) {
    && Sound(payload.legA) && Sound(payload.legB)
    && forall pair, side, other :: Names(payload.legA, pair, side) && Names(payload.legB, pair, other) ==> side == other
  }

  ghost predicate PositionReconciled(a: Audit, p: Position) {
    && p.payload.Some? && p.openedAt.Some? && LegsAgree(p.payload.value)
    && (forall pair :: pair in LegsOf(p) ==> LegReconciled(a, p, pair))
    && EventsReconciled(a, p)
    && TotalsReconciled(a, p)
  }

  ghost predicate PaymentsReconciled(a: Audit) {
    forall q :: q in a.payments ==> exists p :: p in a.positions && Fits(a, p, q)
  }

  ghost predicate PositionsReconciled(a: Audit) {
    forall p :: p in a.positions ==> PositionReconciled(a, p)
  }

  ghost predicate Reconciled(a: Audit) {
    && (a.requirePayments ==> a.payments != [])
    && DistinctBy(a.payments, IdentityKey())
    && PaymentsReconciled(a)
    && PositionsReconciled(a)
  }

  // ---------------------------------------------------------------- payments

  lemma PaymentClean(a: Audit, q: Payment)
    requires DistinctIds(a.positions)
    ensures (forall c :: !PaymentViolates(a, c, q)) <==> exists p :: p in a.positions && Fits(a, p, q)
  {
    PositionForFound(a.positions, q.positionId);
    var owner := PositionFor(a.positions, q.positionId);
    if exists p :: p in a.positions && Fits(a, p, q) {
      var p :| p in a.positions && Fits(a, p, q);
      DistinctLookups(a.positions, p);
    }
    if forall c :: !PaymentViolates(a, c, q) {
      assert !PaymentViolates(a, Orphan, q);
      assert owner.Some? && LegsFor(a.positions, q.positionId) == LegsOf(owner.value);
      assert !PaymentViolates(a, LegMatch, q) && !PaymentViolates(a, PaymentPnl, q) && !PaymentViolates(a, ExactHistory, q);
      assert !PaymentViolates(a, BeforeOpen, q) && !PaymentViolates(a, AfterClose, q) && !PaymentViolates(a, Notional, q);
      assert Fits(a, owner.value, q);
    }
  }

  lemma PaymentsClean(a: Audit)
    requires DistinctIds(a.positions)
    ensures PaymentChecksClean(a) <==> PaymentsReconciled(a)
  {
    forall c ensures PaymentCount(a, c, a.payments) == 0 <==> forall q :: q in a.payments ==> !PaymentViolates(a, c, q) {
      CountZero(a.payments, PaymentTest(a, c));
      assert forall q :: PaymentTest(a, c)(q) == PaymentViolates(a, c, q);
    }
    forall q | q in a.payments
      ensures (forall c :: !PaymentViolates(a, c, q)) <==> exists p :: p in a.positions && Fits(a, p, q)
    {
      PaymentClean(a, q);
    }
    if PaymentChecksClean(a) {
      forall q | q in a.payments ensures exists p :: p in a.positions && Fits(a, p, q) {
        assert forall c :: PaymentCount(a, c, a.payments) == 0 ==> !PaymentViolates(a, c, q);
      }
    }
    if PaymentsReconciled(a) {
      forall c ensures PaymentCount(a, c, a.payments) == 0 {
        assert forall q :: q in a.payments ==> !PaymentViolates(a, c, q);
      }
    }
  }

  // ---------------------------------------------------------------- positions

  lemma LegPaid(a: Audit, p: Position, pair: Pair)
    ensures forall at :: PaidAt(a, p, pair, at) <==> exists q :: q in LegPayments(a, p, pair) && q.at == at
    ensures LegPayments(a, p, pair) == [] <==> forall at :: !PaidAt(a, p, pair, at)
  {
    FilterMembers(a.payments, Is(LegKey(), LegId(p.id, pair)));
    forall q ensures q in LegPayments(a, p, pair) <==> q in a.payments && q.positionId == p.id && PairOf(q) == pair {
    }
    if LegPayments(a, p, pair) != [] {
      var q := LegPayments(a, p, pair)[0];
      assert q in LegPayments(a, p, pair);
      assert PaidAt(a, p, pair, q.at);
    }
  }

  /** A position with a perpetual leg has a payload, and its look-ups are those of the payload's dictionaries. */
  lemma LegPayload(p: Position, pair: Pair)
    requires pair in LegsOf(p)
    ensures p.payload.Some? && TargetOf(p, pair) == Lookup(p.payload.value.targets, KeyIn(pair))
    ensures Lookup(PayloadOf(p).settled, pair.Name()) == Lookup(p.payload.value.settled, KeyIn(pair))
  {
    ScanLegsMeaning(PayloadOf(p).legA, PayloadOf(p).legB);
  }

  /** The perpetual legs of a position are those its payload names, and its payload is in order exactly when they agree. */
  lemma LegsMeaning(p: Position)
    requires p.payload.Some?
    ensures var payload := p.payload.value;
      && (forall pair :: pair in LegsOf(p) <==> exists side :: Names(payload.legA, pair, side) || Names(payload.legB, pair, side))
      && (LegsAgree(payload) ==> forall pair, side ::
            Names(payload.legA, pair, side) || Names(payload.legB, pair, side) ==> pair in LegsOf(p) && LegsOf(p)[pair] == side)
      && (Scan(p).errors == 0 <==> LegsAgree(payload))
  {
    var payload := p.payload.value;
    ScanLegsMeaning(payload.legA, payload.legB);
  }

  lemma TargetClean(a: Audit, p: Position, pair: Pair)
    requires DistinctIds(a.positions) && p in a.positions && pair in LegsOf(p)
    requires !LegViolates(a, TargetPresent, p, pair) && !LegViolates(a, TargetAfterOpen, p, pair) && p.openedAt.Some?
    ensures !LegViolates(a, TargetPaid, p, pair) && !LegViolates(a, TargetInTime, p, pair) <==>
            (GraceOver(a, p, TargetOf(p, pair).value) ==>
               exists at :: PaidAt(a, p, pair, at) && 0 <= at - TargetOf(p, pair).value <= a.maxDelay * SECOND)
  {
    DistinctLookups(a.positions, p);
    LegPaid(a, p, pair);
    var target := TargetOf(p, pair).value;
    var after := AfterTarget(a, p, pair);
    FilterMembers(LegPayments(a, p, pair), NotBefore(target));
    assert forall q :: q in after <==> q in LegPayments(a, p, pair) && q.at >= target;
    if at :| PaidAt(a, p, pair, at) && 0 <= at - target <= a.maxDelay * SECOND {
      var q :| q in LegPayments(a, p, pair) && q.at == at;
      assert q in after;
      assert Earliest(after) <= at;
    }
    if after != [] {
      var first := Earliest(after);
      assert exists q :: q in after && q.at == first;
      assert PaidAt(a, p, pair, first);
    }
  }

  lemma MarkerClean(a: Audit, p: Position, pair: Pair)
    ensures !LegViolates(a, Marker, p, pair) <==>
            match Lookup(PayloadOf(p).settled, pair.Name())
            case None => forall at :: !PaidAt(a, p, pair, at)
            case Some(m) => PaidAt(a, p, pair, m) && forall at :: PaidAt(a, p, pair, at) ==> at <= m
  {
    LegPaid(a, p, pair);
    var qs := LegPayments(a, p, pair);
    if qs != [] {
      var latest := Latest(qs);
      assert PaidAt(a, p, pair, latest);
    }
  }

  lemma LegClean(a: Audit, p: Position, pair: Pair)
    requires DistinctIds(a.positions) && p in a.positions && pair in LegsOf(p) && p.openedAt.Some?
    ensures (forall c :: !LegViolates(a, c, p, pair)) <==> LegReconciled(a, p, pair)
  {
    LegPayload(p, pair);
    MarkerClean(a, p, pair);
    if !LegViolates(a, TargetPresent, p, pair) && !LegViolates(a, TargetAfterOpen, p, pair) {
      TargetClean(a, p, pair);
    }
    if LegReconciled(a, p, pair) {
      forall c ensures !LegViolates(a, c, p, pair) {
        match c { case TargetPresent => case TargetAfterOpen => case TargetPaid => case TargetInTime => case Marker => case _ => }
      }
    }
  }

  lemma EventsClean(a: Audit, p: Position)
    requires DistinctIds(a.positions) && p in a.positions && p.openedAt.Some?
    ensures Tally(a, EventsPaid, p) == 0 <==> EventsReconciled(a, p)
  {
    DistinctLookups(a.positions, p);
    CountZero(a.history, Unpaid(a, p));
    forall e ensures Unpaid(a, p)(e) <==>
      Pair(e.exchange, e.symbol) in LegsOf(p) && Audited(a, p, e.at) && !PaidAt(a, p, Pair(e.exchange, e.symbol), e.at)
    {
      var id := Identity(LegId(p.id, EventPair(e)), e.at);
      if id in Identities(a.payments) {
        var i :| 0 <= i < |a.payments| && IdentityKey()(a.payments[i]) == id;
        assert a.payments[i] in a.payments && PaidAt(a, p, EventPair(e), e.at);
      }
      if PaidAt(a, p, EventPair(e), e.at) {
        var q :| q in a.payments && q.positionId == p.id && PairOf(q) == EventPair(e) && q.at == e.at;
        var i :| 0 <= i < |a.payments| && a.payments[i] == q;
        assert IdentityKey()(a.payments[i]) in Identities(a.payments);
      }
    }
  }

  lemma LegTallies(a: Audit, p: Position)
    requires DistinctIds(a.positions) && p in a.positions
    ensures Tally(a, TargetPresent, p) == 0 && Tally(a, TargetAfterOpen, p) == 0 && Tally(a, TargetPaid, p) == 0 &&
            Tally(a, TargetInTime, p) == 0 && Tally(a, Marker, p) == 0 <==>
            forall pair, c :: pair in LegsOf(p) ==> !LegViolates(a, c, p, pair)
  {
    DistinctLookups(a.positions, p);
    forall c ensures |Keep(LegsOf(p).Keys, LegTest(a, c, p))| == 0 <==>
                     forall pair :: pair in LegsOf(p) ==> !LegViolates(a, c, p, pair) {
      KeepZero(LegsOf(p).Keys, LegTest(a, c, p));
      assert forall pair :: LegTest(a, c, p)(pair) == LegViolates(a, c, p, pair);
    }
    if Tally(a, TargetPresent, p) == 0 && Tally(a, TargetAfterOpen, p) == 0 && Tally(a, TargetPaid, p) == 0 &&
       Tally(a, TargetInTime, p) == 0 && Tally(a, Marker, p) == 0 {
      forall pair, c | pair in LegsOf(p) ensures !LegViolates(a, c, p, pair) {
        match c { case TargetPresent => case TargetAfterOpen => case TargetPaid => case TargetInTime => case Marker => case _ => }
      }
    }
  }

  lemma PositionClean(a: Audit, p: Position)
    requires DistinctIds(a.positions) && p in a.positions
    ensures (forall c :: Tally(a, c, p) == 0) <==> PositionReconciled(a, p)
  {
    LegTallies(a, p);
    if p.payload.Some? {
      LegsMeaning(p);
    }
    if p.openedAt.Some? {
      EventsClean(a, p);
      forall pair | pair in LegsOf(p)
        ensures (forall c :: !LegViolates(a, c, p, pair)) <==> LegReconciled(a, p, pair)
      {
        LegClean(a, p, pair);
      }
    }
    if PositionReconciled(a, p) {
      forall c ensures Tally(a, c, p) == 0 {
        match c { case PayloadValid => case TargetPresent => case TargetAfterOpen => case EventsPaid =>
                  case TargetPaid => case TargetInTime => case Marker => case EventCount => case FundingTotal => }
      }
    }
    if forall c :: Tally(a, c, p) == 0 {
      assert Tally(a, PayloadValid, p) == 0 && Tally(a, EventsPaid, p) == 0;
      assert Tally(a, EventCount, p) == 0 && Tally(a, FundingTotal, p) == 0;
      assert Tally(a, TargetPresent, p) == 0 && Tally(a, TargetAfterOpen, p) == 0 && Tally(a, TargetPaid, p) == 0;
      assert Tally(a, TargetInTime, p) == 0 && Tally(a, Marker, p) == 0;
    }
  }

  lemma PositionsClean(a: Audit)
    requires DistinctIds(a.positions)
    ensures PositionChecksClean(a) <==> PositionsReconciled(a)
  {
    forall c ensures Total(a, c, a.positions) == 0 <==> forall p :: p in a.positions ==> Tally(a, c, p) == 0 {
      TotalZero(a, c, a.positions);
    }
    if PositionsReconciled(a) {
      forall c ensures Total(a, c, a.positions) == 0 {
        forall p | p in a.positions ensures Tally(a, c, p) == 0 {
          PositionClean(a, p);
        }
      }
    }
    if PositionChecksClean(a) {
      forall p | p in a.positions ensures PositionReconciled(a, p) {
        forall c ensures Tally(a, c, p) == 0 {
          assert Total(a, c, a.positions) == 0;
        }
        PositionClean(a, p);
      }
      assert PositionsReconciled(a);
    }
  }

  /** The audit says ok exactly when positions, payments and history reconcile. */
  lemma OkMeansReconciled(a: Audit)
    requires DistinctIds(a.positions)
    ensures Clean(a) <==> Reconciled(a)
  {
    PaymentsClean(a);
    PositionsClean(a);
    DistinctCount(a.payments, IdentityKey());
  }

  // ---------------------------------------------------------------- row order

  predicate Reordered(a: Audit, b: Audit) {
    && multiset(a.positions) == multiset(b.positions)
    && multiset(a.payments) == multiset(b.payments)
    && multiset(a.history) == multiset(b.history)
    && a.observed == b.observed && a.maxDelay == b.maxDelay && a.requirePayments == b.requirePayments
  }

  lemma ReconciledReordered(a: Audit, b: Audit)
    requires Reordered(a, b) && Reconciled(a)
    ensures Reconciled(b)
  {
    SameMembers(a.positions, b.positions);
    SameMembers(a.payments, b.payments);
    SameMembers(a.history, b.history);
    DistinctReordered(b.payments, a.payments, IdentityKey());
    forall q | q in b.payments ensures exists p :: p in b.positions && Fits(b, p, q) {
      assert q in a.payments;
      var p :| p in a.positions && Fits(a, p, q);
      assert p in b.positions && Fits(b, p, q);
    }
    forall p | p in b.positions ensures PositionReconciled(b, p) {
      assert PositionReconciled(a, p);
      PositionReordered(a, b, p);
    }
  }

  lemma PositionReordered(a: Audit, b: Audit, p: Position)
    requires Reordered(a, b) && PositionReconciled(a, p)
    ensures PositionReconciled(b, p)
  {
    hide LegsOf, LegsAgree, Filter, SumBy, DistinctBy;
    SameMembers(a.payments, b.payments);
    SameMembers(a.history, b.history);
    FilterReordered(a.payments, b.payments, Is(PositionKey(), p.id));
    SumReordered(PositionPayments(a, p), PositionPayments(b, p), PnlOf());
    forall pair, at ensures PaidAt(a, p, pair, at) <==> PaidAt(b, p, pair, at) {
    }
    forall pair | pair in LegsOf(p) ensures LegReconciled(b, p, pair) {
      assert LegReconciled(a, p, pair);
    }
  }

  /** The verdict does not depend on the order in which the rows were loaded. */
  lemma VerdictReordered(a: Audit, b: Audit)
    requires DistinctIds(a.positions) && Reordered(a, b)
    ensures Clean(a) <==> Clean(b)
  {
    DistinctReordered(b.positions, a.positions, IdOf());
    OkMeansReconciled(a);
    OkMeansReconciled(b);
    if Reconciled(a) {
      ReconciledReordered(a, b);
    }
    if Reconciled(b) {
      ReconciledReordered(b, a);
    }
  }

  // ---------------------------------------------------------------- payments are the raw events

  datatype EventId = EventId(pair: Pair, at: int)

  function EventIdOf(): Event -> EventId { (e: Event) => EventId(EventPair(e), e.at) }

  /** The history table's unique constraint and the window its rows are loaded from. */
  predicate LoadedHistory(a: Audit) {
    && DistinctBy(a.history, EventIdOf())
    && forall e :: e in a.history ==> e.at <= a.observed
  }

  function HeldBy(a: Audit, p: Position): Event -> bool {
    (e: Event) => Pair(e.exchange, e.symbol) in LegsOf(p) && Audited(a, p, e.at)
  }

  /** The raw events of the position's perpetual legs in (opened, min(closed, observed)]. */
  function HeldEvents(a: Audit, p: Position): seq<Event> { Filter(a.history, HeldBy(a, p)) }

  function ToEvent(): Payment -> Event { (q: Payment) => EventOf(q) }

  lemma PaidEventsDistinct(a: Audit, p: Position)
    requires DistinctBy(a.payments, IdentityKey())
    ensures Distinct(Map(PositionPayments(a, p), ToEvent()))
  {
    var qs := PositionPayments(a, p);
    FilterDistinct(a.payments, Is(PositionKey(), p.id), IdentityKey());
    FilterMembers(a.payments, Is(PositionKey(), p.id));
    forall i, j | 0 <= i < j < |qs| ensures EventOf(qs[i]) != EventOf(qs[j]) {
      assert qs[i] in qs && qs[j] in qs;
      assert qs[i].positionId == p.id == qs[j].positionId;
      assert IdentityKey()(qs[i]) != IdentityKey()(qs[j]);
    }
  }

  lemma HeldEventsDistinct(a: Audit, p: Position)
    requires DistinctBy(a.history, EventIdOf())
    ensures Distinct(HeldEvents(a, p))
  {
    var held := HeldEvents(a, p);
    FilterDistinct(a.history, HeldBy(a, p), EventIdOf());
    forall i, j | 0 <= i < j < |held| ensures held[i] != held[j] {
      assert EventIdOf()(held[i]) != EventIdOf()(held[j]);
    }
  }

  lemma PaidIsHeld(a: Audit, p: Position, e: Event)
    requires DistinctIds(a.positions) && LoadedHistory(a) && PaymentsReconciled(a) && p in a.positions
    requires e in Map(PositionPayments(a, p), ToEvent())
    ensures e in HeldEvents(a, p)
  {
    var qs := PositionPayments(a, p);
    var i :| 0 <= i < |qs| && Map(qs, ToEvent())[i] == e;
    assert qs[i] in qs;
    FilterMembers(a.payments, Is(PositionKey(), p.id));
    OwnPayment(a, p, qs[i]);
    DistinctLookups(a.positions, p);
    FilterMembers(a.history, HeldBy(a, p));
    assert HeldBy(a, p)(e);
  }

  /** A clean audit pairs the position's payments one to one with the raw events of its holding interval. */
  lemma PaymentsAreTheHeldEvents(a: Audit, p: Position)
    requires DistinctIds(a.positions) && LoadedHistory(a) && Clean(a) && p in a.positions
    ensures multiset(Map(PositionPayments(a, p), ToEvent())) == multiset(HeldEvents(a, p))
  {
    OkMeansReconciled(a);
    assert PositionReconciled(a, p);
    var paid, held := Map(PositionPayments(a, p), ToEvent()), HeldEvents(a, p);
    forall e ensures e in paid <==> e in held {
      if e in paid {
        PaidIsHeld(a, p, e);
      }
      if e in held {
        FilterMembers(a.history, HeldBy(a, p));
        HeldIsPaid(a, p, e);
      }
    }
    PaidEventsDistinct(a, p);
    HeldEventsDistinct(a, p);
    SameSetReordered(paid, held);
  }

  lemma OneEventEach(history: seq<Event>, e: Event, f: Event)
    requires DistinctBy(history, EventIdOf()) && e in history && f in history
    requires EventPair(e) == EventPair(f) && e.at == f.at
    ensures e == f
  {
    var i :| 0 <= i < |history| && history[i] == e;
    var j :| 0 <= j < |history| && history[j] == f;
    assert EventIdOf()(history[i]) == EventIdOf()(history[j]);
  }

  lemma OwnPayment(a: Audit, p: Position, q: Payment)
    requires DistinctIds(a.positions) && PaymentsReconciled(a) && p in a.positions
    requires q in a.payments && q.positionId == p.id
    ensures Fits(a, p, q)
  {
    var owner :| owner in a.positions && Fits(a, owner, q);
    DistinctLookups(a.positions, owner);
    DistinctLookups(a.positions, p);
  }

  lemma HeldIsPaid(a: Audit, p: Position, e: Event)
    requires DistinctIds(a.positions) && LoadedHistory(a) && PaymentsReconciled(a) && p in a.positions
    requires EventsReconciled(a, p)
    requires e in a.history && HeldBy(a, p)(e)
    ensures e in Map(PositionPayments(a, p), ToEvent())
  {
    DistinctLookups(a.positions, p);
    assert PaidAt(a, p, EventPair(e), e.at);
    var q :| q in a.payments && q.positionId == p.id && PairOf(q) == EventPair(e) && q.at == e.at;
    OwnPayment(a, p, q);
    assert EventPair(EventOf(q)) == PairOf(q);
    OneEventEach(a.history, EventOf(q), e);
    FilterMembers(a.payments, Is(PositionKey(), p.id));
    assert q in PositionPayments(a, p);
    var k :| 0 <= k < |PositionPayments(a, p)| && PositionPayments(a, p)[k] == q;
    assert Map(PositionPayments(a, p), ToEvent())[k] == e;
  }

  // ---------------------------------------------------------------- the funding PnL

  /** In a clean audit a long leg pays capital times rate and a short leg receives it, to within the tolerance. */
  lemma LongsPayShortsReceive(a: Audit, p: Position, q: Payment)
    requires DistinctIds(a.positions) && Clean(a) && p in a.positions && q in a.payments && q.positionId == p.id
    ensures var pair := Pair(q.exchange, q.symbol);
      && pair in LegsOf(p)
      && (LegsOf(p)[pair] == Buy ==> Abs(q.pnl + p.capital * q.rate) <= PNL_TOLERANCE)
      && (LegsOf(p)[pair] == Sell ==> Abs(q.pnl - p.capital * q.rate) <= PNL_TOLERANCE)
  {
    CleanPosition(a, p);
    OwnPayment(a, p, q);
    hide LegsOf;
  }

  /** The held events of the position's legs on one side. */
  function SideEvents(a: Audit, p: Position, side: Side): seq<Event> { Filter(HeldEvents(a, p), OnSide(p, side)) }

  function OnSide(p: Position, side: Side): Event -> bool {
    (e: Event) => var pair := Pair(e.exchange, e.symbol); pair in LegsOf(p) && LegsOf(p)[pair] == side
  }

  function CapitalTimesRate(p: Position): Event -> real { (e: Event) => Times(p.capital, e.rate) }

  /** What an event pays on the position's leg. */
  function Entitled(p: Position): Event -> real {
    (e: Event) =>
      if OnSide(p, Sell)(e) then Times(p.capital, e.rate) else if OnSide(p, Buy)(e) then -Times(p.capital, e.rate) else 0.0
  }

  function EntitledByPayment(p: Position): Payment -> real { (q: Payment) => Entitled(p)(EventOf(q)) }

  lemma EntitledOf(p: Position, e: Event)
    ensures var pair := Pair(e.exchange, e.symbol); pair in LegsOf(p) ==>
      Entitled(p)(e) == if LegsOf(p)[pair] == Sell then Times(p.capital, e.rate) else -Times(p.capital, e.rate)
  {
    hide LegsOf;
    var pair := Pair(e.exchange, e.symbol);
    assert OnSide(p, Sell)(e) <==> pair in LegsOf(p) && LegsOf(p)[pair] == Sell;
    assert OnSide(p, Buy)(e) <==> pair in LegsOf(p) && LegsOf(p)[pair] == Buy;
  }

  lemma EntitledClose(a: Audit, p: Position, q: Payment)
    requires DistinctIds(a.positions) && PaymentsReconciled(a) && p in a.positions && q in PositionPayments(a, p)
    ensures Abs(PnlOf()(q) - EntitledByPayment(p)(q)) <= PNL_TOLERANCE
  {
    FilterMembers(a.payments, Is(PositionKey(), p.id));
    OwnPayment(a, p, q);
    hide LegsOf;
    EntitledOf(p, EventOf(q));
  }

  lemma {:induction false} SidesSplit(p: Position, es: seq<Event>)
    ensures SumBy(es, Entitled(p)) ==
            SumBy(Filter(es, OnSide(p, Sell)), CapitalTimesRate(p)) - SumBy(Filter(es, OnSide(p, Buy)), CapitalTimesRate(p))
  {
    hide LegsOf, Filter, SumBy;
    if es == [] {
      NoEvents(p);
    } else {
      var n := |es| - 1;
      var front, e := es[..n], es[n];
      assert es == front + [e];
      SidesSplit(p, front);
      SumSnoc(front, e, Entitled(p));
      FilterSumSnoc(front, e, OnSide(p, Sell), CapitalTimesRate(p));
      FilterSumSnoc(front, e, OnSide(p, Buy), CapitalTimesRate(p));
      OneSide(p, e);
    }
  }

  lemma NoEvents(p: Position)
    ensures SumBy([], Entitled(p)) == SumBy(Filter([], OnSide(p, Sell)), CapitalTimesRate(p)) == 0.0
    ensures SumBy(Filter([], OnSide(p, Buy)), CapitalTimesRate(p)) == 0.0
  {
  }

  lemma OneSide(p: Position, e: Event)
    ensures Entitled(p)(e) == (if OnSide(p, Sell)(e) then CapitalTimesRate(p)(e) else 0.0)
                            - (if OnSide(p, Buy)(e) then CapitalTimesRate(p)(e) else 0.0)
  {
    hide LegsOf;
  }

  /** A clean audit keeps the persisted funding PnL within (n + 1) tolerances of what the raw events of the short legs pay
      the position less what those of its long legs cost it, n being the number of its payments. */
  lemma FundingPnlBound(a: Audit, p: Position)
    requires DistinctIds(a.positions) && LoadedHistory(a) && Clean(a) && p in a.positions
    ensures p.payload.Some? && p.payload.value.fundingPnl.Some?
    ensures var received := SumBy(SideEvents(a, p, Sell), CapitalTimesRate(p));
      var paid := SumBy(SideEvents(a, p, Buy), CapitalTimesRate(p));
      Abs(p.payload.value.fundingPnl.value - (received - paid))
        <= (|PositionPayments(a, p)| + 1) as real * PNL_TOLERANCE
  {
    hide *;
    CleanPosition(a, p);
    PaymentsAreTheHeldEvents(a, p);
    PnlBound(a, p);
    SidesSplit(p, HeldEvents(a, p));
    SidesOf(a, p);
  }

  lemma CleanPosition(a: Audit, p: Position)
    requires DistinctIds(a.positions) && Clean(a) && p in a.positions
    ensures PaymentsReconciled(a) && p.payload.Some? && TotalsReconciled(a, p) && p.payload.value.fundingPnl.Some?
  {
    OkMeansReconciled(a);
    assert PositionReconciled(a, p);
    hide LegReconciled, EventsReconciled, LegsAgree;
  }

  lemma SidesOf(a: Audit, p: Position)
    ensures forall side :: SideEvents(a, p, side) == Filter(HeldEvents(a, p), OnSide(p, side))
  {
  }

  lemma PnlBound(a: Audit, p: Position)
    requires DistinctIds(a.positions) && PaymentsReconciled(a) && p in a.positions
    requires p.payload.Some? && TotalsReconciled(a, p)
    requires multiset(Map(PositionPayments(a, p), ToEvent())) == multiset(HeldEvents(a, p))
    ensures Abs(p.payload.value.fundingPnl.value - SumBy(HeldEvents(a, p), Entitled(p)))
            <= (|PositionPayments(a, p)| + 1) as real * PNL_TOLERANCE
  {
    var qs := PositionPayments(a, p);
    forall q | q in qs ensures Abs(PnlOf()(q) - EntitledByPayment(p)(q)) <= PNL_TOLERANCE {
      EntitledClose(a, p, q);
    }
    SumClose(qs, PnlOf(), EntitledByPayment(p), PNL_TOLERANCE);
    SumMapped(qs, ToEvent(), Entitled(p), EntitledByPayment(p));
    SumReordered(Map(qs, ToEvent()), HeldEvents(a, p), Entitled(p));
  }
}
