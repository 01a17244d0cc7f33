/** The paper funding records and the declarative meaning of every check of the funding audit
    (scripts/funding_payment_audit.py). */
module FundingModel {
  import opened Lists

  const PNL_TOLERANCE := 0.000000000001
  /** Instants and delays are integers in microseconds, the resolution of the records. */
  const SECOND := 1_000_000

  datatype Side = Buy | Sell
  /** One leg of a position's payload; a field that is missing or of the wrong type is None. */
  datatype Leg = Leg(perpetual: bool, exchange: Option<string>, symbol: Option<string>, side: Option<Side>)
  datatype Pair = Pair(exchange: string, symbol: string) {
    function Name(): string { exchange + "|" + symbol }
  }
  type Legs = map<Pair, Side>

  datatype Payload = Payload(
    legA: Option<Leg>, legB: Option<Leg>,
    targets: map<string, int>, settled: map<string, int>,
    fundingEvents: Option<real>, fundingPnl: Option<real>)
  const EMPTY_PAYLOAD := Payload(None, None, map[], map[], None, None)

  datatype Position = Position(
    id: string, openedAt: Option<int>, closedAt: Option<int>, capital: real, payload: Option<Payload>)
  datatype Payment = Payment(
    positionId: string, exchange: string, symbol: string, at: int, rate: real, notional: real, pnl: real)
  datatype Event = Event(exchange: string, symbol: string, at: int, rate: real)
  datatype LegId = LegId(positionId: string, pair: Pair)
  datatype Identity = Identity(leg: LegId, at: int)

  /** The arguments of one audit. */
  datatype Audit = Audit(
    positions: seq<Position>, payments: seq<Payment>, history: seq<Event>,
    observed: int, maxDelay: int, requirePayments: bool)

  // ---------------------------------------------------------------- legs

  datatype LegScan = LegScan(legs: Legs, errors: nat)

  predicate Complete(leg: Leg) {
    leg.exchange.Some? && leg.symbol.Some? && leg.side.Some?
  }

  function AddLeg(scan: LegScan, entry: Option<Leg>): LegScan {
    match entry
    case None => scan.(errors := scan.errors + 1)
    case Some(leg) =>
      if !leg.perpetual then scan
      else if !Complete(leg) then scan.(errors := scan.errors + 1)
      else
        var key := Pair(leg.exchange.value, leg.symbol.value);
        if key in scan.legs && scan.legs[key] != leg.side.value then scan.(errors := scan.errors + 1)
        else scan.(legs := scan.legs[key := leg.side.value])
  }

  function ScanLegs(entries: seq<Option<Leg>>): LegScan {
    if entries == [] then LegScan(map[], 0)
    else AddLeg(ScanLegs(entries[..|entries| - 1]), entries[|entries| - 1])
  }

  function PayloadOf(p: Position): Payload {
    if p.payload.Some? then p.payload.value else EMPTY_PAYLOAD
  }

  function Scan(p: Position): LegScan {
    ScanLegs([PayloadOf(p).legA, PayloadOf(p).legB])
  }

  function LegsOf(p: Position): Legs { Scan(p).legs }

  /** A perpetual leg with every field of the right type, for this pair and side. */
  predicate Names(entry: Option<Leg>, key: Pair, side: Side) {
    entry.Some? && entry.value.perpetual && entry.value ==
      Leg(true, Some(key.exchange), Some(key.symbol), Some(side))
  }

  predicate Sound(entry: Option<Leg>) {
    entry.Some? && (entry.value.perpetual ==> Complete(entry.value))
  }

  /** What the scan of a payload's two legs means: the pairs are those a complete perpetual leg names, leg_a's
      side wins, and there is no error exactly when both legs are sound and do not put one pair on both sides. */
  lemma ScanLegsMeaning(a: Option<Leg>, b: Option<Leg>)
    ensures forall key :: key in ScanLegs([a, b]).legs <==> exists side :: Names(a, key, side) || Names(b, key, side)
    ensures forall key, side :: Names(a, key, side) || (Names(b, key, side) && forall other :: !Names(a, key, other)) ==>
              key in ScanLegs([a, b]).legs && ScanLegs([a, b]).legs[key] == side
    ensures ScanLegs([a, b]).errors == 0 <==>
              && Sound(a) && Sound(b)
              && forall key, side, other :: Names(a, key, side) && Names(b, key, other) ==> side == other
  {
    assert [a, b][..1] == [a] && [a][..0] == [];
    var first := AddLeg(LegScan(map[], 0), a);
    assert ScanLegs([a]) == first;
    assert ScanLegs([a, b]) == AddLeg(first, b);
    forall key | key in first.legs ensures Names(a, key, first.legs[key]) {
    }
    forall key | key in ScanLegs([a, b]).legs
      ensures Names(a, key, ScanLegs([a, b]).legs[key]) || Names(b, key, ScanLegs([a, b]).legs[key])
    {
    }
    if first.errors == 0 && ScanLegs([a, b]).errors != 0 && Sound(b) {
      var leg := b.value;
      var key := Pair(leg.exchange.value, leg.symbol.value);
      assert Names(a, key, first.legs[key]) && Names(b, key, leg.side.value);
    }
  }

  // ---------------------------------------------------------------- lookups

  /** The last position with this id, as a dictionary filled in order keeps it. */
  function PositionFor(ps: seq<Position>, id: string): Option<Position> {
    if ps == [] then None
    else if ps[|ps| - 1].id == id then Some(ps[|ps| - 1])
    else PositionFor(ps[..|ps| - 1], id)
  }

  function LegsFor(ps: seq<Position>, id: string): Legs {
    var p := PositionFor(ps, id);
    if p.Some? then LegsOf(p.value) else map[]
  }

  function TargetOf(p: Position, pair: Pair): Option<int> {
    if pair in LegsOf(p) then Lookup(PayloadOf(p).targets, pair.Name()) else None
  }

  function TargetFor(ps: seq<Position>, leg: LegId): Option<int> {
    if ps == [] then None
    else
      var last := ps[|ps| - 1];
      if last.id == leg.positionId && TargetOf(last, leg.pair).Some? then TargetOf(last, leg.pair)
      else TargetFor(ps[..|ps| - 1], leg)
  }

  function IdOf(): Position -> string { (p: Position) => p.id }

  /** The position table's id column is unique. */
  predicate DistinctIds(ps: seq<Position>) { DistinctBy(ps, IdOf()) }

  lemma {:induction false} PositionForFound(ps: seq<Position>, id: string)
    ensures PositionFor(ps, id).Some? ==> PositionFor(ps, id).value in ps && PositionFor(ps, id).value.id == id
    ensures PositionFor(ps, id).None? ==> forall p :: p in ps ==> p.id != id
  {
    if ps != [] {
      PositionForFound(ps[..|ps| - 1], id);
      assert ps == ps[..|ps| - 1] + [ps[|ps| - 1]];
    }
  }

  /** With distinct ids the dictionaries give back each position, its legs and its targets. */
  lemma {:induction false} DistinctLookups(ps: seq<Position>, p: Position)
    requires DistinctIds(ps) && p in ps
    ensures PositionFor(ps, p.id) == Some(p)
    ensures LegsFor(ps, p.id) == LegsOf(p)
    ensures forall pair :: TargetFor(ps, LegId(p.id, pair)) == TargetOf(p, pair)
  {
    var n := |ps| - 1;
    assert ps == ps[..n] + [ps[n]];
    if p == ps[n] {
      forall pair ensures TargetFor(ps, LegId(p.id, pair)) == TargetOf(p, pair) {
        if TargetOf(p, pair).None? {
          NoTarget(ps[..n], LegId(p.id, pair));
        }
      }
    } else {
      DistinctLookups(ps[..n], p);
    }
  }

  lemma {:induction false} NoTarget(ps: seq<Position>, leg: LegId)
    requires forall p :: p in ps ==> p.id != leg.positionId
    ensures TargetFor(ps, leg).None?
  {
    if ps != [] {
      NoTarget(ps[..|ps| - 1], leg);
    }
  }

  // ---------------------------------------------------------------- payments

  function PairOf(q: Payment): Pair { Pair(q.exchange, q.symbol) }

  function EventPair(e: Event): Pair { Pair(e.exchange, e.symbol) }

  function EventOf(q: Payment): Event { Event(q.exchange, q.symbol, q.at, q.rate) }

  function IdentityOf(q: Payment): Identity { Identity(LegId(q.positionId, PairOf(q)), q.at) }

  function IdentityKey(): Payment -> Identity { (q: Payment) => IdentityOf(q) }

  function Identities(payments: seq<Payment>): set<Identity> { KeySet(payments, IdentityKey()) }

  /** A long pays a positive rate, a short receives it. */
  function Signed(side: Side, notional: real, rate: real): real {
    if side.Buy? then Times(-notional, rate) else Times(notional, rate)
  }

  function PnlError(a: Audit, q: Payment): real {
    var legs := LegsFor(a.positions, q.positionId);
    if PairOf(q) in legs then Abs(q.pnl - Signed(legs[PairOf(q)], q.notional, q.rate)) else 0.0
  }

  datatype PaymentCheck = Orphan | LegMatch | PaymentPnl | ExactHistory | BeforeOpen | AfterClose | Notional

  /** What it means for one payment to fail one check. */
  predicate PaymentViolates(a: Audit, c: PaymentCheck, q: Payment) {
    var owner := PositionFor(a.positions, q.positionId);
    if owner.None? then c.Orphan?
    else
      match c
      case Orphan => false
      case LegMatch => PairOf(q) !in LegsOf(owner.value)
      case PaymentPnl => PnlError(a, q) > PNL_TOLERANCE
      case ExactHistory => EventOf(q) !in a.history
      case BeforeOpen => owner.value.openedAt.None? || q.at <= owner.value.openedAt.value
      case AfterClose => owner.value.closedAt.Some? && q.at > owner.value.closedAt.value
      case Notional => q.notional != owner.value.capital
  }

  function PaymentTest(a: Audit, c: PaymentCheck): Payment -> bool { q => PaymentViolates(a, c, q) }

  /** The number of payments that fail a check. */
  function PaymentCount(a: Audit, c: PaymentCheck, qs: seq<Payment>): nat {
    |Filter(qs, PaymentTest(a, c))|
  }

  function PositionKey(): Payment -> string { (q: Payment) => q.positionId }

  function LegKey(): Payment -> LegId { (q: Payment) => LegId(q.positionId, PairOf(q)) }

  function PairKey(): Event -> Pair { (e: Event) => EventPair(e) }

  function NotBefore(t: int): Payment -> bool { (q: Payment) => q.at >= t }

  function PnlOf(): Payment -> real { (q: Payment) => q.pnl }

  function Earliest(qs: seq<Payment>): (t: int)
    requires qs != []
    ensures exists q :: q in qs && q.at == t
    ensures forall q :: q in qs ==> t <= q.at
  {
    var last := qs[|qs| - 1];
    assert qs == qs[..|qs| - 1] + [last];
    if |qs| == 1 then last.at else MinInt(Earliest(qs[..|qs| - 1]), last.at)
  }

  function Latest(qs: seq<Payment>): (t: int)
    requires qs != []
    ensures exists q :: q in qs && q.at == t
    ensures forall q :: q in qs ==> q.at <= t
  {
    var last := qs[|qs| - 1];
    assert qs == qs[..|qs| - 1] + [last];
    if |qs| == 1 then last.at else MaxInt(Latest(qs[..|qs| - 1]), last.at)
  }

  // ---------------------------------------------------------------- positions

  function PositionPayments(a: Audit, p: Position): seq<Payment> { Filter(a.payments, Is(PositionKey(), p.id)) }

  function LegPayments(a: Audit, p: Position, pair: Pair): seq<Payment> {
    Filter(a.payments, Is(LegKey(), LegId(p.id, pair)))
  }

  /** The last instant whose funding event the position must have been paid for. */
  function EffectiveEnd(a: Audit, p: Position): int {
    if p.closedAt.Some? then MinInt(a.observed, p.closedAt.value) else a.observed
  }

  /** The leg's first target lies in the holding interval and its grace period is over. */
  predicate Due(a: Audit, p: Position, pair: Pair) {
    var target := TargetFor(a.positions, LegId(p.id, pair));
    p.openedAt.Some? && target.Some? && p.openedAt.value < target.value <= EffectiveEnd(a, p) - a.maxDelay * SECOND
  }

  /** The leg's payments at or after its target. */
  function AfterTarget(a: Audit, p: Position, pair: Pair): seq<Payment> {
    var target := TargetFor(a.positions, LegId(p.id, pair));
    if target.None? then [] else Filter(LegPayments(a, p, pair), NotBefore(target.value))
  }

  function TargetDelay(a: Audit, p: Position, pair: Pair): int
    requires AfterTarget(a, p, pair) != []
  {
    Earliest(AfterTarget(a, p, pair)) - TargetFor(a.positions, LegId(p.id, pair)).value
  }

  function ExpectedMarker(a: Audit, p: Position, pair: Pair): Option<int> {
    var qs := LegPayments(a, p, pair);
    if qs == [] then None else Some(Latest(qs))
  }

  /** A raw event inside the position's holding interval. */
  predicate Held(a: Audit, p: Position, e: Event) {
    p.openedAt.Some? && EventPair(e) in LegsFor(a.positions, p.id) && p.openedAt.value < e.at <= EffectiveEnd(a, p)
  }

  function Unpaid(a: Audit, p: Position): Event -> bool {
    e => Held(a, p, e) && Identity(LegId(p.id, EventPair(e)), e.at) !in Identities(a.payments)
  }

  function PositionPnl(a: Audit, p: Position): real { SumBy(PositionPayments(a, p), PnlOf()) }

  datatype PositionCheck =
    PayloadValid | TargetPresent | TargetAfterOpen |
    EventsPaid | TargetPaid | TargetInTime | Marker | EventCount | FundingTotal

  /** What it means for one perpetual leg of a position to fail one check. */
  predicate LegViolates(a: Audit, c: PositionCheck, p: Position, pair: Pair) {
    match c
    case TargetPresent => TargetOf(p, pair).None?
    case TargetAfterOpen => TargetOf(p, pair).Some? && p.openedAt.Some? && TargetOf(p, pair).value <= p.openedAt.value
    case TargetPaid => Due(a, p, pair) && AfterTarget(a, p, pair) == []
    case TargetInTime => Due(a, p, pair) && AfterTarget(a, p, pair) != [] && TargetDelay(a, p, pair) > a.maxDelay * SECOND
    case Marker => Lookup(PayloadOf(p).settled, pair.Name()) != ExpectedMarker(a, p, pair)
    case _ => false
  }

  function LegTest(a: Audit, c: PositionCheck, p: Position): Pair -> bool { pair => LegViolates(a, c, p, pair) }

  /** How much one position adds to the counter of one check. */
  function Tally(a: Audit, c: PositionCheck, p: Position): nat {
    match c
    case PayloadValid => Scan(p).errors + (if p.payload.None? then 1 else 0) + (if p.openedAt.None? then 1 else 0)
    case TargetPresent => |Keep(LegsOf(p).Keys, LegTest(a, c, p))|
    case TargetAfterOpen => |Keep(LegsOf(p).Keys, LegTest(a, c, p))|
    case EventsPaid => |Filter(a.history, Unpaid(a, p))|
    case EventCount => if PayloadOf(p).fundingEvents == Some(|PositionPayments(a, p)| as real) then 0 else 1
    case FundingTotal =>
      if PayloadOf(p).fundingPnl.Some? && Abs(PayloadOf(p).fundingPnl.value - PositionPnl(a, p)) <= PNL_TOLERANCE
      then 0 else 1
    case _ => |Keep(LegsFor(a.positions, p.id).Keys, LegTest(a, c, p))|
  }

  function Total(a: Audit, c: PositionCheck, ps: seq<Position>): nat {
    if ps == [] then 0 else Total(a, c, ps[..|ps| - 1]) + Tally(a, c, ps[|ps| - 1])
  }

  // ---------------------------------------------------------------- report

  datatype Report = Report(
    ok: bool,
    payloadErrors: nat, missingTargets: nat, targetsNotAfterOpen: nat,
    orphans: nat, legMismatches: nat, historyMismatches: nat, beforeOpen: nat, afterClose: nat,
    notionalMismatches: nat, pnlMismatches: nat,
    unpaidEvents: nat, unpaidTargets: nat, lateTargets: nat,
    markerMismatches: nat, eventCountMismatches: nat, totalMismatches: nat,
    duplicates: nat)

  function Duplicates(payments: seq<Payment>): int { |payments| - |Identities(payments)| }

  /** Every counter of the report, as the number of violations of its check. */
  predicate Counts(a: Audit, r: Report) {
    && r.payloadErrors == Total(a, PayloadValid, a.positions)
    && r.missingTargets == Total(a, TargetPresent, a.positions)
    && r.targetsNotAfterOpen == Total(a, TargetAfterOpen, a.positions)
    && r.orphans == PaymentCount(a, Orphan, a.payments)
    && r.legMismatches == PaymentCount(a, LegMatch, a.payments)
    && r.historyMismatches == PaymentCount(a, ExactHistory, a.payments)
    && r.beforeOpen == PaymentCount(a, BeforeOpen, a.payments)
    && r.afterClose == PaymentCount(a, AfterClose, a.payments)
    && r.notionalMismatches == PaymentCount(a, Notional, a.payments)
    && r.pnlMismatches == PaymentCount(a, PaymentPnl, a.payments)
    && r.unpaidEvents == Total(a, EventsPaid, a.positions)
    && r.unpaidTargets == Total(a, TargetPaid, a.positions)
    && r.lateTargets == Total(a, TargetInTime, a.positions)
    && r.markerMismatches == Total(a, Marker, a.positions)
    && r.eventCountMismatches == Total(a, EventCount, a.positions)
    && r.totalMismatches == Total(a, FundingTotal, a.positions)
    && r.duplicates == Duplicates(a.payments)
  }

  predicate PaymentChecksClean(a: Audit) {
    forall c :: PaymentCount(a, c, a.payments) == 0
  }

  predicate PositionChecksClean(a: Audit) {
    forall c :: Total(a, c, a.positions) == 0
  }

  /** The verdict of the report: every check is clean. */
  predicate Clean(a: Audit) {
    && (!a.requirePayments || a.payments != [])
    && PaymentChecksClean(a)
    && PositionChecksClean(a)
    && Duplicates(a.payments) == 0
  }
}
