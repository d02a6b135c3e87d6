/** Offer negotiation: one price from the buyer, at most one counter from the
    seller, and an agreement that may lead to one booking
    (services/core/cmd/api/offers.go). */
module Offers {
  import opened Common

  datatype Role = Buyer | Seller

  datatype State = Pending | Countered | Agreed | Declined | Withdrawn | Lapsed | Converted

  /** One offer_versions row. */
  datatype Version = Version(amount: int, actor: Role)

  /** The version column always equals the number of version rows. checkout is
      the end of the paying window, set by an agreement and by nothing else. */
  datatype Offer = Offer(
    seller: int, buyer: int, duration: nat, state: State, versions: seq<Version>,
    expires: int, checkout: Option<int>, booking: Option<nat>)

  datatype Action = Counter(amount: int) | Accept | Decline | Withdraw

  const HOUR := 3600
  const MIN_AMOUNT := 100
  const MAX_AMOUNT := 100_000_000

  predicate Supported(amount: int) { MIN_AMOUNT <= amount <= MAX_AMOUNT }

  /** createOffer; None when the amount is outside the supported range. */
  function Create(seller: int, buyer: int, duration: nat, amount: int, now: int): Option<Offer> {
    if duration !in {15, 30, 60} || !Supported(amount) then None
    else Some(Offer(seller, buyer, duration, Pending, [Version(amount, Buyer)], now + 72 * HOUR, None, None))
  }

  predicate Open(o: Offer) { o.state == Pending || o.state == Countered }

  /** What each role may do in which state. */
  predicate Allowed(o: Offer, role: Role, action: Action) {
    match action
    case Counter(amount) => role == Seller && o.state == Pending && |o.versions| == 1 && Supported(amount)
    case Withdraw => o.state == Countered || (role == Buyer && o.state == Pending)
    case _ => if role == Seller then o.state == Pending else o.state == Countered
  }

  function Answered(o: Offer, action: Action, now: int): Offer {
    match action
    case Counter(amount) => o.(state := Countered, versions := o.versions + [Version(amount, Seller)])
    case Accept => o.(state := Agreed, checkout := Some(now + 24 * HOUR))
    case Decline => o.(state := Declined)
    case Withdraw => o.(state := Withdrawn)
  }

  /** offerRespond: the new row, and whether the answer was taken. An open
      offer past its time lapses instead; a stale version is refused. */
  function Respond(o: Offer, role: Role, version: int, action: Action, now: int): (Offer, bool) {
    if Open(o) && o.expires <= now then (o.(state := Lapsed), false)
    else if version != |o.versions| || !Allowed(o, role, action) then (o, false)
    else (Answered(o, action, now), true)
  }

  /** An agreement whose paying window has passed lapses when it is looked at. */
  function Viewed(o: Offer, now: int): Offer {
    if o.state == Agreed && o.checkout.Some? && o.checkout.value <= now then o.(state := Lapsed) else o
  }

  /** The paying window is only ever extended, and only while agreed. */
  function Extended(o: Offer, until: int): Offer {
    if o.state == Agreed && o.checkout.Some? && o.checkout.value < until then o.(checkout := Some(until)) else o
  }

  /** Whether a payment may turn the offer into a booking. */
  predicate Payable(o: Offer) { o.state == Agreed || o.state == Lapsed }

  function Convert(o: Offer, booking: nat): Offer {
    if Payable(o) then o.(state := Converted, booking := Some(booking)) else o
  }

  /** The amount on the table. */
  function Amount(o: Offer): int
    requires o.versions != []
  {
    o.versions[|o.versions| - 1].amount
  }

  /** Had the two sides agreed at some time? */
  predicate WasAgreed(o: Offer) { o.checkout.Some? }

  ghost predicate Ok(o: Offer) {
    && o.duration in {15, 30, 60} && 1 <= |o.versions| <= 2
    && o.versions[0].actor == Buyer
    && (|o.versions| == 2 ==> o.versions[1].actor == Seller)
    && (forall v | v in o.versions :: Supported(v.amount))
    && (o.state == Pending ==> |o.versions| == 1)
    && (o.state == Countered ==> |o.versions| == 2)
    && (o.state in {Agreed, Converted} ==> WasAgreed(o))
    && (WasAgreed(o) ==> o.state in {Agreed, Lapsed, Converted})
    && (o.booking.Some? <==> o.state == Converted)
  }

  /** From one state of an offer to any later one: versions are only added, and
      after an agreement the price, and a booking once there is one, stand. */
  ghost predicate Later(o: Offer, p: Offer) {
    && p.seller == o.seller && p.buyer == o.buyer && p.duration == o.duration
    && o.versions <= p.versions
    && (WasAgreed(o) ==> WasAgreed(p) && p.versions == o.versions)
    && (o.booking.Some? ==> p.booking == o.booking)
  }

  lemma RespondKeeps(o: Offer, role: Role, version: int, action: Action, now: int)
    requires Ok(o)
    ensures var (p, taken) := Respond(o, role, version, action, now); Ok(p) && Later(o, p)
  {}

  /** An agreement comes from the side that did not set the price on the table,
      within its time and knowing that price; only it opens the paying window. */
  lemma AcceptedByTheOther(o: Offer, role: Role, version: int, action: Action, now: int)
    requires Ok(o)
    ensures var (p, taken) := Respond(o, role, version, action, now);
      && (p.state == Agreed && o.state != Agreed <==>
            Open(o) && now < o.expires && action == Accept && version == |o.versions|
            && role != o.versions[|o.versions| - 1].actor)
      && (p.state == Agreed && o.state != Agreed ==> Amount(p) == Amount(o) && p.checkout == Some(now + 24 * HOUR))
      && (WasAgreed(p) && !WasAgreed(o) ==> p.state == Agreed)
  {}

  /** The seller has at most one counteroffer, and nobody else has any. */
  lemma OneCounter(o: Offer, role: Role, version: int, action: Action, now: int)
    requires Ok(o)
    ensures var (p, taken) := Respond(o, role, version, action, now);
      |p.versions| != |o.versions| ==>
        taken && role == Seller && action.Counter? && |o.versions| == 1
        && p.versions == o.versions + [Version(action.amount, Seller)] && p.state == Countered
  {}
}
