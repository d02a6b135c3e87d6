/** A seller's diary: quotes, each with the reservation of its time, and the
    statements that hold, release, extend, reclaim and confirm them
    (services/core/cmd/api/quotes.go, holds.go, unbooked.go,
    services/core/internal/store/holds.sql.go, payments.sql.go). */
module Diary {
  import opened Common
  import Offers

  datatype QuoteState = Held | Expired | Converted

  /** A slot_reservations row: a booking when it names one, a hold otherwise. */
  datatype Slot = Slot(from: int, to: int, active: bool, booking: Option<nat>, expires: int)

  /** A quotes row with its reservation; quote_id is unique among reservations
      and every quote is inserted together with one. Times are in seconds. */
  datatype Quote = Quote(
    seller: int, buyer: int, offer: Option<nat>, duration: nat, starts: int, gross: int,
    state: QuoteState, expires: int, slot: Slot)

  const MINUTE := 60
  const SELECTION_HOLD := 10 * MINUTE
  const MAX_HOLDS := 3

  predicate Overlap(from: int, to: int, from': int, to': int) { from < to' && from' < to }

  predicate Clash(a: Quote, b: Quote) {
    a.seller == b.seller && a.slot.active && b.slot.active && Overlap(a.slot.from, a.slot.to, b.slot.from, b.slot.to)
  }

  /** The exclusion constraint on active reservations. */
  ghost predicate Disjoint(qs: seq<Quote>) {
    forall i, j | 0 <= i < j < |qs| :: !Clash(qs[i], qs[j])
  }

  /** Whether giving row i this value would violate it. */
  predicate Conflicts(qs: seq<Quote>, i: nat, q: Quote) {
    exists j :: 0 <= j < |qs| && j != i && Clash(qs[j], q)
  }

  predicate IsHold(q: Quote) { q.slot.active && q.slot.booking.None? }

  function SlotEnd(starts: int, duration: nat, buffer: nat): int { starts + (duration + buffer) * MINUTE }

  // ---- statements that let go of holds, row by row ----

  function LetGo(q: Quote): Quote {
    q.(slot := q.slot.(active := false), state := if q.state == Held then Expired else q.state)
  }

  /** releaseExpiredHolds, for a range of the seller's time. */
  function FreeLapsed(q: Quote, seller: int, from: int, to: int, now: int): Quote {
    if q.seller == seller && IsHold(q) && q.slot.expires <= now && Overlap(q.slot.from, q.slot.to, from, to)
    then LetGo(q) else q
  }

  /** Marks a quote expired once its time has passed. */
  function Lapse(q: Quote, applies: bool, now: int): Quote {
    if applies && q.state == Held && q.expires <= now then q.(state := Expired) else q
  }

  /** The buyer's earlier holds with the seller, unless paying has begun. */
  function Replaced(q: Quote, buyer: int, seller: int, paying: bool): Quote {
    if q.buyer == buyer && q.seller == seller && q.state == Held && IsHold(q) && !paying then LetGo(q) else q
  }

  /** The reservations of an offer's expired quotes. */
  function FreeOffer(q: Quote, offer: nat): Quote {
    if q.offer == Some(offer) && q.state == Expired && IsHold(q) then q.(slot := q.slot.(active := false)) else q
  }

  /** getQuote on an overdue quote. */
  function Viewed(q: Quote, now: int): Quote {
    if q.state == Held && q.expires <= now
    then q.(state := Expired, slot := if IsHold(q) then q.slot.(active := false) else q.slot) else q
  }

  function Rows(qs: seq<Quote>, f: (nat, Quote) -> Quote): (r: seq<Quote>)
    ensures |r| == |qs| && forall i | 0 <= i < |qs| :: r[i] == f(i, qs[i])
  {
    seq(|qs|, i requires 0 <= i < |qs| => f(i, qs[i]))
  }

  function FreeLapsedHolds(qs: seq<Quote>, seller: int, from: int, to: int, now: int): seq<Quote> {
    Rows(qs, (i, q: Quote) => FreeLapsed(q, seller, from, to, now))
  }

  function LapseOfSeller(qs: seq<Quote>, seller: int, now: int): seq<Quote> {
    Rows(qs, (i, q: Quote) => Lapse(q, q.seller == seller, now))
  }

  function LapseOfOffer(qs: seq<Quote>, offer: nat, now: int): seq<Quote> {
    Rows(qs, (i, q: Quote) => Lapse(q, q.offer == Some(offer), now))
  }

  function FreeOfOffer(qs: seq<Quote>, offer: nat): seq<Quote> {
    Rows(qs, (i, q: Quote) => FreeOffer(q, offer))
  }

  /** paying: the quotes that have a payment attempt. */
  function ReplaceHolds(qs: seq<Quote>, buyer: int, seller: int, paying: set<int>): seq<Quote> {
    Rows(qs, (i, q: Quote) => Replaced(q, buyer, seller, i in paying))
  }

  /** countBuyerActiveHolds */
  predicate Counts(q: Quote, buyer: int, now: int) {
    q.buyer == buyer && q.state == Held && IsHold(q) && q.slot.expires > now
  }

  function HoldsOf(qs: seq<Quote>, buyer: int, now: int): nat {
    if qs == [] then 0
    else HoldsOf(qs[..|qs| - 1], buyer, now) + (if Counts(qs[|qs| - 1], buyer, now) then 1 else 0)
  }

  // ---- new holds ----

  function NewQuote(seller: int, buyer: int, offer: Option<nat>, starts: int, duration: nat, gross: int, buffer: nat, now: int): Quote {
    Quote(seller, buyer, offer, duration, starts, gross, Held, now + SELECTION_HOLD,
      Slot(starts, SlotEnd(starts, duration, buffer), true, None, now + SELECTION_HOLD))
  }

  /** Inserts quote and reservation, unless somebody else has the time. */
  function Insert(qs: seq<Quote>, q: Quote): Option<seq<Quote>> {
    if Conflicts(qs, |qs|, q) then None else Some(qs + [q])
  }

  /** createQuote, once seller, price and time have been checked. */
  function CreateQuote(qs: seq<Quote>, paying: set<int>, seller: int, buyer: int, starts: int, duration: nat, gross: int, buffer: nat, now: int): Option<seq<Quote>> {
    var mine := ReplaceHolds(qs, buyer, seller, paying);
    if HoldsOf(mine, buyer, now) >= MAX_HOLDS then None
    else
      var free := FreeLapsedHolds(LapseOfSeller(mine, seller, now), seller, starts, SlotEnd(starts, duration, buffer), now);
      Insert(free, NewQuote(seller, buyer, None, starts, duration, gross, buffer, now))
  }

  /** A held, unexpired quote of the offer still has its time. */
  predicate CheckoutActive(qs: seq<Quote>, offer: nat, now: int) {
    exists i :: 0 <= i < |qs| && qs[i].offer == Some(offer) && qs[i].state == Held && qs[i].expires > now && qs[i].slot.active
  }

  /** createOfferQuote, once the offer and the time have been checked. */
  function CreateOfferQuote(qs: seq<Quote>, paying: set<int>, id: nat, o: Offers.Offer, starts: int, gross: int, buffer: nat, now: int): Option<seq<Quote>> {
    if CheckoutActive(qs, id, now) then None
    else
      var released := FreeOfOffer(LapseOfOffer(qs, id, now), id);
      var free := FreeLapsedHolds(released, o.seller, starts, SlotEnd(starts, o.duration, buffer), now);
      var mine := ReplaceHolds(free, o.buyer, o.seller, paying);
      if HoldsOf(mine, o.buyer, now) >= MAX_HOLDS then None
      else Insert(mine, NewQuote(o.seller, o.buyer, Some(id), starts, o.duration, gross, buffer, now))
  }

  // ---- one quote's time ----

  function Later(a: int, b: int): int { if a < b then b else a }

  /** extendCheckoutHold; None when the hold has lapsed. */
  function Extend(q: Quote, until: int, now: int): Option<Quote> {
    if q.state != Held || q.expires <= now || !IsHold(q) || q.slot.expires <= now then None
    else Some(q.(expires := Later(q.expires, until), slot := q.slot.(expires := Later(q.slot.expires, until))))
  }

  /** Whether the hold lapsed before the money arrived. */
  predicate Lapsed(q: Quote, now: int) {
    q.state != Held || q.expires <= now || !q.slot.active || q.slot.booking.Some? || q.slot.expires <= now
  }

  function Reclaimed(q: Quote, now: int): Quote {
    q.(state := Held, expires := now + SELECTION_HOLD, slot := q.slot.(active := true, expires := now + SELECTION_HOLD))
  }

  /** reclaimLateSlot: a late payment still gets its time if it lies ahead,
      inside the seller's hours (valid) and in nobody else's reservation. */
  predicate MayReclaim(qs: seq<Quote>, i: nat, valid: bool, now: int)
    requires i < |qs|
  {
    && qs[i].state != Converted && qs[i].slot.booking.None?
    && qs[i].starts > now + 5 * MINUTE && valid
    && !Conflicts(qs, i, Reclaimed(qs[i], now))
  }

  datatype Claim = Taken | Unavailable | Closed | Ours

  /** The part of applyVerifiedCharge that secures the time of quote i: the
      diary afterwards, and whether the booking may be made. */
  function ClaimSlot(qs: seq<Quote>, offers: seq<Offers.Offer>, i: nat, valid: bool, available: bool, now: int): (seq<Quote>, Claim)
    requires i < |qs|
  {
    if Lapsed(qs[i], now) && !MayReclaim(qs, i, valid, now) then (qs, Taken)
    else
      var claimed := if Lapsed(qs[i], now) then qs[i := Reclaimed(qs[i], now)] else qs;
      var offer := qs[i].offer;
      if !available then (claimed, Unavailable)
      else if offer.Some? && (offer.value >= |offers| || !Offers.Payable(offers[offer.value])) then (claimed, Closed)
      else (claimed, Ours)
  }

  /** ConvertQuote and ConfirmHoldAsBooking. */
  function Confirm(q: Quote, booking: nat): Quote {
    q.(state := Converted, slot := if q.slot.active then q.slot.(booking := Some(booking)) else q.slot)
  }

  /** ReleaseBookingSlot */
  function Cancelled(q: Quote): Quote { q.(slot := q.slot.(active := false)) }

  function Moved(q: Quote, starts: int, buffer: nat): Quote {
    q.(slot := q.slot.(from := starts, to := SlotEnd(starts, q.duration, buffer)))
  }

  /** respondReschedule: release lapsed holds on the new time, then move. */
  function Move(qs: seq<Quote>, i: nat, starts: int, buffer: nat, now: int): Option<seq<Quote>>
    requires i < |qs|
  {
    var free := FreeLapsedHolds(qs, qs[i].seller, starts, SlotEnd(starts, qs[i].duration, buffer), now);
    if !free[i].slot.active || Conflicts(free, i, Moved(free[i], starts, buffer)) then None
    else Some(free[i := Moved(free[i], starts, buffer)])
  }

  // ---- what every statement keeps ----

  /** One quote and its reservation: a held, unexpired quote has an active hold;
      a hold covers the quoted time and expires with its quote; exactly a
      converted quote's reservation is a booking. */
  ghost predicate QuoteOk(q: Quote, now: int) {
    && q.duration > 0 && q.slot.from < q.slot.to
    && (q.slot.booking.None? ==>
          && q.slot.from == q.starts && q.slot.to >= q.starts + q.duration * MINUTE
          && q.slot.expires == q.expires)
    && (q.state == Held && q.expires > now ==> q.slot.active)
    && (q.state == Converted <==> q.slot.booking.Some?)
  }

  ghost predicate DiaryOk(qs: seq<Quote>, now: int) {
    && Disjoint(qs)
    && (forall i | 0 <= i < |qs| :: QuoteOk(qs[i], now))
  }

  /** Letting go: bookings stay, holds may only be given up. */
  ghost predicate Relaxes(q: Quote, r: Quote) {
    && r == q.(state := r.state, slot := q.slot.(active := r.slot.active))
    && (r.slot.active ==> q.slot.active)
    && (q.slot.booking.Some? ==> r == q)
    && (r.state != q.state ==> q.state == Held && r.state == Expired)
  }

  ghost predicate Relaxed(qs: seq<Quote>, rs: seq<Quote>) {
    |rs| == |qs| && forall i | 0 <= i < |qs| :: Relaxes(qs[i], rs[i])
  }

  lemma RelaxedTrans(qs: seq<Quote>, rs: seq<Quote>, ts: seq<Quote>)
    requires Relaxed(qs, rs) && Relaxed(rs, ts)
    ensures Relaxed(qs, ts)
  {}

  // Each statement that lets holds go keeps the diary.

  lemma FreeLapsedRelaxes(qs: seq<Quote>, seller: int, from: int, to: int, now: int)
    requires DiaryOk(qs, now)
    ensures var rs := FreeLapsedHolds(qs, seller, from, to, now); Relaxed(qs, rs) && DiaryOk(rs, now)
  {}

  lemma LapseRelaxes(qs: seq<Quote>, seller: int, offer: nat, now: int)
    requires DiaryOk(qs, now)
    ensures var rs := LapseOfSeller(qs, seller, now); Relaxed(qs, rs) && DiaryOk(rs, now)
    ensures var rs := LapseOfOffer(qs, offer, now); Relaxed(qs, rs) && DiaryOk(rs, now)
  {}

  lemma FreeOfferRelaxes(qs: seq<Quote>, offer: nat, now: int)
    requires DiaryOk(qs, now)
    ensures var rs := FreeOfOffer(qs, offer); Relaxed(qs, rs) && DiaryOk(rs, now)
  {}

  lemma ReplaceRelaxes(qs: seq<Quote>, buyer: int, seller: int, paying: set<int>, now: int)
    requires DiaryOk(qs, now)
    ensures var rs := ReplaceHolds(qs, buyer, seller, paying); Relaxed(qs, rs) && DiaryOk(rs, now)
  {}

  /** Time passing only ends holds. */
  lemma TimePasses(qs: seq<Quote>, now: int, later: int)
    requires DiaryOk(qs, now) && now <= later
    ensures DiaryOk(qs, later)
  {}

  /** Changing one row into one that fits. */
  lemma UpdateKeeps(qs: seq<Quote>, i: nat, q: Quote, now: int)
    requires DiaryOk(qs, now) && i < |qs| && QuoteOk(q, now) && !Conflicts(qs, i, q)
    ensures DiaryOk(qs[i := q], now)
  {}

  lemma InsertKeeps(qs: seq<Quote>, q: Quote, now: int)
    requires DiaryOk(qs, now) && QuoteOk(q, now) && Insert(qs, q).Some?
    ensures DiaryOk(qs + [q], now)
  {}

  // ---- the operations ----

  lemma CreateQuoteKeeps(qs: seq<Quote>, paying: set<int>, seller: int, buyer: int, starts: int, duration: nat, gross: int, buffer: nat, now: int)
    requires DiaryOk(qs, now) && duration > 0
    ensures var r := CreateQuote(qs, paying, seller, buyer, starts, duration, gross, buffer, now);
      r.Some? ==>
        && DiaryOk(r.value, now) && |r.value| == |qs| + 1 && Relaxed(qs, r.value[..|qs|])
        && r.value[|qs|] == NewQuote(seller, buyer, None, starts, duration, gross, buffer, now)
  {
    hide DiaryOk, Relaxed, ReplaceHolds, LapseOfSeller, FreeLapsedHolds;
    var to := SlotEnd(starts, duration, buffer);
    var mine := ReplaceHolds(qs, buyer, seller, paying);
    ReplaceRelaxes(qs, buyer, seller, paying, now);
    var lapsed := LapseOfSeller(mine, seller, now);
    LapseRelaxes(mine, seller, 0, now);
    var free := FreeLapsedHolds(lapsed, seller, starts, to, now);
    FreeLapsedRelaxes(lapsed, seller, starts, to, now);
    RelaxedTrans(qs, mine, lapsed);
    RelaxedTrans(qs, lapsed, free);
    Inserted(qs, free, NewQuote(seller, buyer, None, starts, duration, gross, buffer, now), now);
  }

  lemma Inserted(qs: seq<Quote>, free: seq<Quote>, q: Quote, now: int)
    requires DiaryOk(free, now) && Relaxed(qs, free) && QuoteOk(q, now)
    ensures var r := Insert(free, q);
      r.Some? ==> DiaryOk(r.value, now) && |r.value| == |qs| + 1 && Relaxed(qs, r.value[..|qs|]) && r.value[|qs|] == q
  {}

  lemma CreateOfferQuoteKeeps(qs: seq<Quote>, paying: set<int>, id: nat, o: Offers.Offer, starts: int, gross: int, buffer: nat, now: int)
    requires DiaryOk(qs, now) && o.duration > 0
    ensures var r := CreateOfferQuote(qs, paying, id, o, starts, gross, buffer, now);
      r.Some? ==>
        && DiaryOk(r.value, now) && |r.value| == |qs| + 1 && Relaxed(qs, r.value[..|qs|])
        && r.value[|qs|] == NewQuote(o.seller, o.buyer, Some(id), starts, o.duration, gross, buffer, now)
  {
    hide DiaryOk, Relaxed, ReplaceHolds, LapseOfOffer, FreeOfOffer, FreeLapsedHolds;
    var to := SlotEnd(starts, o.duration, buffer);
    var lapsed := LapseOfOffer(qs, id, now);
    LapseRelaxes(qs, 0, id, now);
    var released := FreeOfOffer(lapsed, id);
    FreeOfferRelaxes(lapsed, id, now);
    var free := FreeLapsedHolds(released, o.seller, starts, to, now);
    FreeLapsedRelaxes(released, o.seller, starts, to, now);
    var mine := ReplaceHolds(free, o.buyer, o.seller, paying);
    ReplaceRelaxes(free, o.buyer, o.seller, paying, now);
    RelaxedTrans(qs, lapsed, released);
    RelaxedTrans(qs, released, free);
    RelaxedTrans(qs, free, mine);
    Inserted(qs, mine, NewQuote(o.seller, o.buyer, Some(id), starts, o.duration, gross, buffer, now), now);
  }

  /** A held, unexpired quote can always be extended: its hold is there. */
  lemma ExtendKeeps(qs: seq<Quote>, i: nat, until: int, now: int)
    requires DiaryOk(qs, now) && i < |qs|
    ensures var r := Extend(qs[i], until, now);
      && (r.Some? <==> qs[i].state == Held && qs[i].expires > now)
      && (r.Some? ==> DiaryOk(qs[i := r.value], now))
  {}

  lemma ViewKeeps(qs: seq<Quote>, i: nat, now: int)
    requires DiaryOk(qs, now) && i < |qs|
    ensures DiaryOk(qs[i := Viewed(qs[i], now)], now) && Relaxes(qs[i], Viewed(qs[i], now))
  {}

  /** Securing a paid quote's time keeps the diary; when it is ours, the quote
      is held with an active hold on exactly its own time. */
  lemma ClaimKeeps(qs: seq<Quote>, offers: seq<Offers.Offer>, i: nat, valid: bool, available: bool, now: int)
    requires DiaryOk(qs, now) && i < |qs|
    ensures var (rs, claim) := ClaimSlot(qs, offers, i, valid, available, now);
      && DiaryOk(rs, now) && rs == qs[i := rs[i]]
      && (rs[i] == qs[i] || (qs[i].slot.booking.None? && rs[i] == Reclaimed(qs[i], now)))
      && (claim == Ours ==> rs[i].state == Held && IsHold(rs[i]) && rs[i].slot.from == rs[i].starts)
  {}

  lemma ConfirmKeeps(qs: seq<Quote>, i: nat, booking: nat, now: int)
    requires DiaryOk(qs, now) && i < |qs| && qs[i].state == Held && IsHold(qs[i])
    ensures DiaryOk(qs[i := Confirm(qs[i], booking)], now)
  {}

  lemma CancelKeeps(qs: seq<Quote>, i: nat, now: int)
    requires DiaryOk(qs, now) && i < |qs| && qs[i].slot.booking.Some?
    ensures DiaryOk(qs[i := Cancelled(qs[i])], now)
  {}

  lemma MoveKeeps(qs: seq<Quote>, i: nat, starts: int, buffer: nat, now: int)
    requires DiaryOk(qs, now) && i < |qs| && qs[i].slot.booking.Some?
    ensures var r := Move(qs, i, starts, buffer, now);
      r.Some? ==>
        && DiaryOk(r.value, now) && |r.value| == |qs|
        && qs[i].slot.active && r.value[i] == Moved(qs[i], starts, buffer)
        && (forall j | 0 <= j < |qs| && j != i :: Relaxes(qs[j], r.value[j]))
  {}

  // ---- how many holds a buyer has ----

  /** Rows that count later counted before, so there were at least as many. */
  lemma {:induction false} FewerHolds(qs: seq<Quote>, rs: seq<Quote>, buyer: int, now: int, later: int)
    requires |rs| == |qs| && forall i | 0 <= i < |qs| :: Counts(rs[i], buyer, later) ==> Counts(qs[i], buyer, now)
    ensures HoldsOf(rs, buyer, later) <= HoldsOf(qs, buyer, now)
  {
    if qs != [] {
      var n := |qs| - 1;
      assert Counts(rs[n], buyer, later) ==> Counts(qs[n], buyer, now);
      FewerHolds(qs[..n], rs[..n], buyer, now, later);
    }
  }

  lemma FewerWhenRelaxed(qs: seq<Quote>, rs: seq<Quote>, buyer: int, now: int)
    requires Relaxed(qs, rs)
    ensures HoldsOf(rs, buyer, now) <= HoldsOf(qs, buyer, now)
  {
    forall i | 0 <= i < |qs| ensures Counts(rs[i], buyer, now) ==> Counts(qs[i], buyer, now) {
      assert Relaxes(qs[i], rs[i]);
    }
    FewerHolds(qs, rs, buyer, now, now);
  }

  /** Changing one row changes the count by that row alone. */
  lemma {:induction false} HoldsUpdate(qs: seq<Quote>, i: nat, q: Quote, buyer: int, now: int)
    requires i < |qs|
    ensures HoldsOf(qs[i := q], buyer, now)
         == HoldsOf(qs, buyer, now) - (if Counts(qs[i], buyer, now) then 1 else 0) + (if Counts(q, buyer, now) then 1 else 0)
  {
    var n := |qs| - 1;
    if i == n {
      assert qs[i := q][..n] == qs[..n];
    } else {
      HoldsUpdate(qs[..n], i, q, buyer, now);
      assert qs[i := q][..n] == qs[..n][i := q];
    }
  }

  lemma HoldsSnoc(qs: seq<Quote>, q: Quote, buyer: int, now: int)
    ensures HoldsOf(qs + [q], buyer, now) == HoldsOf(qs, buyer, now) + (if Counts(q, buyer, now) then 1 else 0)
  {
    assert (qs + [q])[..|qs|] == qs;
  }

  /** Right after a time was held, its buyer has at most three holds, and no
      other buyer has more than before. */
  lemma AtMostThreeHolds(qs: seq<Quote>, paying: set<int>, seller: int, buyer: int, starts: int, duration: nat, gross: int, buffer: nat, now: int)
    requires DiaryOk(qs, now)
    ensures var r := CreateQuote(qs, paying, seller, buyer, starts, duration, gross, buffer, now);
      r.Some? ==>
        && 1 <= HoldsOf(r.value, buyer, now) <= MAX_HOLDS
        && forall other | other != buyer :: HoldsOf(r.value, other, now) <= HoldsOf(qs, other, now)
  {
    hide DiaryOk, Relaxed, ReplaceHolds, LapseOfSeller, FreeLapsedHolds, HoldsOf, Insert;
    var to := SlotEnd(starts, duration, buffer);
    var mine := ReplaceHolds(qs, buyer, seller, paying);
    var lapsed := LapseOfSeller(mine, seller, now);
    var free := FreeLapsedHolds(lapsed, seller, starts, to, now);
    var q := NewQuote(seller, buyer, None, starts, duration, gross, buffer, now);
    ReplaceRelaxes(qs, buyer, seller, paying, now);
    LapseRelaxes(mine, seller, 0, now);
    FreeLapsedRelaxes(lapsed, seller, starts, to, now);
    forall x ensures HoldsOf(free, x, now) <= HoldsOf(mine, x, now) <= HoldsOf(qs, x, now) {
      FewerWhenRelaxed(qs, mine, x, now);
      FewerWhenRelaxed(mine, lapsed, x, now);
      FewerWhenRelaxed(lapsed, free, x, now);
    }
    forall x ensures HoldsOf(free + [q], x, now) == HoldsOf(free, x, now) + (if x == buyer then 1 else 0) {
      HoldsSnoc(free, q, x, now);
    }
    InsertIs(free, q);
  }

  lemma InsertIs(qs: seq<Quote>, q: Quote)
    ensures Insert(qs, q).Some? ==> Insert(qs, q).value == qs + [q]
  {}

  /** The same right after a time was held for an agreed offer. */
  lemma AtMostThreeOfferHolds(qs: seq<Quote>, paying: set<int>, id: nat, o: Offers.Offer, starts: int, gross: int, buffer: nat, now: int)
    requires DiaryOk(qs, now)
    ensures var r := CreateOfferQuote(qs, paying, id, o, starts, gross, buffer, now);
      r.Some? ==>
        && 1 <= HoldsOf(r.value, o.buyer, now) <= MAX_HOLDS
        && forall other | other != o.buyer :: HoldsOf(r.value, other, now) <= HoldsOf(qs, other, now)
  {
    hide DiaryOk, Relaxed, ReplaceHolds, LapseOfOffer, FreeOfOffer, FreeLapsedHolds, HoldsOf, Insert, CheckoutActive;
    var to := SlotEnd(starts, o.duration, buffer);
    var lapsed := LapseOfOffer(qs, id, now);
    var released := FreeOfOffer(lapsed, id);
    var free := FreeLapsedHolds(released, o.seller, starts, to, now);
    var mine := ReplaceHolds(free, o.buyer, o.seller, paying);
    var q := NewQuote(o.seller, o.buyer, Some(id), starts, o.duration, gross, buffer, now);
    LapseRelaxes(qs, 0, id, now);
    FreeOfferRelaxes(lapsed, id, now);
    FreeLapsedRelaxes(released, o.seller, starts, to, now);
    ReplaceRelaxes(free, o.buyer, o.seller, paying, now);
    forall x ensures HoldsOf(mine, x, now) <= HoldsOf(qs, x, now) {
      FewerWhenRelaxed(qs, lapsed, x, now);
      FewerWhenRelaxed(lapsed, released, x, now);
      FewerWhenRelaxed(released, free, x, now);
      FewerWhenRelaxed(free, mine, x, now);
    }
    forall x ensures HoldsOf(mine + [q], x, now) == HoldsOf(mine, x, now) + (if x == o.buyer then 1 else 0) {
      HoldsSnoc(mine, q, x, now);
    }
    InsertIs(mine, q);
  }
}
