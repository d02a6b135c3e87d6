/** The diary and the offers as the service updates them: guarded updates over
    rows, transactions that roll back, and the time of a late payment taken
    back (services/core/cmd/api/quotes.go, holds.go, unbooked.go, offers.go,
    bookings.go, services/core/internal/store/holds.sql.go). */
module Calendar {
  import opened Common
  import opened Diary
  import Offers

  /** Rows before i are done, the rest are as they were. */
  ghost predicate DoneUpTo(was: seq<Quote>, now: seq<Quote>, goal: seq<Quote>, i: nat) {
    && |now| == |was| == |goal| && i <= |was|
    && (forall k | 0 <= k < i :: now[k] == goal[k])
    && (forall k | i <= k < |was| :: now[k] == was[k])
  }

  class Calendar {
    var clock: int
    var quotes: seq<Quote>
    var offers: seq<Offers.Offer>

    ghost predicate Valid()
      reads this
    {
      DiaryOk(quotes, clock) && forall id | 0 <= id < |offers| :: Offers.Ok(offers[id])
    }

    constructor (now: int)
      ensures Valid() && clock == now && quotes == [] && offers == []
    {
      clock, quotes, offers := now, [], [];
    }

    /** releaseExpiredHolds: lapsed holds in a range of the seller's time. */
    method ReleaseExpiredHolds(seller: int, from: int, to: int)
      modifies this`quotes
      ensures quotes == FreeLapsedHolds(old(quotes), seller, from, to, clock)
    {
      ghost var goal := FreeLapsedHolds(quotes, seller, from, to, clock);
      for i := 0 to |quotes|
        invariant DoneUpTo(old(quotes), quotes, goal, i)
      {
        var q := quotes[i];
        if q.seller == seller && q.slot.active && q.slot.booking.None? && q.slot.expires <= clock && q.slot.from < to && from < q.slot.to {
          if q.state == Held {
            q := q.(state := Expired);
          }
          quotes := quotes[i := q.(slot := q.slot.(active := false))];
        }
      }
    }

    /** The buyer's earlier holds with the seller for which nothing was begun. */
    method ReleaseUnpaidHolds(buyer: int, seller: int, paying: set<int>)
      modifies this`quotes
      ensures quotes == ReplaceHolds(old(quotes), buyer, seller, paying)
    {
      ghost var goal := ReplaceHolds(quotes, buyer, seller, paying);
      for i := 0 to |quotes|
        invariant DoneUpTo(old(quotes), quotes, goal, i)
      {
        var q := quotes[i];
        if q.buyer == buyer && q.seller == seller && q.state == Held && q.slot.active && q.slot.booking.None? && i !in paying {
          quotes := quotes[i := q.(state := Expired, slot := q.slot.(active := false))];
        }
      }
    }

    method CountActiveHolds(buyer: int) returns (n: nat)
      ensures n == HoldsOf(quotes, buyer, clock)
    {
      n := 0;
      for i := 0 to |quotes|
        invariant n == HoldsOf(quotes[..i], buyer, clock)
      {
        assert quotes[..i + 1][..i] == quotes[..i];
        var q := quotes[i];
        if q.buyer == buyer && q.state == Held && q.slot.active && q.slot.booking.None? && q.slot.expires > clock {
          n := n + 1;
        }
      }
      assert quotes[..|quotes|] == quotes;
    }

    /** claimBuyerHoldCapacity: a new time replaces the buyer's old one, and
        three active holds are the limit. */
    method ClaimHoldCapacity(buyer: int, seller: int, paying: set<int>) returns (within: bool)
      modifies this`quotes
      ensures quotes == ReplaceHolds(old(quotes), buyer, seller, paying)
      ensures within <==> HoldsOf(quotes, buyer, clock) < MAX_HOLDS
    {
      ReleaseUnpaidHolds(buyer, seller, paying);
      var active := CountActiveHolds(buyer);
      return active < MAX_HOLDS;
    }

    /** Marks a seller's (or an offer's) overdue quotes expired. */
    method ExpireQuotes(seller: int)
      modifies this`quotes
      ensures quotes == LapseOfSeller(old(quotes), seller, clock)
    {
      ghost var goal := LapseOfSeller(quotes, seller, clock);
      for i := 0 to |quotes|
        invariant DoneUpTo(old(quotes), quotes, goal, i)
      {
        if quotes[i].seller == seller && quotes[i].state == Held && quotes[i].expires <= clock {
          quotes := quotes[i := quotes[i].(state := Expired)];
        }
      }
    }

    /** Expires an offer's overdue quotes and gives up the expired ones' times. */
    method ReleaseOffer(offer: nat)
      modifies this`quotes
      ensures quotes == FreeOfOffer(LapseOfOffer(old(quotes), offer, clock), offer)
    {
      ghost var goal := FreeOfOffer(LapseOfOffer(quotes, offer, clock), offer);
      for i := 0 to |quotes|
        invariant DoneUpTo(old(quotes), quotes, goal, i)
      {
        var q := quotes[i];
        if q.offer == Some(offer) {
          if q.state == Held && q.expires <= clock {
            q := q.(state := Expired);
          }
          if q.state == Expired && q.slot.active && q.slot.booking.None? {
            q := q.(slot := q.slot.(active := false));
          }
          quotes := quotes[i := q];
        }
      }
    }

    /** createQuote: hold a time at a fixed price, or change nothing. */
    method HoldTime(paying: set<int>, seller: int, buyer: int, starts: int, duration: nat, gross: int, buffer: nat) returns (ok: bool)
      requires Valid() && duration > 0
      modifies this`quotes
      ensures Valid()
      ensures CreateQuote(old(quotes), paying, seller, buyer, starts, duration, gross, buffer, clock) == if ok then Some(quotes) else None
      ensures !ok ==> quotes == old(quotes)
      ensures ok ==> 1 <= HoldsOf(quotes, buyer, clock) <= MAX_HOLDS
    {
      hide DiaryOk, ReplaceHolds, LapseOfSeller, FreeLapsedHolds;
      AtMostThreeHolds(quotes, paying, seller, buyer, starts, duration, gross, buffer, clock);
      CreateQuoteKeeps(quotes, paying, seller, buyer, starts, duration, gross, buffer, clock);
      var before := quotes;
      var within := ClaimHoldCapacity(buyer, seller, paying);
      if !within {
        quotes := before;
        return false;
      }
      var to := starts + (duration + buffer) * MINUTE;
      ExpireQuotes(seller);
      ReleaseExpiredHolds(seller, starts, to);
      var until := clock + SELECTION_HOLD;
      var quote := Quote(seller, buyer, None, duration, starts, gross, Held, until, Slot(starts, to, true, None, until));
      if Conflicts(quotes, |quotes|, quote) {
        // Somebody else has just taken that time.
        quotes := before;
        return false;
      }
      quotes := quotes + [quote];
      return true;
    }

    /** createOfferQuote: hold a time for an agreed offer. The paying window
        then lasts at least as long as the hold. */
    method HoldOfferTime(paying: set<int>, id: nat, starts: int, buffer: nat) returns (ok: bool)
      requires Valid() && id < |offers| && offers[id].duration > 0
      modifies this`quotes, this`offers
      ensures Valid()
      ensures var o := Offers.Viewed(old(offers)[id], clock);
        var r := CreateOfferQuote(old(quotes), paying, id, o, starts, Offers.Amount(o), buffer, clock);
        if o.state == Offers.Agreed && r.Some?
        then ok && quotes == r.value && offers == old(offers)[id := Offers.Extended(o, clock + SELECTION_HOLD)]
        else !ok && quotes == old(quotes) && offers == old(offers)[id := o]
      ensures ok ==> 1 <= HoldsOf(quotes, old(offers)[id].buyer, clock) <= MAX_HOLDS
    {
      hide DiaryOk, ReplaceHolds, LapseOfOffer, FreeOfOffer, FreeLapsedHolds, HoldsOf, Conflicts;
      var o, before := offers[id], quotes;
      if o.state == Offers.Agreed && o.checkout.Some? && o.checkout.value <= clock {
        offers := offers[id := o.(state := Offers.Lapsed)];
        return false;
      }
      assert old(offers)[id := o] == old(offers);
      if o.state != Offers.Agreed {
        return false;
      }
      AtMostThreeOfferHolds(quotes, paying, id, o, starts, Offers.Amount(o), buffer, clock);
      CreateOfferQuoteKeeps(quotes, paying, id, o, starts, Offers.Amount(o), buffer, clock);
      if CheckoutActive(quotes, id, clock) {
        return false;
      }
      var to := starts + (o.duration + buffer) * MINUTE;
      ReleaseOffer(id);
      ReleaseExpiredHolds(o.seller, starts, to);
      var within := ClaimHoldCapacity(o.buyer, o.seller, paying);
      if !within {
        quotes := before;
        return false;
      }
      var until := clock + SELECTION_HOLD;
      var quote := Quote(o.seller, o.buyer, Some(id), o.duration, starts, o.versions[|o.versions| - 1].amount, Held, until, Slot(starts, to, true, None, until));
      if Conflicts(quotes, |quotes|, quote) {
        quotes := before;
        return false;
      }
      quotes := quotes + [quote];
      if o.checkout.Some? && o.checkout.value < until {
        offers := offers[id := o.(checkout := Some(until))];
      }
      return true;
    }

    /** extendCheckoutHold: quote and hold together, and the agreement with them. */
    method ExtendCheckoutHold(i: nat, until: int) returns (ok: bool)
      requires Valid() && i < |quotes|
      modifies this`quotes, this`offers
      ensures Valid()
      ensures ok <==> old(quotes)[i].state == Held && old(quotes)[i].expires > clock
      ensures var r := Extend(old(quotes)[i], until, clock);
        ok == r.Some? && quotes == if ok then old(quotes)[i := r.value] else old(quotes)
      ensures offers ==
        var o := old(quotes)[i].offer;
        if ok && o.Some? && o.value < |old(offers)| then old(offers)[o.value := Offers.Extended(old(offers)[o.value], until)] else old(offers)
    {
      ExtendKeeps(quotes, i, until, clock);
      var q := quotes[i];
      assert quotes[i := q] == quotes;
      if q.state != Held || q.expires <= clock {
        return false;
      }
      if !(q.slot.active && q.slot.booking.None? && q.slot.expires > clock) {
        return false;
      }
      q := q.(expires := if q.expires < until then until else q.expires);
      q := q.(slot := q.slot.(expires := if q.slot.expires < until then until else q.slot.expires));
      quotes := quotes[i := q];
      if q.offer.Some? && q.offer.value < |offers| {
        var o := offers[q.offer.value];
        if o.state == Offers.Agreed && o.checkout.Some? && o.checkout.value < until {
          o := o.(checkout := Some(until));
        }
        offers := offers[q.offer.value := o];
      }
      return true;
    }

    /** reclaimLateSlot: the quote's hold is reactivated if the time still lies
        ahead, inside the seller's hours and in nobody else's reservation. */
    method ReclaimLateSlot(i: nat, valid: bool) returns (ok: bool)
      requires Valid() && i < |quotes| && quotes[i].state != Converted
      modifies this`quotes
      ensures Valid()
      ensures ok <==> MayReclaim(old(quotes), i, valid, clock)
      ensures quotes == if ok then old(quotes)[i := Reclaimed(old(quotes)[i], clock)] else old(quotes)
    {
      assert QuoteOk(quotes[i], clock);
      var q := quotes[i];
      if q.starts <= clock + 5 * MINUTE || !valid {
        return false;
      }
      var until := clock + SELECTION_HOLD;
      q := q.(state := Held, expires := until, slot := q.slot.(active := true, expires := until));
      if Conflicts(quotes, i, q) {
        // Only the savepoint is rolled back.
        return false;
      }
      UpdateKeeps(quotes, i, q, clock);
      quotes := quotes[i := q];
      return true;
    }

    /** The part of applyVerifiedCharge that secures the time that was paid for. */
    method SecureTime(i: nat, valid: bool, available: bool) returns (claim: Claim)
      requires Valid() && i < |quotes|
      modifies this`quotes
      ensures Valid() && (quotes, claim) == ClaimSlot(old(quotes), offers, i, valid, available, clock)
    {
      ClaimKeeps(quotes, offers, i, valid, available, clock);
      var q := quotes[i];
      assert QuoteOk(q, clock);
      if q.state != Held || q.expires <= clock || !q.slot.active || q.slot.booking.Some? || q.slot.expires <= clock {
        var reclaimed := false;
        if q.state == Held || q.state == Expired {
          reclaimed := ReclaimLateSlot(i, valid);
        }
        if !reclaimed {
          return Taken;
        }
      }
      if !available {
        return Unavailable;
      }
      if q.offer.Some? && (q.offer.value >= |offers| || !Offers.Payable(offers[q.offer.value])) {
        return Closed;
      }
      return Ours;
    }

    /** offerRespond */
    method RespondToOffer(id: nat, side: Offers.Role, version: int, action: Offers.Action) returns (ok: bool)
      requires Valid() && id < |offers|
      modifies this`offers
      ensures Valid()
      ensures var (o, taken) := Offers.Respond(old(offers)[id], side, version, action, clock);
        ok == taken && offers == old(offers)[id := o]
    {
      var o := offers[id];
      Offers.RespondKeeps(o, side, version, action, clock);
      assert offers[id := o] == offers;
      if (o.state == Offers.Pending || o.state == Offers.Countered) && o.expires <= clock {
        offers := offers[id := o.(state := Offers.Lapsed)];
        return false;
      }
      if version != |o.versions| {
        return false;
      }
      match action {
        case Counter(amount) =>
          if side != Offers.Seller || o.state != Offers.Pending || version != 1 || amount < 100 || amount > 100_000_000 {
            return false;
          }
          o := o.(versions := o.versions + [Offers.Version(amount, Offers.Seller)], state := Offers.Countered);
        case Accept =>
          if (side == Offers.Seller && o.state != Offers.Pending) || (side == Offers.Buyer && o.state != Offers.Countered) {
            return false;
          }
          o := o.(state := Offers.Agreed, checkout := Some(clock + 24 * 3600));
        case Decline =>
          if (side == Offers.Seller && o.state != Offers.Pending) || (side == Offers.Buyer && o.state != Offers.Countered) {
            return false;
          }
          o := o.(state := Offers.Declined);
        case Withdraw =>
          if (side == Offers.Seller && o.state != Offers.Countered) || (side == Offers.Buyer && o.state != Offers.Pending && o.state != Offers.Countered) {
            return false;
          }
          o := o.(state := Offers.Withdrawn);
      }
      offers := offers[id := o];
      return true;
    }

    /** respondReschedule: lapsed holds on the new time give way, then the
        booking's reservation moves, or nothing changes. */
    method MoveBooking(i: nat, starts: int, buffer: nat) returns (ok: bool)
      requires Valid() && i < |quotes| && quotes[i].slot.booking.Some?
      modifies this`quotes
      ensures Valid()
      ensures Move(old(quotes), i, starts, buffer, clock) == if ok then Some(quotes) else None
      ensures !ok ==> quotes == old(quotes)
    {
      hide DiaryOk;
      MoveKeeps(quotes, i, starts, buffer, clock);
      var before := quotes;
      var to := starts + (quotes[i].duration + buffer) * MINUTE;
      ReleaseExpiredHolds(quotes[i].seller, starts, to);
      assert |quotes| == |before| && quotes[i] == FreeLapsed(before[i], before[i].seller, starts, to, clock);
      if !quotes[i].slot.active {
        quotes := before;
        return false;
      }
      var q := quotes[i];
      q := q.(slot := q.slot.(from := starts, to := to));
      if Conflicts(quotes, i, q) {
        quotes := before;
        return false;
      }
      quotes := quotes[i := q];
      return true;
    }
  }
}
