/** When a reserved time is kept, brought back, moved or given up, in the columns
    of the tables (services/core/cmd/api/unbooked.go, holds.go, quotes.go,
    bookings.go, services/core/internal/store/holds.sql.go, payments.sql.go). */
module SlotRules {
  import opened Common
  import opened Diary
  import Offers

  /** Some other active reservation of the seller lies in the time of row i. */
  predicate TimeTaken(qs: seq<Quote>, i: nat, from: int, to: int)
    requires i < |qs|
  {
    exists j :: 0 <= j < |qs| && j != i && qs[j].seller == qs[i].seller && qs[j].slot.active && qs[j].slot.from < to && from < qs[j].slot.to
  }

  /** Quote and hold are still running. */
  predicate StillHeld(q: Quote, now: int) {
    q.state == Held && q.expires > now && q.slot.active && q.slot.booking == None && q.slot.expires > now
  }

  /** A lapsed time can be had back: not sold, more than five minutes ahead,
      still one of the seller's, and nobody else has it. */
  predicate ComesBack(qs: seq<Quote>, i: nat, valid: bool, now: int)
    requires i < |qs|
  {
    var q := qs[i];
    q.state != Converted && q.slot.booking == None && q.starts > now + 300 && valid && !TimeTaken(qs, i, q.slot.from, q.slot.to)
  }

  function BroughtBack(q: Quote, now: int): Quote {
    q.(state := Held, expires := now + 600, slot := q.slot.(active := true, expires := now + 600))
  }

  /** A paid time is secured if and only if quote and hold are still running, or
      the quote is not sold, its time lies more than five minutes ahead, is still
      one of the seller's, and nobody else has it. Then a booking may be made if
      and only if the seller is available and the offer, if any, is agreed or
      has lapsed. A lapsed hold that was secured runs another ten minutes. */
  lemma SecuredExactly(qs: seq<Quote>, offers: seq<Offers.Offer>, i: nat, valid: bool, available: bool, now: int)
    requires i < |qs|
    ensures var q := qs[i];
      var (rs, claim) := ClaimSlot(qs, offers, i, valid, available, now);
      var running := StillHeld(q, now);
      var back := ComesBack(qs, i, valid, now);
      var payable := q.offer == None || (q.offer.value < |offers| && offers[q.offer.value].state in {Offers.Agreed, Offers.Lapsed});
      && (claim == Taken <==> !running && !back)
      && (claim == Unavailable <==> (running || back) && !available)
      && (claim == Closed <==> (running || back) && available && !payable)
      && (claim == Ours <==> (running || back) && available && payable)
      && rs == if !running && back
           then qs[i := BroughtBack(q, now)] else qs
  {
    TakenIs(qs, i, Reclaimed(qs[i], now));
  }

  lemma TakenIs(qs: seq<Quote>, i: nat, q: Quote)
    requires i < |qs| && q.seller == qs[i].seller && q.slot.active
    ensures Conflicts(qs, i, q) <==> TimeTaken(qs, i, q.slot.from, q.slot.to)
  {
    if Conflicts(qs, i, q) {
      var j :| 0 <= j < |qs| && j != i && Clash(qs[j], q);
      assert qs[j].slot.from < q.slot.to;
    }
    if TimeTaken(qs, i, q.slot.from, q.slot.to) {
      var j :| 0 <= j < |qs| && j != i && qs[j].seller == qs[i].seller && qs[j].slot.active && qs[j].slot.from < q.slot.to && q.slot.from < qs[j].slot.to;
      assert Clash(qs[j], q);
    }
  }

  /** A running hold can be made to last longer, never shorter, quote and
      reservation alike; one that has lapsed cannot. */
  lemma ExtendedExactly(q: Quote, until: int, now: int)
    requires QuoteOk(q, now)
    ensures Extend(q, until, now) ==
      if q.state == Held && q.expires > now
      then var later := if q.expires < until then until else q.expires;
        Some(q.(expires := later, slot := q.slot.(expires := later)))
      else None
  {}

  /** Looking at an overdue quote expires it and gives its hold up, and does
      nothing else. */
  lemma ViewedExactly(q: Quote, now: int)
    requires QuoteOk(q, now)
    ensures Viewed(q, now) ==
      if q.state == Held && q.expires <= now then q.(state := Expired, slot := q.slot.(active := false)) else q
  {}

  /** A booking moves if and only if it has its reservation and nothing but holds
      that have lapsed lies in the new time; then only its reservation's time
      changes, and such holds are given up. */
  lemma MovedExactly(qs: seq<Quote>, i: nat, starts: int, buffer: nat, now: int)
    requires DiaryOk(qs, now) && i < |qs| && qs[i].slot.booking.Some?
    ensures var r := Move(qs, i, starts, buffer, now);
      var to := starts + (qs[i].duration + buffer) * 60;
      && (r.Some? <==>
            && qs[i].slot.active
            && forall j | 0 <= j < |qs| && j != i && qs[j].seller == qs[i].seller && qs[j].slot.active && qs[j].slot.from < to && starts < qs[j].slot.to ::
                 qs[j].slot.booking == None && qs[j].slot.expires <= now)
      && (r.Some? ==>
            && |r.value| == |qs| && r.value[i] == qs[i].(slot := qs[i].slot.(from := starts, to := to))
            && forall j | 0 <= j < |qs| && j != i ::
                 if qs[j].seller == qs[i].seller && qs[j].slot.active && qs[j].slot.booking == None && qs[j].slot.expires <= now
                    && qs[j].slot.from < to && starts < qs[j].slot.to
                 then r.value[j] == qs[j].(slot := qs[j].slot.(active := false), state := if qs[j].state == Held then Expired else qs[j].state)
                 else r.value[j] == qs[j])
  {
    hide DiaryOk;
    var free := FreeLapsedHolds(qs, qs[i].seller, starts, SlotEnd(starts, qs[i].duration, buffer), now);
    assert free[i] == qs[i];
    var q := Moved(free[i], starts, buffer);
    if q.slot.active {
      TakenIs(free, i, q);
      forall j | 0 <= j < |qs| && j != i
        ensures free[j].seller == qs[j].seller && free[j].slot.from == qs[j].slot.from && free[j].slot.to == qs[j].slot.to
      {}
    }
  }

  /** A secured time that is booked is the booking's from then on. */
  lemma ConfirmedExactly(q: Quote, booking: nat)
    requires q.slot.active
    ensures Confirm(q, booking) == q.(state := Converted, slot := q.slot.(booking := Some(booking)))
  {}
}
