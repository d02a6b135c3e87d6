/** What taking a time, keeping it and looking at an offer leave behind, row by
    row, and in the offer and the diary together
    (services/core/cmd/api/quotes.go, holds.go, offers.go,
    services/core/internal/store/holds.sql.go). */
module QuoteRules {
  import opened Common
  import opened Diary
  import opened World
  import opened WorldInvariant
  import opened LiveHolds
  import opened SlotRules
  import A = Answers
  import Offers
  import B = Books
  import BI = BooksInvariant
  import P = Policy
  import RS = ReleaseSteps
  import C = Cases
  import WR = WorldRuns

  /** A hold that has lapsed and lies in this time of the seller's. */
  predicate LapsedIn(q: Quote, seller: int, from: int, to: int, now: int) {
    q.seller == seller && q.slot.active && q.slot.booking == None && q.slot.expires <= now && q.slot.from < to && from < q.slot.to
  }

  /** The buyer's hold with the seller, nothing begun. */
  predicate OwnUnpaid(q: Quote, i: int, paying: set<int>, seller: int, buyer: int) {
    q.buyer == buyer && q.seller == seller && q.state == Held && q.slot.active && q.slot.booking == None && i !in paying
  }

  function With(q: Quote, state: QuoteState, active: bool): Quote { q.(state := state, slot := q.slot.(active := active)) }

  /** The other rows when a time is taken: the buyer's own unpaid holds with the
      seller end, the seller's overdue quotes expire, lapsed holds in the time
      are let go, and nothing else changes. */
  lemma RowsWhenHeld(qs: seq<Quote>, paying: set<int>, seller: int, buyer: int, starts: int, duration: nat, gross: int, buffer: nat, now: int)
    ensures var r := Diary.CreateQuote(qs, paying, seller, buyer, starts, duration, gross, buffer, now);
      var to := starts + (duration + buffer) * 60;
      r.Some? ==> |r.value| == |qs| + 1 && forall i | 0 <= i < |qs| ::
        var q := qs[i];
        var own := OwnUnpaid(q, i, paying, seller, buyer);
        var lapsed := LapsedIn(q, seller, starts, to, now);
        var overdue := q.seller == seller && q.state == Held && q.expires <= now;
        r.value[i] == With(q, if own || overdue || (lapsed && q.state == Held) then Expired else q.state, q.slot.active && !own && !lapsed)
  {
    hide HoldsOf;
  }

  /** The same when a time is taken for an agreed offer, whose own overdue quotes
      expire and give their times up. */
  lemma RowsWhenOfferHeld(qs: seq<Quote>, paying: set<int>, id: nat, o: Offers.Offer, starts: int, gross: int, buffer: nat, now: int)
    ensures var r := Diary.CreateOfferQuote(qs, paying, id, o, starts, gross, buffer, now);
      var to := starts + (o.duration + buffer) * 60;
      r.Some? ==> |r.value| == |qs| + 1 && forall i | 0 <= i < |qs| ::
        var q := qs[i];
        var overdue := q.offer == Some(id) && q.state == Held && q.expires <= now;
        var freed := q.offer == Some(id) && q.slot.booking == None && (overdue || q.state == Expired);
        var own := OwnUnpaid(q, i, paying, o.seller, o.buyer);
        var lapsed := LapsedIn(q, o.seller, starts, to, now);
        r.value[i] == With(q, if own || overdue || (lapsed && q.state == Held) then Expired else q.state, q.slot.active && !own && !lapsed && !freed)
  {
    hide HoldsOf;
  }

  /** createQuote in the whole service: what it needs, and the price it asks. */
  lemma QuotedExactly(cfg: P.Config, w: World, seller: int, buyer: int, starts: int, duration: nat, base: int, buffer: nat)
    ensures var v := Step(cfg, w, CreateQuote(seller, buyer, starts, duration, base, buffer));
      var to := starts + (duration + buffer) * 60;
      var paying := set a | a in w.books.attempts :: w.books.attempts[a].quote;
      if (duration == 15 || duration == 30 || duration == 60) && 100 <= base <= 100_000_000
         && TimeFree(w.quotes, paying, seller, buyer, starts, to, w.books.clock)
      then
        && v == w.(quotes := v.quotes) && |v.quotes| == |w.quotes| + 1
        && var q := v.quotes[|w.quotes|];
           && q == Quote(seller, buyer, None, duration, starts, q.gross, Held, w.books.clock + 600,
                Slot(starts, to, true, None, w.books.clock + 600))
           && base * duration - 15 < 30 * q.gross <= base * duration + 15
      else v == w
  {
    hide Diary.CreateQuote, TimeFree;
    TimeHeldExactly(w.quotes, PayingQuotes(w.books.attempts), seller, buyer, starts, duration, FixedPrice(base, duration), buffer, w.books.clock);
  }

  /** createOfferQuote in the whole service: an agreement past its window lapses
      and nothing else happens; within it a time is held at the agreed amount,
      and the window lasts at least as long as the hold. */
  lemma OfferQuotedExactly(cfg: P.Config, w: World, id: nat, starts: int, buffer: nat)
    requires Inv(cfg, w) && id < |w.offers|
    ensures var v := Step(cfg, w, CreateOfferQuote(id, starts, buffer));
      var o, now := w.offers[id], w.books.clock;
      var to := starts + (o.duration + buffer) * 60;
      var paying := set a | a in w.books.attempts :: w.books.attempts[a].quote;
      if o.state != Offers.Agreed then v == w
      else if o.checkout.value <= now then v == w.(offers := w.offers[id := o.(state := Offers.Lapsed)])
      else if OfferTimeFree(w.quotes, paying, id, o.seller, o.buyer, starts, to, now)
      then
        && v == w.(quotes := v.quotes, offers := v.offers) && |v.quotes| == |w.quotes| + 1
        && v.quotes[|w.quotes|] == Quote(o.seller, o.buyer, Some(id), o.duration, starts,
             o.versions[|o.versions| - 1].amount, Held, now + 600, Slot(starts, to, true, None, now + 600))
        && v.offers == w.offers[id := o.(checkout := Some(if o.checkout.value < now + 600 then now + 600 else o.checkout.value))]
      else v == w
  {
    hide BI.Inv, DiaryOk, Diary.CreateOfferQuote, OfferTimeFree, Agrees, Asks, Rests, Names, Sold;
    var o := w.offers[id];
    assert Offers.Ok(o);
    assert w.offers[id := o] == w.offers;
    if o.state == Offers.Agreed && o.checkout.value > w.books.clock {
      OfferTimeHeldExactly(w.quotes, PayingQuotes(w.books.attempts), id, o, starts, Offers.Amount(o), buffer, w.books.clock);
    }
  }

  /** A first payment in the whole service: without its time, with the seller
      unavailable or the offer closed, it goes back and a time that was brought
      back stays held; otherwise it books the quoted time, sells the quote and
      converts the offer, or, where the fee leaves nothing, changes nothing. */
  lemma PaidExactly(cfg: P.Config, w: World, a: int, ch: B.Charge, valid: bool, available: bool)
    requires Inv(cfg, w) && a in w.books.attempts
    requires A.Success(ch) && ch.fee >= 0 && A.PaysThePrice(w.books.attempts[a], ch)
    requires A.NoBookingFor(w.books, w.books.attempts[a].quote)
    ensures var p := w.books.attempts[a];
      var i, n, total := p.quote, |w.books.cases|, A.TotalPaid(p, ch);
      var v := Step(cfg, w, Pay(a, ch, valid, available));
      && 0 <= i < |w.quotes|
      && var q := w.quotes[i];
         var held, back := StillHeld(q, w.books.clock), ComesBack(w.quotes, i, valid, w.books.clock);
         var row := if !held && back then BroughtBack(q, w.books.clock) else q;
         && (q.offer.Some? ==> q.offer.value < |w.offers|)
         && var payable := q.offer.None? || w.offers[q.offer.value].state in {Offers.Agreed, Offers.Lapsed};
            if (held || back) && available && payable then
              if ch.fee < total <= MAX_INT64 then
                && |v.books.cases| == n + 1 && v.books.cases[..n] == w.books.cases
                && var c := v.books.cases[n];
                   && c.attempt == a && c.quote == i && c.seller == q.seller && c.start == q.starts && c.duration == q.duration
                   && c.gross == q.gross
                   && v.quotes == w.quotes[i := row.(state := Converted, slot := row.slot.(booking := Some(n)))]
                   && v.offers == if q.offer.None? then w.offers
                        else w.offers[q.offer.value := w.offers[q.offer.value].(state := Offers.Converted, booking := Some(n))]
              else v == w
            else
              && v.quotes == w.quotes[i := row] && v.offers == w.offers && v.books.cases == w.books.cases
              && A.SentBack(cfg, w.books, v.books, a,
                   if (held || back) && available then B.OfferConflict else B.PaymentWithoutSlot, total)
  {
    hide Inv, BI.Inv, B.Verify, A.SentBack, PayStep, A.TotalPaid, A.PaysThePrice, A.NoBookingFor, ComesBack, ClaimSlot;
    var i := w.books.attempts[a].quote;
    AttemptQuote(cfg, w, a);
    var q := w.quotes[i];
    SecuredExactly(w.quotes, w.offers, i, valid, available, w.books.clock);
    PaidFirst(cfg, w, a, ch, valid, available);
    var claim := ClaimSlot(w.quotes, w.offers, i, valid, available, w.books.clock).1;
    var slot := SlotFor(q, claim);
    if claim == Ours {
      A.FirstChargeExactly(cfg, w.books, a, ch, q.seller, q.starts, q.duration);
      assert B.Verify(cfg, w.books, a, ch, slot).1.None? ==> PayStep(cfg, w, a, ch, valid, available) == w;
    } else {
      A.OtherAnswersExactly(cfg, w.books, a, ch, slot);
      SendsBackOnly(cfg, w.books, B.Verify(cfg, w.books, a, ch, slot).0, a,
        if slot.OfferClosed? then B.OfferConflict else B.PaymentWithoutSlot, A.TotalPaid(w.books.attempts[a], ch));
    }
  }

  lemma AttemptQuote(cfg: P.Config, w: World, a: int)
    requires Inv(cfg, w) && a in w.books.attempts
    ensures BI.Inv(cfg, w.books)
    ensures var p := w.books.attempts[a];
      && 0 <= p.quote < |w.quotes| && A.PriceOf(p) == w.quotes[p.quote].gross
      && (w.quotes[p.quote].offer.Some? ==> w.quotes[p.quote].offer.value < |w.offers|)
  {
    hide BI.Inv, DiaryOk, Rests, Names, Sold;
    assert Asks(w, a) && Agrees(w, w.books.attempts[a].quote);
  }

  /** Money going back leaves the bookings alone. */
  lemma SendsBackOnly(cfg: P.Config, s: B.Books, t: B.Books, a: int, kind: B.Kind, amount: int)
    requires a in s.attempts && A.SentBack(cfg, s, t, a, kind, amount)
    ensures t.cases == s.cases
  {}

  /** A first answer, once its time has been looked at. */
  lemma PaidFirst(cfg: P.Config, w: World, a: int, ch: B.Charge, valid: bool, available: bool)
    requires BI.Inv(cfg, w.books) && a in w.books.attempts && 0 <= w.books.attempts[a].quote < |w.quotes|
    requires A.Success(ch) && ch.fee >= 0 && A.PaysThePrice(w.books.attempts[a], ch)
    requires A.NoBookingFor(w.books, w.books.attempts[a].quote)
    ensures var i := w.books.attempts[a].quote;
      var (qs, claim) := ClaimSlot(w.quotes, w.offers, i, valid, available, w.books.clock);
      var (books, answer) := B.Verify(cfg, w.books, a, ch, SlotFor(w.quotes[i], claim));
      PayStep(cfg, w, a, ch, valid, available) ==
        if claim != Ours then w.(books := books, quotes := qs)
        else if answer.None? then w
        else w.(books := books, quotes := qs[i := Confirm(qs[i], answer.value)], offers := Convert(w.offers, qs[i].offer, answer.value))
  {
    hide BI.Inv, B.Verify, First, ClaimSlot, Convert, Confirm;
    IsFirst(cfg, w.books, a, ch);
  }

  /** Without a booking for its quote, such an answer is a first one. */
  lemma IsFirst(cfg: P.Config, s: B.Books, a: int, ch: B.Charge)
    requires BI.Inv(cfg, s) && a in s.attempts && A.Success(ch) && ch.fee >= 0 && A.PaysThePrice(s.attempts[a], ch)
    requires A.NoBookingFor(s, s.attempts[a].quote)
    ensures First(s, a, ch)
  {
    A.SnapshotHolds(cfg, s, a);
    A.MatchesExactly(s.attempts[a], ch);
    RS.QuoteSearch(s.cases, s.attempts[a].quote);
  }

  /** Keeping a hold longer: quote, reservation and the agreement's window are
      moved to at least that time together, or nothing is. */
  lemma KeptExactly(cfg: P.Config, w: World, i: nat, until: int)
    requires Inv(cfg, w) && i < |w.quotes|
    ensures var v := Step(cfg, w, ExtendHold(i, until));
      var q := w.quotes[i];
      if q.state == Held && q.expires > w.books.clock
      then
        var later := if q.expires < until then until else q.expires;
        && v == w.(quotes := w.quotes[i := q.(expires := later, slot := q.slot.(expires := later))], offers := v.offers)
        && (q.offer.None? ==> v.offers == w.offers)
        && (q.offer.Some? ==>
              && q.offer.value < |w.offers|
              && var o := w.offers[q.offer.value];
                 v.offers == w.offers[q.offer.value :=
                   if o.state == Offers.Agreed && o.checkout.value < until then o.(checkout := Some(until)) else o])
      else v == w
  {
    hide BI.Inv, Asks, Rests, Names, Sold;
    var q := w.quotes[i];
    assert QuoteOk(q, w.books.clock) && Agrees(w, i);
    if q.offer.Some? {
      assert Offers.Ok(w.offers[q.offer.value]);
    }
  }

  /** Looking at an offer lapses an agreement past its window, and nothing else. */
  lemma SeenExactly(cfg: P.Config, w: World, id: nat)
    requires Inv(cfg, w) && id < |w.offers|
    ensures var v := Step(cfg, w, ViewOffer(id));
      var o := w.offers[id];
      v == w.(offers := w.offers[id :=
        if o.state == Offers.Agreed && o.checkout.value <= w.books.clock then o.(state := Offers.Lapsed) else o])
  {
    hide BI.Inv, DiaryOk, Agrees, Asks, Rests, Names, Sold;
    assert Offers.Ok(w.offers[id]);
  }

  /** Moving a booking in the whole service: it stands, has not begun, goes to a
      time that is not past, in which only lapsed holds are in the way; then
      booking and reservation move together, and otherwise nothing does. */
  lemma RescheduledExactly(cfg: P.Config, w: World, b: nat, newStart: int, buffer: nat)
    requires Inv(cfg, w) && b < |w.books.cases|
    ensures var v := Step(cfg, w, Reschedule(b, newStart, buffer));
      var c, now := w.books.cases[b], w.books.clock;
      var i := c.quote;
      && 0 <= i < |w.quotes|
      && var q := w.quotes[i];
         var to := newStart + (q.duration + buffer) * 60;
         var free := q.slot.active && forall j | 0 <= j < |w.quotes| && j != i && w.quotes[j].seller == q.seller
                                                 && w.quotes[j].slot.active && w.quotes[j].slot.from < to && newStart < w.quotes[j].slot.to ::
           w.quotes[j].slot.booking == None && w.quotes[j].slot.expires <= now;
         if c.state == C.Confirmed && now < c.start && now <= newStart && free
         then
           && v == w.(books := w.books.(cases := w.books.cases[b := c.(start := newStart)]), quotes := v.quotes)
           && |v.quotes| == |w.quotes| && v.quotes[i] == q.(slot := q.slot.(from := newStart, to := to))
         else v == w
  {
    hide BI.Inv, DiaryOk, Rests, Names, Agrees, Asks, Sold, Move, B.Verified, B.FeeOf;
    WR.BookingSlot(w, b);
    MovedExactly(w.quotes, w.books.cases[b].quote, newStart, buffer, w.books.clock);
  }

  /** Every other step on the money tables is the same step in the service; time,
      attempts, answers, cancelling and moving go through their own. */
  lemma MoneyExactly(cfg: P.Config, w: World, m: B.Event)
    ensures Step(cfg, w, Money(m)) ==
      if m.Tick? || m.StartAttempt? || m.VerifyCharge? || (m.OnBooking? && (m.what.Cancel? || m.what.Reschedule?)) then w
      else w.(books := B.Step(cfg, w.books, m))
    ensures forall to :: Step(cfg, w, Tick(to)) == w.(books := B.Step(cfg, w.books, B.Tick(to)))
    ensures forall a, i: nat :: i < |w.quotes| ==>
      Step(cfg, w, OpenAttempt(a, i)) == w.(books := B.Step(cfg, w.books, B.StartAttempt(a, i, w.quotes[i].gross)))
  {
    hide B.Start;
  }

  /** Making, answering and looking at one row leave all the others alone. */
  lemma OneRowExactly(cfg: P.Config, w: World, i: nat, id: nat, side: Offers.Role, version: int, action: Offers.Action)
    requires Inv(cfg, w) && i < |w.quotes| && id < |w.offers|
    ensures var q := w.quotes[i];
      Step(cfg, w, ViewQuote(i)) == w.(quotes := w.quotes[i :=
        if q.state == Held && q.expires <= w.books.clock then q.(state := Expired, slot := q.slot.(active := false)) else q])
    ensures Step(cfg, w, RespondOffer(id, side, version, action))
         == w.(offers := w.offers[id := Offers.Respond(w.offers[id], side, version, action, w.books.clock).0])
    ensures forall seller, buyer, duration: nat, amount ::
      var made := Offers.Create(seller, buyer, duration, amount, w.books.clock);
      Step(cfg, w, CreateOffer(seller, buyer, duration, amount))
         == w.(offers := w.offers + if made.Some? then [made.value] else [])
  {
    hide BI.Inv, Links, Offers.Respond, Offers.Create;
    ViewedExactly(w.quotes[i], w.books.clock);
  }
}
