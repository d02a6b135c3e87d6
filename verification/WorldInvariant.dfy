/** What holds between bookings, quotes and offers in every reachable state. */
module WorldInvariant {
  import opened Common
  import opened Policy
  import opened Diary
  import opened World
  import Offers
  import C = Cases
  import BI = BooksInvariant
  import RS = ReleaseSteps
  import CT = ChargeTheorems

  /** Booking b rests on its quote's reservation, at the quoted price, and is
      the one booking of its offer. */
  ghost predicate Rests(w: World, b: nat)
    requires b < |w.books.cases|
  {
    var c := w.books.cases[b];
    && Reserved(w, b)
    && var q := w.quotes[c.quote];
       && q.seller == c.seller && q.duration == c.duration && q.gross == c.gross
       && (c.state == C.Confirmed ==> q.slot.active && q.slot.from == c.start && q.slot.to >= C.Ends(c))
       && (q.offer.Some? ==> q.offer.value < |w.offers| && w.offers[q.offer.value].booking == Some(b))
  }

  /** A reservation that names a booking is that booking's. */
  ghost predicate Names(w: World, i: nat)
    requires i < |w.quotes|
  {
    var b := w.quotes[i].slot.booking;
    b.Some? ==> b.value < |w.books.cases| && w.books.cases[b.value].quote == i
  }

  /** No quote costs more than the dearest conversation, and a quote of an offer
      was made after the agreement, at the agreed amount. */
  ghost predicate Agrees(w: World, i: nat)
    requires i < |w.quotes|
  {
    var q := w.quotes[i];
    && 0 < q.gross <= MAX_PRICE
    && (q.offer.Some? ==>
      && q.offer.value < |w.offers| && w.offers[q.offer.value].versions != []
      && Offers.WasAgreed(w.offers[q.offer.value]) && q.gross == Offers.Amount(w.offers[q.offer.value]))
  }

  /** Every attempt asks for the price of its quote, whatever the fee. */
  ghost predicate Asks(w: World, a: int)
    requires a in w.books.attempts
  {
    var p := w.books.attempts[a];
    0 <= p.quote < |w.quotes| && p.expected - p.buyerFee == w.quotes[p.quote].gross
  }

  ghost predicate Sold(w: World, id: nat)
    requires id < |w.offers|
  {
    var b := w.offers[id].booking;
    b.Some? ==> Reserved(w, b.value) && w.quotes[w.books.cases[b.value].quote].offer == Some(id)
  }

  ghost predicate Links(w: World) {
    && (forall b | 0 <= b < |w.books.cases| :: Rests(w, b))
    && (forall i | 0 <= i < |w.quotes| :: Names(w, i) && Agrees(w, i))
    && (forall a | a in w.books.attempts :: Asks(w, a))
    && (forall id | 0 <= id < |w.offers| :: Offers.Ok(w.offers[id]) && Sold(w, id))
  }

  ghost predicate Inv(cfg: Config, w: World) {
    && BI.Inv(cfg, w.books)
    && DiaryOk(w.quotes, w.books.clock)
    && Links(w)
  }

  lemma InitialInv(cfg: Config, clock: int)
    requires Policy.Valid(cfg)
    ensures Inv(cfg, Initial(clock))
  {
    BI.InitialInv(cfg, clock);
  }

  // ---- frames ----

  /** What links see of a quote. */
  ghost predicate SameQuote(q: Quote, r: Quote) {
    && r.seller == q.seller && r.buyer == q.buyer && r.offer == q.offer && r.duration == q.duration && r.gross == q.gross
    && (q.slot.booking.Some? ==> r == q) && (r.slot.booking.Some? ==> r == q)
  }

  /** What links see of a booking. */
  ghost predicate SameCase(c: C.Case, d: C.Case) {
    && c.quote == d.quote && c.seller == d.seller && c.duration == d.duration && c.gross == d.gross
    && (d.state == C.Confirmed ==> c.state == C.Confirmed && c.start == d.start)
  }

  lemma QuotesKeepLinks(w: World, v: World)
    requires Links(w) && v == w.(quotes := v.quotes) && |v.quotes| == |w.quotes|
    requires forall i | 0 <= i < |w.quotes| :: SameQuote(w.quotes[i], v.quotes[i])
    ensures Links(v)
  {
    forall b | 0 <= b < |v.books.cases| ensures Rests(v, b) {
      assert Rests(w, b) && SameQuote(w.quotes[w.books.cases[b].quote], v.quotes[w.books.cases[b].quote]);
    }
    forall i | 0 <= i < |v.quotes| ensures Names(v, i) && Agrees(v, i) {
      assert Names(w, i) && Agrees(w, i) && SameQuote(w.quotes[i], v.quotes[i]);
    }
    forall a | a in v.books.attempts ensures Asks(v, a) {
      assert Asks(w, a) && SameQuote(w.quotes[w.books.attempts[a].quote], v.quotes[w.books.attempts[a].quote]);
    }
    forall id | 0 <= id < |v.offers| ensures Sold(v, id) {
      assert Sold(w, id);
    }
  }

  lemma NewQuoteLinks(w: World, v: World, q: Quote)
    requires Links(w) && v == w.(quotes := w.quotes + [q]) && q.slot.booking.None? && 0 < q.gross <= MAX_PRICE
    requires q.offer.Some? ==>
      && q.offer.value < |w.offers| && w.offers[q.offer.value].versions != []
      && Offers.WasAgreed(w.offers[q.offer.value]) && q.gross == Offers.Amount(w.offers[q.offer.value])
    ensures Links(v)
  {
    forall b | 0 <= b < |v.books.cases| ensures Rests(v, b) {
      assert Rests(w, b);
    }
    forall i | 0 <= i < |v.quotes| ensures Names(v, i) && Agrees(v, i) {
      if i < |w.quotes| {
        assert Names(w, i) && Agrees(w, i);
      }
    }
    forall a | a in v.books.attempts ensures Asks(v, a) {
      assert Asks(w, a);
    }
    forall id | 0 <= id < |v.offers| ensures Sold(v, id) {
      assert Sold(w, id);
    }
  }

  lemma OffersKeepLinks(w: World, v: World)
    requires Links(w) && v == w.(offers := v.offers) && |w.offers| <= |v.offers|
    requires forall id | 0 <= id < |v.offers| :: Offers.Ok(v.offers[id])
    requires forall id | 0 <= id < |w.offers| :: Offers.Later(w.offers[id], v.offers[id]) && v.offers[id].booking == w.offers[id].booking
    requires forall id | |w.offers| <= id < |v.offers| :: v.offers[id].booking.None?
    ensures Links(v)
  {
    forall b | 0 <= b < |v.books.cases| ensures Rests(v, b) {
      assert Rests(w, b);
    }
    forall i | 0 <= i < |v.quotes| ensures Names(v, i) && Agrees(v, i) {
      assert Names(w, i) && Agrees(w, i);
      if w.quotes[i].offer.Some? {
        assert Offers.Later(w.offers[w.quotes[i].offer.value], v.offers[w.quotes[i].offer.value]);
      }
    }
    forall a | a in v.books.attempts ensures Asks(v, a) {
      assert Asks(w, a);
    }
    forall id | 0 <= id < |v.offers| ensures Sold(v, id) {
      assert id < |w.offers| ==> Sold(w, id);
    }
  }

  lemma BooksKeepLinks(w: World, v: World)
    requires Links(w) && v == w.(books := v.books) && |v.books.cases| == |w.books.cases|
    requires forall b | 0 <= b < |w.books.cases| :: SameCase(w.books.cases[b], v.books.cases[b])
    requires forall a | a in v.books.attempts :: a in w.books.attempts && CT.DealsKept(w.books, v.books)
    ensures Links(v)
  {
    forall b | 0 <= b < |v.books.cases| ensures Rests(v, b) {
      assert Rests(w, b) && SameCase(w.books.cases[b], v.books.cases[b]);
    }
    forall i | 0 <= i < |v.quotes| ensures Names(v, i) && Agrees(v, i) {
      assert Names(w, i) && Agrees(w, i);
      if w.quotes[i].slot.booking.Some? {
        assert SameCase(w.books.cases[w.quotes[i].slot.booking.value], v.books.cases[w.quotes[i].slot.booking.value]);
      }
    }
    forall a | a in v.books.attempts ensures Asks(v, a) {
      assert Asks(w, a) && RS.SameDeal(w.books.attempts[a], v.books.attempts[a]);
    }
    forall id | 0 <= id < |v.offers| ensures Sold(v, id) {
      assert Sold(w, id);
      if w.offers[id].booking.Some? {
        assert SameCase(w.books.cases[w.offers[id].booking.value], v.books.cases[w.offers[id].booking.value]);
      }
    }
  }
}
