/** Every step of the whole service keeps bookings, quotes and offers in step. */
module WorldSteps {
  import opened Common
  import opened Policy
  import opened Diary
  import opened World
  import opened WorldInvariant
  import Offers
  import B = Books
  import C = Cases
  import R = Refunds
  import BI = BooksInvariant
  import RS = ReleaseSteps
  import Runs
  import OW = Onward
  import CT = ChargeTheorems

  // ---- quotes ----

  lemma RelaxedSame(qs: seq<Quote>, rs: seq<Quote>)
    requires Relaxed(qs, rs)
    ensures forall i | 0 <= i < |qs| :: SameQuote(qs[i], rs[i])
  {}

  /** Rows relaxed, then one hold added. */
  lemma QuotesGrow(w: World, v: World, q: Quote)
    requires Links(w) && v == w.(quotes := v.quotes) && |v.quotes| == |w.quotes| + 1
    requires Relaxed(w.quotes, v.quotes[..|w.quotes|]) && v.quotes[|w.quotes|] == q && q.slot.booking.None? && 0 < q.gross <= MAX_PRICE
    requires q.offer.Some? ==>
      && q.offer.value < |w.offers| && w.offers[q.offer.value].versions != []
      && Offers.WasAgreed(w.offers[q.offer.value]) && q.gross == Offers.Amount(w.offers[q.offer.value])
    ensures Links(v)
  {
    hide Links, Relaxed, SameQuote;
    var earlier := v.quotes[..|w.quotes|];
    RelaxedSame(w.quotes, earlier);
    QuotesKeepLinks(w, w.(quotes := earlier));
    assert v.quotes == earlier + [q];
    NewQuoteLinks(w.(quotes := earlier), v, q);
  }

  lemma QuoteStepKeeps(cfg: Config, w: World, seller: int, buyer: int, starts: int, duration: nat, base: int, buffer: nat)
    requires Inv(cfg, w)
    ensures Inv(cfg, QuoteStep(w, seller, buyer, starts, duration, base, buffer))
  {
    hide BI.Inv, DiaryOk, Links, Diary.CreateQuote, Relaxed;
    if duration in {15, 30, 60} && BasePrice(base) {
      var paying := PayingQuotes(w.books.attempts);
      var gross := FixedPrice(base, duration);
      var now := w.books.clock;
      CreateQuoteKeeps(w.quotes, paying, seller, buyer, starts, duration, gross, buffer, now);
      var r := Diary.CreateQuote(w.quotes, paying, seller, buyer, starts, duration, gross, buffer, now);
      if r.Some? {
        QuotesGrow(w, w.(quotes := r.value), NewQuote(seller, buyer, None, starts, duration, gross, buffer, now));
      }
    }
  }

  /** Replacing one offer by a later one that has the same booking. */
  lemma OneOffer(w: World, id: nat, o: Offers.Offer)
    requires Links(w) && id < |w.offers| && Offers.Ok(o)
    requires Offers.Later(w.offers[id], o) && o.booking == w.offers[id].booking
    ensures Links(w.(offers := w.offers[id := o]))
  {
    OffersKeepLinks(w, w.(offers := w.offers[id := o]));
  }

  lemma ViewedExtended(o: Offers.Offer, now: int, until: int)
    requires Offers.Ok(o)
    ensures var p := Offers.Viewed(o, now); Offers.Ok(p) && Offers.Later(o, p) && p.booking == o.booking
    ensures var p := Offers.Extended(o, until);
      Offers.Ok(p) && Offers.Later(o, p) && p.booking == o.booking && Offers.Amount(p) == Offers.Amount(o)
  {}

  lemma OfferQuoteStepKeeps(cfg: Config, w: World, id: nat, starts: int, buffer: nat)
    requires Inv(cfg, w)
    ensures Inv(cfg, OfferQuoteStep(w, id, starts, buffer))
  {
    hide BI.Inv, DiaryOk, Diary.CreateOfferQuote, Relaxed, Rests, Names, Agrees, Asks, Sold, Offers.Viewed, Offers.Extended;
    if id < |w.offers| {
      var now := w.books.clock;
      assert Offers.Ok(w.offers[id]);
      ViewedExtended(w.offers[id], now, 0);
      var o := Offers.Viewed(w.offers[id], now);
      OneOffer(w, id, o);
      if o.state == Offers.Agreed && o.versions != [] && o.duration > 0 {
        var paying := PayingQuotes(w.books.attempts);
        CreateOfferQuoteKeeps(w.quotes, paying, id, o, starts, Offers.Amount(o), buffer, now);
        var r := Diary.CreateOfferQuote(w.quotes, paying, id, o, starts, Offers.Amount(o), buffer, now);
        if r.Some? {
          ViewedExtended(o, now, now + SELECTION_HOLD);
          var e := Offers.Extended(o, now + SELECTION_HOLD);
          var u := w.(offers := w.offers[id := o]);
          OneOffer(u, id, e);
          assert u.offers[id := e] == w.offers[id := e];
          QuotesGrow(w.(offers := w.offers[id := e]), w.(offers := w.offers[id := e], quotes := r.value),
            NewQuote(o.seller, o.buyer, Some(id), starts, o.duration, Offers.Amount(o), buffer, now));
        }
      }
    }
  }

  /** Replacing one quote row that is and stays a hold. */
  lemma OneQuote(w: World, i: nat, q: Quote)
    requires Links(w) && i < |w.quotes| && SameQuote(w.quotes[i], q)
    ensures Links(w.(quotes := w.quotes[i := q]))
  {
    QuotesKeepLinks(w, w.(quotes := w.quotes[i := q]));
  }

  lemma ViewQuoteKeeps(cfg: Config, w: World, i: nat)
    requires Inv(cfg, w) && i < |w.quotes|
    ensures Inv(cfg, w.(quotes := w.quotes[i := Viewed(w.quotes[i], w.books.clock)]))
  {
    hide BI.Inv, DiaryOk, Links, Viewed;
    ViewKeeps(w.quotes, i, w.books.clock);
    OneQuote(w, i, Viewed(w.quotes[i], w.books.clock));
  }

  lemma ExtendStepKeeps(cfg: Config, w: World, i: nat, until: int)
    requires Inv(cfg, w)
    ensures Inv(cfg, ExtendStep(w, i, until))
  {
    hide BI.Inv, DiaryOk, Rests, Names, Agrees, Asks, Sold, Offers.Extended;
    if i < |w.quotes| {
      ExtendKeeps(w.quotes, i, until, w.books.clock);
      var r := Extend(w.quotes[i], until, w.books.clock);
      if r.Some? {
        var u := w.(quotes := w.quotes[i := r.value]);
        OneQuote(w, i, r.value);
        var offer := w.quotes[i].offer;
        if offer.Some? && offer.value < |w.offers| {
          ViewedExtended(w.offers[offer.value], 0, until);
          OneOffer(u, offer.value, Offers.Extended(w.offers[offer.value], until));
        }
      }
    }
  }

  lemma OpenAttemptKeeps(cfg: Config, w: World, a: int, i: nat)
    requires Inv(cfg, w) && i < |w.quotes|
    ensures Inv(cfg, w.(books := B.Start(cfg, w.books, a, i, w.quotes[i].gross)))
  {
    hide BI.Inv, DiaryOk, Agrees, B.AmountOk;
    var v := w.(books := B.Start(cfg, w.books, a, i, w.quotes[i].gross));
    RS.StartKeeps(cfg, w.books, a, i, w.quotes[i].gross);
    forall b | 0 <= b < |v.books.cases| ensures Rests(v, b) {
      assert Rests(w, b);
    }
    forall k | 0 <= k < |v.quotes| ensures Names(v, k) && Agrees(v, k) {
      assert Names(w, k) && Agrees(w, k);
      AgreesFrame(w, v, k);
    }
    forall x | x in v.books.attempts ensures Asks(v, x) {
      assert x in w.books.attempts ==> Asks(w, x);
    }
    forall id | 0 <= id < |v.offers| ensures Sold(v, id) {
      assert Sold(w, id);
    }
  }

  lemma AgreesFrame(w: World, v: World, i: nat)
    requires i < |w.quotes| && v.quotes == w.quotes && v.offers == w.offers && Agrees(w, i)
    ensures Agrees(v, i)
  {}

  // ---- offers ----

  lemma RespondStepKeeps(cfg: Config, w: World, id: nat, side: Offers.Role, version: int, action: Offers.Action)
    requires Inv(cfg, w) && id < |w.offers|
    ensures Inv(cfg, w.(offers := w.offers[id := Offers.Respond(w.offers[id], side, version, action, w.books.clock).0]))
  {
    hide BI.Inv, DiaryOk, Rests, Names, Agrees, Asks, Sold;
    Offers.RespondKeeps(w.offers[id], side, version, action, w.books.clock);
    OneOffer(w, id, Offers.Respond(w.offers[id], side, version, action, w.books.clock).0);
  }

  lemma ViewOfferKeeps(cfg: Config, w: World, id: nat)
    requires Inv(cfg, w) && id < |w.offers|
    ensures Inv(cfg, w.(offers := w.offers[id := Offers.Viewed(w.offers[id], w.books.clock)]))
  {
    hide BI.Inv, DiaryOk, Rests, Names, Agrees, Asks, Sold;
    ViewedExtended(w.offers[id], w.books.clock, 0);
    OneOffer(w, id, Offers.Viewed(w.offers[id], w.books.clock));
  }

  lemma CreateOfferKeeps(cfg: Config, w: World, seller: int, buyer: int, duration: nat, amount: int)
    requires Inv(cfg, w) && Offers.Create(seller, buyer, duration, amount, w.books.clock).Some?
    ensures Inv(cfg, w.(offers := w.offers + [Offers.Create(seller, buyer, duration, amount, w.books.clock).value]))
  {
    hide BI.Inv, DiaryOk, Rests, Names, Agrees, Asks, Sold;
    OffersKeepLinks(w, w.(offers := w.offers + [Offers.Create(seller, buyer, duration, amount, w.books.clock).value]));
  }

  // ---- money steps, seen from the diary ----

  /** Only a reschedule moves the start of a booking. */
  lemma StartsStay(cfg: Config, s: B.Books, e: B.Event)
    requires OnlyMoney(e)
    ensures var t := B.Step(cfg, s, e);
      t.clock == s.clock && |t.cases| == |s.cases| && forall b | 0 <= b < |s.cases| :: t.cases[b].start == s.cases[b].start
  {
    hide B.Finalize, B.Release, B.Send, B.Reverse, B.RetryPayout, C.Step;
    match e
    case OnBooking(b, what) => if b < |s.cases| { CaseStartStays(cfg, s, b, what); }
    case FinalizeRefund(b, i) => OW.FinalizeRow(s, b, i);
    case ReleasePayout(b) => OW.ReleaseRow(cfg, s, b);
    case CheckReversal(b) => OW.ReverseRow(s, b);
    case SendPayout(b, lookup, readable, reply) => OW.SendRow(s, b, lookup, readable, reply);
    case Retry(b, automatic) => OW.RetryRow(s, b, automatic);
    case _ =>
  }

  lemma CaseStartStays(cfg: Config, s: B.Books, b: nat, e: C.Event)
    requires b < |s.cases| && !e.Reschedule?
    ensures var r := CaseStep(cfg, s, b, e); r.Some? ==> r.value.start == s.cases[b].start
  {
    hide R.Act, R.HasLive;
  }

  /** No money step adds an attempt. */
  lemma NoNewAttempts(cfg: Config, s: B.Books, e: B.Event)
    requires OnlyMoney(e)
    ensures forall a | a in B.Step(cfg, s, e).attempts :: a in s.attempts
  {
    hide B.Finalize, B.Release, B.Send, B.Reverse, B.Act;
    if CT.Writes(e).None? {
      CT.OtherAttempts(cfg, s, e);
    }
  }

  lemma SameCases(s: B.Books, t: B.Books)
    requires OW.Later(s, t) && |t.cases| == |s.cases|
    requires forall b | 0 <= b < |s.cases| :: t.cases[b].start == s.cases[b].start
    ensures forall b | 0 <= b < |s.cases| :: SameCase(s.cases[b], t.cases[b])
  {}

  lemma MoneyKeeps(cfg: Config, w: World, e: B.Event)
    requires Inv(cfg, w) && OnlyMoney(e)
    ensures Inv(cfg, w.(books := B.Step(cfg, w.books, e)))
  {
    hide BI.Inv, DiaryOk, Links, B.Step, OW.Later, CT.DealsKept, SameCase;
    var t := B.Step(cfg, w.books, e);
    Runs.StepKeeps(cfg, w.books, e);
    OW.StepLater(cfg, w.books, e);
    StartsStay(cfg, w.books, e);
    SameCases(w.books, t);
    CT.StepDeals(cfg, w.books, e);
    NoNewAttempts(cfg, w.books, e);
    BooksKeepLinks(w, w.(books := t));
  }

  lemma TickKeeps(cfg: Config, w: World, to: int)
    requires Inv(cfg, w)
    ensures Inv(cfg, w.(books := B.Step(cfg, w.books, B.Tick(to))))
  {
    hide BI.Inv, DiaryOk, Links;
    var t := B.Step(cfg, w.books, B.Tick(to));
    Runs.StepKeeps(cfg, w.books, B.Tick(to));
    TimePasses(w.quotes, w.books.clock, t.clock);
    forall b | 0 <= b < |w.books.cases| ensures SameCase(w.books.cases[b], t.cases[b]) {}
    BooksKeepLinks(w, w.(books := t));
  }
}
