/** The whole service: the money tables with the diary and the offers, and the
    steps that touch more than one of them (services/core/cmd/api/quotes.go,
    checkout.go, payment_processing.go, bookings.go, cancellation.go). */
module World {
  import opened Common
  import opened Policy
  import opened Diary
  import Offers
  import B = Books
  import C = Cases

  datatype World = World(books: B.Books, quotes: seq<Quote>, offers: seq<Offers.Offer>)

  datatype Event =
    | Tick(to: int)
    | CreateQuote(seller: int, buyer: int, starts: int, duration: nat, base: int, buffer: nat)
    | CreateOfferQuote(offer: nat, starts: int, buffer: nat)
    | ViewQuote(quote: nat)
    | ExtendHold(quote: nat, until: int)
    | OpenAttempt(attempt: int, quote: nat)
    | CreateOffer(seller: int, buyer: int, duration: nat, amount: int)
    | RespondOffer(offer: nat, side: Offers.Role, version: int, action: Offers.Action)
    | ViewOffer(offer: nat)
    | Pay(attempt: int, charge: B.Charge, valid: bool, available: bool)
    | CancelBooking(booking: nat, role: C.Role, expected: int)
    | Reschedule(booking: nat, newStart: int, buffer: nat)
    | Money(e: B.Event)

  /** The quotes for which paying has begun. */
  function PayingQuotes(attempts: map<int, B.Attempt>): set<int> {
    set a | a in attempts :: attempts[a].quote
  }

  /** What a seller may ask for thirty minutes. */
  predicate BasePrice(base: int) { 100 <= base <= 100_000_000 }

  /** The fixed price of a conversation: its part of the price of thirty
      minutes, to the nearest minor unit, halves up. */
  function FixedPrice(base: int, duration: nat): (price: int)
    ensures BasePrice(base) && duration in {15, 30, 60} ==> 0 < price <= MAX_PRICE
    ensures base * duration - 15 < 30 * price <= base * duration + 15
    ensures duration == 30 ==> price == base
  {
    (base * duration + 15) / 30
  }

  function QuoteStep(w: World, seller: int, buyer: int, starts: int, duration: nat, base: int, buffer: nat): World {
    if duration !in {15, 30, 60} || !BasePrice(base) then w
    else
      var r := Diary.CreateQuote(w.quotes, PayingQuotes(w.books.attempts), seller, buyer, starts, duration,
        FixedPrice(base, duration), buffer, w.books.clock);
      if r.None? then w else w.(quotes := r.value)
  }

  /** createOfferQuote: the agreement must be open; the latest version is the
      price, and the paying window lasts at least as long as the new hold. */
  function OfferQuoteStep(w: World, id: nat, starts: int, buffer: nat): World {
    if id >= |w.offers| then w
    else
      var o := Offers.Viewed(w.offers[id], w.books.clock);
      if o.state != Offers.Agreed || o.versions == [] || o.duration == 0 then w.(offers := w.offers[id := o])
      else
        var r := Diary.CreateOfferQuote(w.quotes, PayingQuotes(w.books.attempts), id, o, starts,
          Offers.Amount(o), buffer, w.books.clock);
        if r.None? then w
        else w.(quotes := r.value, offers := w.offers[id := Offers.Extended(o, w.books.clock + SELECTION_HOLD)])
  }

  function ExtendStep(w: World, i: nat, until: int): World {
    if i >= |w.quotes| then w
    else
      var r := Extend(w.quotes[i], until, w.books.clock);
      if r.None? then w
      else
        var offer := w.quotes[i].offer;
        w.(quotes := w.quotes[i := r.value],
           offers := if offer.Some? && offer.value < |w.offers|
             then w.offers[offer.value := Offers.Extended(w.offers[offer.value], until)] else w.offers)
  }

  /** A success that matches its attempt, for a quote without a booking. */
  predicate First(s: B.Books, a: int, ch: B.Charge) {
    && a in s.attempts && B.SnapshotOk(s.attempts[a]) && B.Accepted(s.attempts[a], ch)
    && B.BookingForQuote(s.cases, s.attempts[a].quote).None?
  }

  function SlotFor(q: Quote, claim: Claim): B.Slot {
    match claim
    case Taken => B.SlotTaken
    case Unavailable => B.SellerUnavailable
    case Closed => B.OfferClosed
    case Ours => B.Free(q.seller, q.starts, q.duration)
  }

  function Convert(offers: seq<Offers.Offer>, offer: Option<nat>, booking: nat): seq<Offers.Offer> {
    if offer.Some? && offer.value < |offers| then offers[offer.value := Offers.Convert(offers[offer.value], booking)] else offers
  }

  /** applyVerifiedCharge with the diary: secure the time, book, and commit all
      of it together, or keep a reclaimed hold when only the booking failed. */
  ghost function PayStep(cfg: Config, w: World, a: int, ch: B.Charge, valid: bool, available: bool): World {
    if !First(w.books, a, ch) then w.(books := B.Verify(cfg, w.books, a, ch, B.SlotTaken).0)
    else
      var q := w.books.attempts[a].quote;
      if !(0 <= q < |w.quotes|) then w
      else
        var (qs, claim) := ClaimSlot(w.quotes, w.offers, q, valid, available, w.books.clock);
        var (books, answer) := B.Verify(cfg, w.books, a, ch, SlotFor(w.quotes[q], claim));
        if claim != Ours then w.(books := books, quotes := qs)
        else if answer.None? then w
        else World(books, qs[q := Confirm(qs[q], answer.value)], Convert(w.offers, qs[q].offer, answer.value))
  }

  predicate Reserved(w: World, b: nat) {
    && b < |w.books.cases| && 0 <= w.books.cases[b].quote < |w.quotes|
    && w.quotes[w.books.cases[b].quote].slot.booking == Some(b)
  }

  /** What the booking's own transaction makes of its row. */
  function CaseStep(cfg: Config, s: B.Books, b: nat, e: C.Event): Option<C.Case>
    requires b < |s.cases|
  {
    C.Step(cfg, s.clock, B.Verified(s, s.cases[b]), B.FeeOf(s, s.cases[b]), s.cases[b], e)
  }

  function CancelStep(cfg: Config, w: World, b: nat, role: C.Role, expected: int): World {
    if b >= |w.books.cases| || CaseStep(cfg, w.books, b, C.Cancel(role, expected)).None? then w
    else
      var q := w.books.cases[b].quote;
      w.(books := B.Act(cfg, w.books, b, C.Cancel(role, expected)),
         quotes := if Reserved(w, b) then w.quotes[q := Cancelled(w.quotes[q])] else w.quotes)
  }

  function RescheduleStep(cfg: Config, w: World, b: nat, newStart: int, buffer: nat): World {
    if !Reserved(w, b) || CaseStep(cfg, w.books, b, C.Reschedule(newStart)).None? then w
    else
      var moved := Move(w.quotes, w.books.cases[b].quote, newStart, buffer, w.books.clock);
      if moved.None? then w
      else w.(books := B.Act(cfg, w.books, b, C.Reschedule(newStart)), quotes := moved.value)
  }

  /** The money steps that involve neither diary nor offers. */
  predicate OnlyMoney(e: B.Event) {
    match e
    case Tick(_) => false
    case StartAttempt(_, _, _) => false
    case VerifyCharge(_, _, _) => false
    case OnBooking(_, what) => !what.Cancel? && !what.Reschedule?
    case _ => true
  }

  ghost function Step(cfg: Config, w: World, e: Event): World {
    match e
    case Tick(to) => w.(books := B.Step(cfg, w.books, B.Tick(to)))
    case CreateQuote(seller, buyer, starts, duration, base, buffer) => QuoteStep(w, seller, buyer, starts, duration, base, buffer)
    case CreateOfferQuote(id, starts, buffer) => OfferQuoteStep(w, id, starts, buffer)
    case ViewQuote(i) => if i < |w.quotes| then w.(quotes := w.quotes[i := Viewed(w.quotes[i], w.books.clock)]) else w
    case ExtendHold(i, until) => ExtendStep(w, i, until)
    case OpenAttempt(a, i) => if i < |w.quotes| then w.(books := B.Start(cfg, w.books, a, i, w.quotes[i].gross)) else w
    case CreateOffer(seller, buyer, duration, amount) =>
      var o := Offers.Create(seller, buyer, duration, amount, w.books.clock);
      if o.None? then w else w.(offers := w.offers + [o.value])
    case RespondOffer(id, role, version, action) =>
      if id < |w.offers| then w.(offers := w.offers[id := Offers.Respond(w.offers[id], role, version, action, w.books.clock).0]) else w
    case ViewOffer(id) =>
      if id < |w.offers| then w.(offers := w.offers[id := Offers.Viewed(w.offers[id], w.books.clock)]) else w
    case Pay(a, ch, valid, available) => PayStep(cfg, w, a, ch, valid, available)
    case CancelBooking(b, role, expected) => CancelStep(cfg, w, b, role, expected)
    case Reschedule(b, newStart, buffer) => RescheduleStep(cfg, w, b, newStart, buffer)
    case Money(m) => if OnlyMoney(m) then w.(books := B.Step(cfg, w.books, m)) else w
  }

  ghost function Run(cfg: Config, w: World, es: seq<Event>): World {
    if es == [] then w else Step(cfg, Run(cfg, w, es[..|es| - 1]), es[|es| - 1])
  }

  function Initial(clock: int): World { World(B.Initial(clock), [], []) }
}
