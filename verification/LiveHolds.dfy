/** A hold that is still running belongs to its buyer: what other people's quotes
    and bookings do never takes it away (services/core/cmd/api/quotes.go,
    holds.go, bookings.go, services/core/internal/store/holds.sql.go). */
module LiveHolds {
  import opened Common
  import opened Policy
  import opened Diary
  import opened World
  import opened WorldInvariant
  import opened WorldRuns
  import opened WorldSteps
  import Offers
  import B = Books
  import BI = BooksInvariant
  import C = Cases
  import opened HoldCap

  /** Quote and hold are held and neither has expired. */
  predicate Running(q: Quote, now: int) {
    q.state == Held && q.expires > now && q.slot.active && q.slot.booking == None && q.slot.expires > now
  }

  lemma QuoteSpares(qs: seq<Quote>, paying: set<int>, seller: int, buyer: int, starts: int, duration: nat, gross: int, buffer: nat, now: int, i: nat)
    requires i < |qs| && Running(qs[i], now)
    requires !(qs[i].buyer == buyer && qs[i].seller == seller && i !in paying)
    ensures var r := Diary.CreateQuote(qs, paying, seller, buyer, starts, duration, gross, buffer, now);
      r.Some? ==> i < |r.value| && r.value[i] == qs[i]
  {
    hide HoldsOf, Conflicts;
  }

  lemma OfferQuoteSpares(qs: seq<Quote>, paying: set<int>, id: nat, o: Offers.Offer, starts: int, gross: int, buffer: nat, now: int, i: nat)
    requires i < |qs| && Running(qs[i], now)
    requires !(qs[i].buyer == o.buyer && qs[i].seller == o.seller && i !in paying)
    ensures var r := Diary.CreateOfferQuote(qs, paying, id, o, starts, gross, buffer, now);
      r.Some? ==> i < |r.value| && r.value[i] == qs[i]
  {
    hide HoldsOf, Conflicts, CheckoutActive;
  }

  lemma MoveSpares(qs: seq<Quote>, b: nat, starts: int, buffer: nat, now: int, i: nat)
    requires b < |qs| && i < |qs| && i != b && Running(qs[i], now)
    ensures var r := Move(qs, b, starts, buffer, now); r.Some? ==> i < |r.value| && r.value[i] == qs[i]
  {
    hide Conflicts;
  }

  /** Nobody else can take a time that a running hold covers. */
  lemma HeldTimeIsRefused(qs: seq<Quote>, paying: set<int>, seller: int, buyer: int, starts: int, duration: nat, gross: int, buffer: nat, now: int, i: nat)
    requires DiaryOk(qs, now) && duration > 0 && i < |qs| && Running(qs[i], now) && qs[i].seller == seller && qs[i].buyer != buyer
    requires qs[i].slot.from < starts + (duration + buffer) * 60 && starts < qs[i].slot.to
    ensures Diary.CreateQuote(qs, paying, seller, buyer, starts, duration, gross, buffer, now) == None
  {
    hide HoldsOf;
    QuoteSpares(qs, paying, seller, buyer, starts, duration, gross, buffer, now, i);
  }

  // ---- exactly when a time is given ----

  /** The buyer's running holds that taking a time with this seller leaves. */
  function OtherHolds(qs: seq<Quote>, paying: set<int>, seller: int, buyer: int, now: int): nat {
    if qs == [] then 0
    else
      var n := |qs| - 1;
      var q := qs[n];
      var counts := q.buyer == buyer && q.state == Held && q.slot.active && q.slot.booking == None && q.slot.expires > now
        && !(q.seller == seller && n !in paying);
      OtherHolds(qs[..n], paying, seller, buyer, now) + (if counts then 1 else 0)
  }

  lemma {:induction false} ReplacedCount(qs: seq<Quote>, paying: set<int>, seller: int, buyer: int, now: int)
    ensures HoldsOf(ReplaceHolds(qs, buyer, seller, paying), buyer, now) == OtherHolds(qs, paying, seller, buyer, now)
  {
    if qs != [] {
      var n := |qs| - 1;
      ReplacedCount(qs[..n], paying, seller, buyer, now);
      assert ReplaceHolds(qs, buyer, seller, paying)[..n] == ReplaceHolds(qs[..n], buyer, seller, paying);
    }
  }

  /** A reservation that gives way: a hold that has lapsed, or the buyer's own
      for which nothing was begun. */
  predicate GivesWay(q: Quote, i: int, paying: set<int>, buyer: int, now: int) {
    q.slot.booking == None && (q.slot.expires <= now || (q.buyer == buyer && q.state == Held && i !in paying))
  }

  /** What a new time needs: at most two other running holds of the buyer, and
      nothing reserved in it that does not give way. */
  predicate TimeFree(qs: seq<Quote>, paying: set<int>, seller: int, buyer: int, from: int, to: int, now: int) {
    && OtherHolds(qs, paying, seller, buyer, now) <= 2
    && forall j | 0 <= j < |qs| && qs[j].seller == seller && qs[j].slot.active && qs[j].slot.from < to && from < qs[j].slot.to ::
         GivesWay(qs[j], j, paying, buyer, now)
  }

  /** For an agreed offer, too, that it does not hold a time already; the offer's
      own expired quotes give way as well. */
  predicate OfferTimeFree(qs: seq<Quote>, paying: set<int>, id: nat, seller: int, buyer: int, from: int, to: int, now: int) {
    && (forall j | 0 <= j < |qs| && qs[j].offer == Some(id) && qs[j].state == Held && qs[j].expires > now :: !qs[j].slot.active)
    && OtherHolds(qs, paying, seller, buyer, now) <= 2
    && forall j | 0 <= j < |qs| && qs[j].seller == seller && qs[j].slot.active && qs[j].slot.from < to && from < qs[j].slot.to ::
         GivesWay(qs[j], j, paying, buyer, now)
         || (qs[j].slot.booking == None && qs[j].offer == Some(id) && qs[j].state == Expired)
  }

  /** A time is held if and only if the buyer has at most two other running
      holds and whatever else is reserved in it gives way; then it is theirs for
      ten minutes, from the start for session and break. */
  lemma TimeHeldExactly(qs: seq<Quote>, paying: set<int>, seller: int, buyer: int, starts: int, duration: nat, gross: int, buffer: nat, now: int)
    ensures var r := Diary.CreateQuote(qs, paying, seller, buyer, starts, duration, gross, buffer, now);
      var to := starts + (duration + buffer) * 60;
      && (r.Some? <==> TimeFree(qs, paying, seller, buyer, starts, to, now))
      && (r.Some? ==>
            && |r.value| == |qs| + 1
            && r.value[|qs|] == Quote(seller, buyer, None, duration, starts, gross, Held, now + 600,
                 Slot(starts, to, true, None, now + 600)))
  {
    hide HoldsOf, OtherHolds;
    ReplacedCount(qs, paying, seller, buyer, now);
    var mine := ReplaceHolds(qs, buyer, seller, paying);
    var free := FreeLapsedHolds(LapseOfSeller(mine, seller, now), seller, starts, SlotEnd(starts, duration, buffer), now);
    var q := NewQuote(seller, buyer, None, starts, duration, gross, buffer, now);
    ConflictsExactly(qs, free, q, paying, buyer, now);
  }

  lemma ConflictsExactly(qs: seq<Quote>, free: seq<Quote>, q: Quote, paying: set<int>, buyer: int, now: int)
    requires free == FreeLapsedHolds(LapseOfSeller(ReplaceHolds(qs, buyer, q.seller, paying), q.seller, now), q.seller, q.slot.from, q.slot.to, now)
    requires q.slot.active
    ensures Conflicts(free, |free|, q) <==>
      exists j :: 0 <= j < |qs| && qs[j].seller == q.seller && qs[j].slot.active && qs[j].slot.from < q.slot.to && q.slot.from < qs[j].slot.to
        && !GivesWay(qs[j], j, paying, buyer, now)
  {
    forall j | 0 <= j < |qs|
      ensures Clash(free[j], q) <==>
        qs[j].seller == q.seller && qs[j].slot.active && qs[j].slot.from < q.slot.to && q.slot.from < qs[j].slot.to
        && !GivesWay(qs[j], j, paying, buyer, now)
    {}
  }

  /** The same for an agreed offer. */
  lemma OfferTimeHeldExactly(qs: seq<Quote>, paying: set<int>, id: nat, o: Offers.Offer, starts: int, gross: int, buffer: nat, now: int)
    requires DiaryOk(qs, now)
    ensures var r := Diary.CreateOfferQuote(qs, paying, id, o, starts, gross, buffer, now);
      var to := starts + (o.duration + buffer) * 60;
      && (r.Some? <==> OfferTimeFree(qs, paying, id, o.seller, o.buyer, starts, to, now))
      && (r.Some? ==>
            && |r.value| == |qs| + 1
            && r.value[|qs|] == Quote(o.seller, o.buyer, Some(id), o.duration, starts, gross, Held, now + 600,
                 Slot(starts, to, true, None, now + 600)))
  {
    hide HoldsOf, OtherHolds, DiaryOk;
    var to := SlotEnd(starts, o.duration, buffer);
    var free := FreeLapsedHolds(FreeOfOffer(LapseOfOffer(qs, id, now), id), o.seller, starts, to, now);
    ReplacedCount(free, paying, o.seller, o.buyer, now);
    OfferCount(qs, free, paying, id, o, starts, to, now);
    OfferConflicts(qs, ReplaceHolds(free, o.buyer, o.seller, paying),
      NewQuote(o.seller, o.buyer, Some(id), starts, o.duration, gross, buffer, now), paying, id, o.buyer, now);
  }

  lemma {:induction false} SameCount(qs: seq<Quote>, rs: seq<Quote>, paying: set<int>, seller: int, buyer: int, now: int)
    requires |qs| == |rs|
    requires forall i | 0 <= i < |qs| ::
      && rs[i].seller == qs[i].seller && rs[i].buyer == qs[i].buyer && rs[i].slot.expires == qs[i].slot.expires
      && (qs[i].slot.expires > now ==>
            && (qs[i].state == Held && IsHold(qs[i]) <==> rs[i].state == Held && IsHold(rs[i])))
    ensures OtherHolds(rs, paying, seller, buyer, now) == OtherHolds(qs, paying, seller, buyer, now)
  {
    if qs != [] {
      var n := |qs| - 1;
      SameCount(qs[..n], rs[..n], paying, seller, buyer, now);
    }
  }

  lemma OfferCount(qs: seq<Quote>, free: seq<Quote>, paying: set<int>, id: nat, o: Offers.Offer, from: int, to: int, now: int)
    requires DiaryOk(qs, now)
    requires free == FreeLapsedHolds(FreeOfOffer(LapseOfOffer(qs, id, now), id), o.seller, from, to, now)
    ensures OtherHolds(free, paying, o.seller, o.buyer, now) == OtherHolds(qs, paying, o.seller, o.buyer, now)
  {
    hide Disjoint, OtherHolds;
    assert forall i | 0 <= i < |qs| :: QuoteOk(qs[i], now);
    SameCount(qs, free, paying, o.seller, o.buyer, now);
  }

  lemma OfferConflicts(qs: seq<Quote>, mine: seq<Quote>, q: Quote, paying: set<int>, id: nat, buyer: int, now: int)
    requires DiaryOk(qs, now) && q.slot.active
    requires mine == ReplaceHolds(FreeLapsedHolds(FreeOfOffer(LapseOfOffer(qs, id, now), id), q.seller, q.slot.from, q.slot.to, now), buyer, q.seller, paying)
    ensures Conflicts(mine, |mine|, q) <==>
      exists j :: 0 <= j < |qs| && qs[j].seller == q.seller && qs[j].slot.active && qs[j].slot.from < q.slot.to && q.slot.from < qs[j].slot.to
        && !(GivesWay(qs[j], j, paying, buyer, now) || (qs[j].slot.booking == None && qs[j].offer == Some(id) && qs[j].state == Expired))
  {
    forall j | 0 <= j < |qs|
      ensures Clash(mine[j], q) <==>
        qs[j].seller == q.seller && qs[j].slot.active && qs[j].slot.from < q.slot.to && q.slot.from < qs[j].slot.to
        && !(GivesWay(qs[j], j, paying, buyer, now) || (qs[j].slot.booking == None && qs[j].offer == Some(id) && qs[j].state == Expired))
    {
      assert QuoteOk(qs[j], now);
    }
  }

  // ---- every step ----

  /** The hold as it was, perhaps longer; or the booking it was made into. */
  predicate Kept(q: Quote, r: Quote) {
    || (r.state == Converted && r.slot.booking.Some?)
    || (r == q.(expires := r.expires, slot := q.slot.(expires := r.slot.expires))
        && r.expires >= q.expires && r.slot.expires >= q.slot.expires)
  }

  /** The holder takes another time with the same seller, before paying began. */
  predicate TakesAnother(w: World, e: Event, i: nat) {
    && i < |w.quotes|
    && var q := w.quotes[i];
    && (forall a | a in w.books.attempts :: w.books.attempts[a].quote != i)
    && ((e.CreateQuote? && e.seller == q.seller && e.buyer == q.buyer)
        || (e.CreateOfferQuote? && e.offer < |w.offers|
            && w.offers[e.offer].seller == q.seller && w.offers[e.offer].buyer == q.buyer))
  }

  lemma ViewedSame(o: Offers.Offer, now: int)
    ensures var p := Offers.Viewed(o, now); p.seller == o.seller && p.buyer == o.buyer
  {}

  lemma QuoteStepSpares(w: World, seller: int, buyer: int, starts: int, duration: nat, base: int, buffer: nat, i: nat)
    requires i < |w.quotes| && Running(w.quotes[i], w.books.clock)
    requires !TakesAnother(w, CreateQuote(seller, buyer, starts, duration, base, buffer), i)
    ensures var v := QuoteStep(w, seller, buyer, starts, duration, base, buffer); i < |v.quotes| && v.quotes[i] == w.quotes[i]
  {
    hide Diary.CreateQuote;
    QuoteSpares(w.quotes, PayingQuotes(w.books.attempts), seller, buyer, starts, duration, FixedPrice(base, duration), buffer, w.books.clock, i);
  }

  lemma OfferStepSpares(w: World, id: nat, starts: int, buffer: nat, i: nat)
    requires i < |w.quotes| && Running(w.quotes[i], w.books.clock)
    requires !TakesAnother(w, CreateOfferQuote(id, starts, buffer), i)
    ensures var v := OfferQuoteStep(w, id, starts, buffer); i < |v.quotes| && v.quotes[i] == w.quotes[i]
  {
    hide Diary.CreateOfferQuote;
    if id < |w.offers| {
      var o := Offers.Viewed(w.offers[id], w.books.clock);
      ViewedSame(w.offers[id], w.books.clock);
      if o.state == Offers.Agreed && o.versions != [] {
        OfferQuoteSpares(w.quotes, PayingQuotes(w.books.attempts), id, o, starts, Offers.Amount(o), buffer, w.books.clock, i);
      }
    }
  }

  lemma PaySpares(cfg: Config, w: World, a: int, ch: B.Charge, valid: bool, available: bool, i: nat)
    requires i < |w.quotes| && Running(w.quotes[i], w.books.clock)
    ensures var v := PayStep(cfg, w, a, ch, valid, available); i < |v.quotes| && Kept(w.quotes[i], v.quotes[i])
  {
    hide B.Verify, First, MayReclaim;
  }

  lemma RescheduleSpares(cfg: Config, w: World, b: nat, newStart: int, buffer: nat, i: nat)
    requires i < |w.quotes| && Running(w.quotes[i], w.books.clock)
    ensures var v := RescheduleStep(cfg, w, b, newStart, buffer); i < |v.quotes| && v.quotes[i] == w.quotes[i]
  {
    hide C.Step, Move;
    if Reserved(w, b) {
      MoveSpares(w.quotes, w.books.cases[b].quote, newStart, buffer, w.books.clock, i);
      var moved := Move(w.quotes, w.books.cases[b].quote, newStart, buffer, w.books.clock);
      if moved.Some? {
        MoveLength(w.quotes, w.books.cases[b].quote, newStart, buffer, w.books.clock);
      }
    }
  }

  lemma MoveLength(qs: seq<Quote>, b: nat, starts: int, buffer: nat, now: int)
    requires b < |qs| && Move(qs, b, starts, buffer, now).Some?
    ensures |Move(qs, b, starts, buffer, now).value| == |qs|
  {}

  /** No step ends a hold that is still running when it is done, but its
      holder's other time with that seller, or its own booking. */
  lemma StepSpares(cfg: Config, w: World, e: Event, i: nat)
    requires i < |w.quotes| && Running(w.quotes[i], w.books.clock) && Running(w.quotes[i], Step(cfg, w, e).books.clock)
    requires !TakesAnother(w, e, i)
    ensures var v := Step(cfg, w, e); i < |v.quotes| && Kept(w.quotes[i], v.quotes[i])
  {
    hide QuoteStep, OfferQuoteStep, PayStep, RescheduleStep, B.Step, B.Start, C.Step, TakesAnother;
    match e
    case CreateQuote(seller, buyer, starts, duration, base, buffer) => QuoteStepSpares(w, seller, buyer, starts, duration, base, buffer, i);
    case CreateOfferQuote(id, starts, buffer) => OfferStepSpares(w, id, starts, buffer, i);
    case Pay(a, ch, valid, available) => PaySpares(cfg, w, a, ch, valid, available, i);
    case Reschedule(b, newStart, buffer) => RescheduleSpares(cfg, w, b, newStart, buffer, i);
    case _ =>
  }

  // ---- every run ----

  /** A booked quote stays booked. */
  lemma StepKeepsBooked(cfg: Config, w: World, e: Event, i: nat)
    requires Inv(cfg, w) && i < |w.quotes| && w.quotes[i].slot.booking.Some?
    ensures var v := Step(cfg, w, e); i < |v.quotes| && v.quotes[i].slot.booking == w.quotes[i].slot.booking
  {
    hide BI.Inv, Links, B.Step, B.Start, B.Verify, C.Step, First, ClaimSlot, Diary.CreateQuote, Diary.CreateOfferQuote, Move;
    match e
    case CreateQuote(seller, buyer, starts, duration, base, buffer) =>
      if duration > 0 {
        CreateQuoteKeeps(w.quotes, PayingQuotes(w.books.attempts), seller, buyer, starts, duration, FixedPrice(base, duration), buffer, w.books.clock);
      }
    case CreateOfferQuote(id, starts, buffer) =>
      if id < |w.offers| {
        var o := Offers.Viewed(w.offers[id], w.books.clock);
        if o.versions != [] && o.duration > 0 {
          CreateOfferQuoteKeeps(w.quotes, PayingQuotes(w.books.attempts), id, o, starts, Offers.Amount(o), buffer, w.books.clock);
        }
      }
    case Pay(a, ch, valid, available) =>
      if First(w.books, a, ch) {
        var q := AttemptQuote(w, a, ch);
        ClaimKeeps(w.quotes, w.offers, q, valid, available, w.books.clock);
      }
    case Reschedule(b, newStart, buffer) =>
      if Reserved(w, b) {
        MoveKeeps(w.quotes, w.books.cases[b].quote, newStart, buffer, w.books.clock);
      }
    case _ =>
  }

  lemma ClockForward(cfg: Config, w: World, e: Event)
    ensures Step(cfg, w, e).books.clock >= w.books.clock
  {
    hide PayStep, B.Step, B.Start, C.Step, Diary.CreateQuote, Diary.CreateOfferQuote, Move;
    match e
    case Tick(to) => TickClock(cfg, w.books, to);
    case OpenAttempt(a, i) => if i < |w.quotes| { StartClock(cfg, w.books, a, i, w.quotes[i].gross); }
    case Pay(a, ch, valid, available) => PayClock(cfg, w, a, ch, valid, available);
    case Money(m) => if OnlyMoney(m) { StartsStay(cfg, w.books, m); }
    case _ =>
  }

  lemma TickClock(cfg: Config, s: B.Books, to: int)
    ensures B.Step(cfg, s, B.Tick(to)).clock >= s.clock
  {}

  /** Somewhere in the run the holder took another time. */
  ghost predicate TookAnother(cfg: Config, w: World, es: seq<Event>, i: nat) {
    exists k :: 0 <= k < |es| && TakesAnother(Run(cfg, w, es[..k]), es[k], i)
  }

  lemma TookSnoc(cfg: Config, w: World, es: seq<Event>, i: nat)
    requires es != []
    ensures TookAnother(cfg, w, es, i) <==>
      TookAnother(cfg, w, es[..|es| - 1], i) || TakesAnother(Run(cfg, w, es[..|es| - 1]), es[|es| - 1], i)
  {
    hide Run, TakesAnother;
    var before := es[..|es| - 1];
    assert forall k | 0 <= k < |before| :: before[..k] == es[..k] && before[k] == es[k];
    if TookAnother(cfg, w, before, i) {
      var k :| 0 <= k < |before| && TakesAnother(Run(cfg, w, before[..k]), before[k], i);
      assert TakesAnother(Run(cfg, w, es[..k]), es[k], i);
    }
    if TookAnother(cfg, w, es, i) {
      var k :| 0 <= k < |es| && TakesAnother(Run(cfg, w, es[..k]), es[k], i);
      assert k < |before| ==> TakesAnother(Run(cfg, w, before[..k]), before[k], i);
    }
  }

  /** Over every run: a hold that is still running at the end of it is as it
      was, perhaps longer, or is the booking made from it, unless on the way its
      holder took another time with the same seller before paying began. */
  lemma {:induction false} HoldsLast(cfg: Config, w: World, es: seq<Event>, i: nat)
    requires Inv(cfg, w) && i < |w.quotes| && Running(w.quotes[i], w.books.clock)
    requires Running(w.quotes[i], Run(cfg, w, es).books.clock)
    ensures |Run(cfg, w, es).quotes| >= |w.quotes|
    ensures TookAnother(cfg, w, es, i) || Kept(w.quotes[i], Run(cfg, w, es).quotes[i])
  {
    hide Inv, Step, TakesAnother, TookAnother, Kept;
    if es != [] {
      var before, e := es[..|es| - 1], es[|es| - 1];
      var m := Run(cfg, w, before);
      ClockForward(cfg, m, e);
      HoldsLast(cfg, w, before, i);
      RunKeeps(cfg, w, before);
      QuotesStay(cfg, m, e);
      TookSnoc(cfg, w, es, i);
      if !TookAnother(cfg, w, es, i) {
        LastStep(cfg, w, m, e, i);
      }
    } else {
      KeptItself(w.quotes[i]);
    }
  }

  lemma KeptItself(q: Quote)
    ensures Kept(q, q)
  {}

  lemma LastStep(cfg: Config, w: World, m: World, e: Event, i: nat)
    requires Inv(cfg, m) && i < |w.quotes| && i < |m.quotes| && Kept(w.quotes[i], m.quotes[i]) && !TakesAnother(m, e, i)
    requires Running(w.quotes[i], m.books.clock) && Running(w.quotes[i], Step(cfg, m, e).books.clock)
    ensures i < |Step(cfg, m, e).quotes| && Kept(w.quotes[i], Step(cfg, m, e).quotes[i])
  {
    hide Step, TakesAnother, BI.Inv, Links;
    assert QuoteOk(m.quotes[i], m.books.clock);
    if m.quotes[i].slot.booking.Some? {
      StepKeepsBooked(cfg, m, e, i);
      StepKeeps(cfg, m, e);
      assert QuoteOk(Step(cfg, m, e).quotes[i], Step(cfg, m, e).books.clock);
    } else {
      StepSpares(cfg, m, e, i);
    }
  }

  lemma QuotesStay(cfg: Config, w: World, e: Event)
    ensures |Step(cfg, w, e).quotes| >= |w.quotes|
  {
    hide B.Step, B.Start, B.Verify, C.Step, First, Conflicts, HoldsOf, CheckoutActive, MayReclaim;
  }
}
