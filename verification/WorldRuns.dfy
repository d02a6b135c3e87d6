/** Paying, cancelling and moving a booking; then every step and every run. */
module WorldRuns {
  import opened Common
  import opened Policy
  import opened Diary
  import opened World
  import opened WorldInvariant
  import opened WorldSteps
  import Offers
  import B = Books
  import C = Cases
  import R = Refunds
  import BI = BooksInvariant
  import RS = ReleaseSteps
  import Runs
  import OW = Onward
  import CT = ChargeTheorems

  // ---- cancelling ----

  /** Giving up the time of a booking that no longer stands. */
  lemma ReleasedLinks(w: World, b: nat)
    requires Links(w) && b < |w.books.cases| && w.books.cases[b].state != C.Confirmed
    ensures Reserved(w, b)
    ensures var q := w.books.cases[b].quote; Links(w.(quotes := w.quotes[q := Cancelled(w.quotes[q])]))
  {
    hide Agrees, Asks;
    assert Rests(w, b);
    var q := w.books.cases[b].quote;
    var v := w.(quotes := w.quotes[q := Cancelled(w.quotes[q])]);
    forall k | 0 <= k < |v.books.cases| ensures Rests(v, k) {
      assert Rests(w, k);
    }
    SlotOnly(w, v, q);
  }

  /** Only a booking's own reservation times changed. */
  lemma SlotOnly(w: World, v: World, q: nat)
    requires Links(w) && q < |w.quotes| && v == w.(quotes := v.quotes) && |v.quotes| == |w.quotes|
    requires forall i | 0 <= i < |w.quotes| && i != q :: SameQuote(w.quotes[i], v.quotes[i])
    requires v.quotes[q] == w.quotes[q].(slot := v.quotes[q].slot) && v.quotes[q].slot.booking == w.quotes[q].slot.booking
    ensures forall i | 0 <= i < |v.quotes| :: Names(v, i) && Agrees(v, i)
    ensures forall a | a in v.books.attempts :: Asks(v, a)
    ensures forall id | 0 <= id < |v.offers| :: Offers.Ok(v.offers[id]) && Sold(v, id)
  {
    forall i | 0 <= i < |v.quotes| ensures Names(v, i) && Agrees(v, i) {
      assert Names(w, i) && Agrees(w, i);
      assert i != q ==> SameQuote(w.quotes[i], v.quotes[i]);
    }
    forall a | a in v.books.attempts ensures Asks(v, a) {
      assert Asks(w, a);
      assert w.books.attempts[a].quote != q ==> SameQuote(w.quotes[w.books.attempts[a].quote], v.quotes[w.books.attempts[a].quote]);
    }
    forall id | 0 <= id < |v.offers| ensures Sold(v, id) {
      assert Sold(w, id);
      if w.offers[id].booking.Some? {
        var k := w.books.cases[w.offers[id].booking.value].quote;
        assert k != q ==> SameQuote(w.quotes[k], v.quotes[k]);
      }
    }
  }

  lemma CancelStepKeeps(cfg: Config, w: World, b: nat, role: C.Role, expected: int)
    requires Inv(cfg, w)
    ensures Inv(cfg, CancelStep(cfg, w, b, role, expected))
  {
    hide BI.Inv, DiaryOk, Links, C.Step, B.Verified, B.FeeOf;
    if b < |w.books.cases| && CaseStep(cfg, w.books, b, C.Cancel(role, expected)).Some? {
      BI.ActKeeps(cfg, w.books, b, C.Cancel(role, expected));
      var u := w.(books := B.Act(cfg, w.books, b, C.Cancel(role, expected)));
      CancelledCase(cfg, w, b, role, expected);
      BooksKeepLinks(w, u);
      ReleasedLinks(u, b);
      BookingSlot(w, b);
      CancelKeeps(w.quotes, w.books.cases[b].quote, w.books.clock);
      assert u.books.cases[b].quote == w.books.cases[b].quote;
    }
  }

  lemma BookingSlot(w: World, b: nat)
    requires Links(w) && b < |w.books.cases|
    ensures Reserved(w, b)
  {
    assert Rests(w, b);
  }

  lemma CancelledCase(cfg: Config, w: World, b: nat, role: C.Role, expected: int)
    requires Inv(cfg, w) && b < |w.books.cases| && CaseStep(cfg, w.books, b, C.Cancel(role, expected)).Some?
    ensures var t := B.Act(cfg, w.books, b, C.Cancel(role, expected));
      && |t.cases| == |w.books.cases| && t.attempts == w.books.attempts && t.clock == w.books.clock
      && t.cases[b].state == C.Cancelled && t.cases[b].quote == w.books.cases[b].quote
      && CT.DealsKept(w.books, t)
      && forall k | 0 <= k < |t.cases| :: SameCase(w.books.cases[k], t.cases[k])
  {
    hide DiaryOk, Links, R.HasLive;
  }

  // ---- moving ----

  lemma RescheduleStepKeeps(cfg: Config, w: World, b: nat, newStart: int, buffer: nat)
    requires Inv(cfg, w)
    ensures Inv(cfg, RescheduleStep(cfg, w, b, newStart, buffer))
  {
    hide BI.Inv, DiaryOk, Links, C.Step, Move, B.Verified, B.FeeOf;
    if Reserved(w, b) && CaseStep(cfg, w.books, b, C.Reschedule(newStart)).Some? {
      var q := w.books.cases[b].quote;
      var moved := Move(w.quotes, q, newStart, buffer, w.books.clock);
      if moved.Some? {
        BI.ActKeeps(cfg, w.books, b, C.Reschedule(newStart));
        MoveKeeps(w.quotes, q, newStart, buffer, w.books.clock);
        MovedLinks(cfg, w, RescheduleStep(cfg, w, b, newStart, buffer), b, newStart, buffer);
      }
    }
  }

  lemma MovedLinks(cfg: Config, w: World, v: World, b: nat, newStart: int, buffer: nat)
    requires Inv(cfg, w) && Reserved(w, b)
    requires CaseStep(cfg, w.books, b, C.Reschedule(newStart)).Some?
    requires Move(w.quotes, w.books.cases[b].quote, newStart, buffer, w.books.clock) == Some(v.quotes)
    requires v == w.(books := B.Act(cfg, w.books, b, C.Reschedule(newStart)), quotes := v.quotes)
    ensures Links(v) && v.books.clock == w.books.clock
  {
    hide BI.Inv, Agrees, Asks, Offers.Ok;
    var q := w.books.cases[b].quote;
    MoveKeeps(w.quotes, q, newStart, buffer, w.books.clock);
    forall i | 0 <= i < |w.quotes| && i != q ensures SameQuote(w.quotes[i], v.quotes[i]) {
      assert Relaxes(w.quotes[i], v.quotes[i]);
    }
    var u := w.(quotes := v.quotes);
    SlotOnly(w, u, q);
    forall k | 0 <= k < |v.books.cases| ensures Rests(v, k) {
      assert Rests(w, k) && Rests(w, b);
      assert k != b ==> w.books.cases[k].quote != q && SameQuote(w.quotes[w.books.cases[k].quote], v.quotes[w.books.cases[k].quote]);
    }
    forall i | 0 <= i < |v.quotes| ensures Names(v, i) && Agrees(v, i) {
      assert Names(u, i) && Agrees(u, i);
      AgreesFrame(u, v, i);
    }
    forall a | a in v.books.attempts ensures Asks(v, a) {
      assert Asks(u, a);
      AsksFrame(u, v, a);
    }
    forall id | 0 <= id < |v.offers| ensures Sold(v, id) {
      assert Sold(u, id);
    }
  }

  lemma AsksFrame(w: World, v: World, a: int)
    requires a in w.books.attempts && v.books.attempts == w.books.attempts && v.quotes == w.quotes && Asks(w, a)
    ensures a in v.books.attempts && Asks(v, a)
  {}

  // ---- paying ----

  /** Without a first accepted charge and a free slot, no booking is added. */
  lemma NoBooking(cfg: Config, s: B.Books, a: int, ch: B.Charge, slot: B.Slot)
    requires !First(s, a, ch) || !slot.Free?
    ensures B.Verify(cfg, s, a, ch, slot).0.cases == s.cases
  {
    hide B.BookingForQuote, B.Repriced, B.AmountOk, B.Book;
    if a in s.attempts {
      CT.RepricedDeal(s.attempts[a], ch);
    }
  }

  /** A first accepted charge for a free slot adds the booking it answers with. */
  lemma NewBooking(cfg: Config, s: B.Books, a: int, ch: B.Charge, seller: int, start: int, duration: nat)
    requires First(s, a, ch) && B.Verify(cfg, s, a, ch, B.Free(seller, start, duration)).1.Some?
    ensures var (t, answer) := B.Verify(cfg, s, a, ch, B.Free(seller, start, duration));
      && answer == Some(|s.cases|) && |t.cases| == |s.cases| + 1 && t.cases[..|s.cases|] == s.cases
      && var c := t.cases[|s.cases|];
         && c.quote == s.attempts[a].quote && c.seller == seller && c.start == start && c.duration == duration
         && c.gross == s.attempts[a].expected - s.attempts[a].buyerFee && c.state == C.Confirmed
  {}

  lemma PaidAttempts(cfg: Config, s: B.Books, a: int, ch: B.Charge, slot: B.Slot)
    requires BI.Inv(cfg, s)
    ensures var t := B.Verify(cfg, s, a, ch, slot).0;
      t.clock == s.clock && CT.DealsKept(s, t) && forall x | x in t.attempts :: x in s.attempts
  {
    hide BI.Inv, B.Verify;
    OW.VerifyAdds(cfg, s, a, ch, slot);
    if a in s.attempts {
      CT.VerifyDeals(cfg, s, a, ch, slot);
    } else {
      CT.UnknownAttempt(cfg, s, a, ch, slot);
    }
  }

  /** The books change without a new booking. */
  lemma UnbookedLinks(cfg: Config, w: World, a: int, ch: B.Charge, slot: B.Slot)
    requires BI.Inv(cfg, w.books) && Links(w) && (!First(w.books, a, ch) || !slot.Free?)
    ensures Links(w.(books := B.Verify(cfg, w.books, a, ch, slot).0))
  {
    hide BI.Inv, B.Verify, Links, First, CT.DealsKept;
    var t := B.Verify(cfg, w.books, a, ch, slot).0;
    NoBooking(cfg, w.books, a, ch, slot);
    PaidAttempts(cfg, w.books, a, ch, slot);
    forall b | 0 <= b < |w.books.cases| ensures SameCase(w.books.cases[b], t.cases[b]) {}
    BooksKeepLinks(w, w.(books := t));
  }

  /** The new booking rests on the quote that was confirmed for it. */
  lemma BookedLinks(w: World, v: World, q: nat)
    requires Links(w) && q < |w.quotes| && w.quotes[q].slot.booking.None?
    requires IsHold(w.quotes[q]) && w.quotes[q].slot.from == w.quotes[q].starts
    requires w.quotes[q].slot.to >= w.quotes[q].starts + w.quotes[q].duration * MINUTE
    requires var o := w.quotes[q].offer; o.Some? ==> o.value < |w.offers| && Offers.Payable(w.offers[o.value])
    requires var n := |w.books.cases|;
      && |v.books.cases| == n + 1 && v.books.cases[..n] == w.books.cases
      && v.quotes == w.quotes[q := Confirm(w.quotes[q], n)] && v.offers == Convert(w.offers, w.quotes[q].offer, n)
      && var c := v.books.cases[n];
         && c.quote == q && c.seller == w.quotes[q].seller && c.start == w.quotes[q].starts
         && c.duration == w.quotes[q].duration && c.gross == w.quotes[q].gross
    requires CT.DealsKept(w.books, v.books) && forall x | x in v.books.attempts :: x in w.books.attempts
    ensures Links(v)
  {
    var n := |w.books.cases|;
    forall k | 0 <= k < |v.books.cases| ensures Rests(v, k) {
      if k < n {
        assert Rests(w, k) && v.books.cases[k] == w.books.cases[k];
      }
    }
    forall i | 0 <= i < |v.quotes| ensures Names(v, i) && Agrees(v, i) {
      assert Names(w, i) && Agrees(w, i);
      assert w.quotes[i].slot.booking.Some? ==> v.books.cases[w.quotes[i].slot.booking.value] == w.books.cases[w.quotes[i].slot.booking.value];
    }
    forall a | a in v.books.attempts ensures Asks(v, a) {
      assert Asks(w, a) && RS.SameDeal(w.books.attempts[a], v.books.attempts[a]);
    }
    assert Agrees(w, q);
    forall id | 0 <= id < |v.offers| ensures Offers.Ok(v.offers[id]) && Sold(v, id) {
      assert Offers.Ok(w.offers[id]) && Sold(w, id);
      assert w.offers[id].booking.Some? ==> v.books.cases[w.offers[id].booking.value] == w.books.cases[w.offers[id].booking.value];
    }
  }

  lemma PayStepKeeps(cfg: Config, w: World, a: int, ch: B.Charge, valid: bool, available: bool)
    requires Inv(cfg, w)
    ensures Inv(cfg, PayStep(cfg, w, a, ch, valid, available))
  {
    hide BI.Inv, DiaryOk, Links, B.Verify, ClaimSlot, First, Confirm, Convert;
    if !First(w.books, a, ch) {
      Runs.VerifyKeeps(cfg, w.books, a, ch, B.SlotTaken);
      PaidAttempts(cfg, w.books, a, ch, B.SlotTaken);
      UnbookedLinks(cfg, w, a, ch, B.SlotTaken);
    } else {
      var q := AttemptQuote(w, a, ch);
      var (qs, claim) := ClaimSlot(w.quotes, w.offers, q, valid, available, w.books.clock);
      var slot := SlotFor(w.quotes[q], claim);
      ClaimKeeps(w.quotes, w.offers, q, valid, available, w.books.clock);
      OneQuote(w, q, qs[q]);
      Runs.VerifyKeeps(cfg, w.books, a, ch, slot);
      PaidAttempts(cfg, w.books, a, ch, slot);
      if claim != Ours {
        UnbookedLinks(cfg, w.(quotes := qs), a, ch, slot);
      } else if B.Verify(cfg, w.books, a, ch, slot).1.Some? {
        PaidKeeps(cfg, w, a, ch, valid, available, q);
      }
    }
  }

  lemma AttemptQuote(w: World, a: int, ch: B.Charge) returns (q: nat)
    requires Links(w) && First(w.books, a, ch)
    ensures a in w.books.attempts && q == w.books.attempts[a].quote && q < |w.quotes|
    ensures w.books.attempts[a].expected - w.books.attempts[a].buyerFee == w.quotes[q].gross
  {
    assert Asks(w, a);
    q := w.books.attempts[a].quote;
  }

  lemma OursIsPayable(qs: seq<Quote>, offers: seq<Offers.Offer>, i: nat, valid: bool, available: bool, now: int)
    requires DiaryOk(qs, now) && i < |qs| && ClaimSlot(qs, offers, i, valid, available, now).1 == Ours
    ensures var rs := ClaimSlot(qs, offers, i, valid, available, now).0;
      && i < |rs| && rs[i].state == Held && IsHold(rs[i])
      && rs[i].slot.from == rs[i].starts && rs[i].slot.to >= rs[i].starts + rs[i].duration * MINUTE
      && (rs[i].offer.Some? ==> rs[i].offer.value < |offers| && Offers.Payable(offers[rs[i].offer.value]))
      && rs[i].starts == qs[i].starts && rs[i].seller == qs[i].seller && rs[i].duration == qs[i].duration && rs[i].gross == qs[i].gross
  {}

  lemma PaidKeeps(cfg: Config, w: World, a: int, ch: B.Charge, valid: bool, available: bool, q: nat)
    requires Inv(cfg, w) && First(w.books, a, ch) && a in w.books.attempts && w.books.attempts[a].quote == q < |w.quotes|
    requires ClaimSlot(w.quotes, w.offers, q, valid, available, w.books.clock).1 == Ours
    requires B.Verify(cfg, w.books, a, ch, B.Free(w.quotes[q].seller, w.quotes[q].starts, w.quotes[q].duration)).1.Some?
    ensures Inv(cfg, PayStep(cfg, w, a, ch, valid, available))
  {
    hide BI.Inv, DiaryOk, Links, B.Verify, ClaimSlot, First, Confirm, Convert, Offers.Payable, CT.DealsKept;
    var now := w.books.clock;
    var (qs, claim) := ClaimSlot(w.quotes, w.offers, q, valid, available, now);
    var slot := B.Free(w.quotes[q].seller, w.quotes[q].starts, w.quotes[q].duration);
    var (books, answer) := B.Verify(cfg, w.books, a, ch, slot);
    var x := AttemptQuote(w, a, ch);
    Runs.VerifyKeeps(cfg, w.books, a, ch, slot);
    PaidAttempts(cfg, w.books, a, ch, slot);
    NewBooking(cfg, w.books, a, ch, slot.seller, slot.start, slot.duration);
    ClaimKeeps(w.quotes, w.offers, q, valid, available, now);
    OursIsPayable(w.quotes, w.offers, q, valid, available, now);
    OneQuote(w, q, qs[q]);
    var u := w.(quotes := qs);
    ConfirmKeeps(qs, q, answer.value, now);
    BookedLinks(u, PayStep(cfg, w, a, ch, valid, available), q);
  }

  // ---- every step, every run ----

  lemma StepKeeps(cfg: Config, w: World, e: Event)
    requires Inv(cfg, w)
    ensures Inv(cfg, Step(cfg, w, e))
  {
    hide Inv, QuoteStep, OfferQuoteStep, ExtendStep, PayStep, CancelStep, RescheduleStep, B.Step, B.Start;
    match e
    case Tick(to) => TickKeeps(cfg, w, to);
    case CreateQuote(seller, buyer, starts, duration, base, buffer) => QuoteStepKeeps(cfg, w, seller, buyer, starts, duration, base, buffer);
    case CreateOfferQuote(id, starts, buffer) => OfferQuoteStepKeeps(cfg, w, id, starts, buffer);
    case ViewQuote(i) => if i < |w.quotes| { ViewQuoteKeeps(cfg, w, i); }
    case ExtendHold(i, until) => ExtendStepKeeps(cfg, w, i, until);
    case OpenAttempt(a, i) => if i < |w.quotes| { OpenAttemptKeeps(cfg, w, a, i); }
    case CreateOffer(seller, buyer, duration, amount) =>
      if Offers.Create(seller, buyer, duration, amount, w.books.clock).Some? { CreateOfferKeeps(cfg, w, seller, buyer, duration, amount); }
    case RespondOffer(id, side, version, action) => if id < |w.offers| { RespondStepKeeps(cfg, w, id, side, version, action); }
    case ViewOffer(id) => if id < |w.offers| { ViewOfferKeeps(cfg, w, id); }
    case Pay(a, ch, valid, available) => PayStepKeeps(cfg, w, a, ch, valid, available);
    case CancelBooking(b, role, expected) => CancelStepKeeps(cfg, w, b, role, expected);
    case Reschedule(b, newStart, buffer) => RescheduleStepKeeps(cfg, w, b, newStart, buffer);
    case Money(m) => if OnlyMoney(m) { MoneyKeeps(cfg, w, m); }
  }

  lemma {:induction false} RunKeeps(cfg: Config, w: World, es: seq<Event>)
    requires Inv(cfg, w)
    ensures Inv(cfg, Run(cfg, w, es))
  {
    hide Inv, Step;
    if es != [] {
      RunKeeps(cfg, w, es[..|es| - 1]);
      StepKeeps(cfg, Run(cfg, w, es[..|es| - 1]), es[|es| - 1]);
    }
  }

  ghost predicate Reachable(cfg: Config, w: World) {
    exists clock, es :: w == Run(cfg, Initial(clock), es)
  }

  lemma ReachableInv(cfg: Config, w: World)
    requires Policy.Valid(cfg) && Reachable(cfg, w)
    ensures Inv(cfg, w)
  {
    hide Inv;
    var clock, es :| w == Run(cfg, Initial(clock), es);
    InitialInv(cfg, clock);
    RunKeeps(cfg, Initial(clock), es);
  }

  // ---- the money side of a run is a run of the money tables ----

  /** What a step of the whole service does to the money tables. */
  ghost predicate MoneyStep(cfg: Config, s: B.Books, t: B.Books) {
    t == s || exists e :: t == B.Step(cfg, s, e)
  }

  lemma StepIsMoneyStep(cfg: Config, w: World, e: Event)
    ensures MoneyStep(cfg, w.books, Step(cfg, w, e).books)
  {
    hide ClaimSlot, First, Move, C.Step, B.Start, B.Verify, B.Act;
    var t := Step(cfg, w, e).books;
    if t != w.books {
      match e
      case Tick(to) => assert t == B.Step(cfg, w.books, B.Tick(to));
      case OpenAttempt(a, i) => assert t == B.Step(cfg, w.books, B.StartAttempt(a, i, w.quotes[i].gross));
      case Pay(a, ch, valid, available) => PayIsMoneyStep(cfg, w, a, ch, valid, available);
      case CancelBooking(b, role, expected) => assert t == B.Step(cfg, w.books, B.OnBooking(b, C.Cancel(role, expected)));
      case Reschedule(b, newStart, buffer) => assert t == B.Step(cfg, w.books, B.OnBooking(b, C.Reschedule(newStart)));
      case Money(m) => assert t == B.Step(cfg, w.books, m);
      case _ =>
    }
  }

  lemma PayIsMoneyStep(cfg: Config, w: World, a: int, ch: B.Charge, valid: bool, available: bool)
    ensures MoneyStep(cfg, w.books, PayStep(cfg, w, a, ch, valid, available).books)
  {
    hide ClaimSlot, B.Verify;
    var t := PayStep(cfg, w, a, ch, valid, available).books;
    if !First(w.books, a, ch) {
      assert t == B.Step(cfg, w.books, B.VerifyCharge(a, ch, B.SlotTaken));
    } else if 0 <= w.books.attempts[a].quote < |w.quotes| {
      var q := w.books.attempts[a].quote;
      var slot := SlotFor(w.quotes[q], ClaimSlot(w.quotes, w.offers, q, valid, available, w.books.clock).1);
      assert t == w.books || t == B.Step(cfg, w.books, B.VerifyCharge(a, ch, slot));
    }
  }

  /** So everything proved of the money tables alone holds in every state of
      the whole service. */
  lemma {:induction false} BooksAreReachable(cfg: Config, clock: int, es: seq<Event>)
    ensures Runs.Reachable(cfg, Run(cfg, Initial(clock), es).books)
  {
    hide Step, B.Step;
    if es == [] {
      assert B.Initial(clock) == B.Run(cfg, B.Initial(clock), []);
    } else {
      var w := Run(cfg, Initial(clock), es[..|es| - 1]);
      BooksAreReachable(cfg, clock, es[..|es| - 1]);
      StepIsMoneyStep(cfg, w, es[|es| - 1]);
      var t := Run(cfg, Initial(clock), es).books;
      if t != w.books {
        var start, bs :| w.books == B.Run(cfg, B.Initial(start), bs);
        var e :| t == B.Step(cfg, w.books, e);
        Runs.RunSnoc(cfg, B.Initial(start), bs, e);
      }
    }
  }

  // ---- the promises ----

  /** A confirmed booking has its own active reservation, which starts when the
      booking does and covers its session. */
  lemma ConfirmedIsReserved(cfg: Config, w: World, b: nat)
    requires Policy.Valid(cfg) && Reachable(cfg, w) && b < |w.books.cases| && w.books.cases[b].state == C.Confirmed
    ensures var c := w.books.cases[b];
      && 0 <= c.quote < |w.quotes|
      && var slot := w.quotes[c.quote].slot;
         && slot.active && slot.booking == Some(b) && slot.from == c.start && slot.to >= c.start + c.duration * 60
         && w.quotes[c.quote].seller == c.seller
  {
    hide BI.Inv, Reachable;
    ReachableInv(cfg, w);
    assert Rests(w, b);
  }

  /** The sessions of two confirmed bookings of one seller never overlap, nor
      do the active reservations that cover them. */
  lemma ConfirmedNeverOverlap(cfg: Config, w: World, b: nat, d: nat)
    requires Policy.Valid(cfg) && Reachable(cfg, w) && b < |w.books.cases| && d < |w.books.cases| && b != d
    requires w.books.cases[b].seller == w.books.cases[d].seller
    requires w.books.cases[b].state == C.Confirmed && w.books.cases[d].state == C.Confirmed
    ensures var c, e := w.books.cases[b], w.books.cases[d];
      && (c.start + c.duration * 60 <= e.start || e.start + e.duration * 60 <= c.start)
      && 0 <= c.quote < |w.quotes| && 0 <= e.quote < |w.quotes| && c.quote != e.quote
      && var p, q := w.quotes[c.quote].slot, w.quotes[e.quote].slot;
         && p.active && p.booking == Some(b) && p.from == c.start && p.to >= c.start + c.duration * 60
         && q.active && q.booking == Some(d) && q.from == e.start && q.to >= e.start + e.duration * 60
         && (p.to <= q.from || q.to <= p.from)
  {
    hide BI.Inv, Reachable;
    ReachableInv(cfg, w);
    ConfirmedIsReserved(cfg, w, b);
    ConfirmedIsReserved(cfg, w, d);
    assert Rests(w, b) && Rests(w, d);
    var i, j := w.books.cases[b].quote, w.books.cases[d].quote;
    assert i < j ==> !Clash(w.quotes[i], w.quotes[j]);
    assert j < i ==> !Clash(w.quotes[j], w.quotes[i]);
  }

  /** A held quote whose time has not passed has its hold, with the same
      expiry, covering the session it was quoted for. */
  lemma HeldMeansHeld(cfg: Config, w: World, i: nat)
    requires Policy.Valid(cfg) && Reachable(cfg, w) && i < |w.quotes|
    requires w.quotes[i].state == Held && w.quotes[i].expires > w.books.clock
    ensures var q := w.quotes[i];
      && q.slot.active && q.slot.booking.None? && q.slot.expires == q.expires
      && q.slot.from == q.starts && q.slot.to >= q.starts + q.duration * 60
  {
    hide BI.Inv, Reachable;
    ReachableInv(cfg, w);
    assert QuoteOk(w.quotes[i], w.books.clock);
  }

  /** Every booking is sold at its quote's price, which for an offer is the
      amount agreed on; an offer has at most one booking, and it converts only
      if it had been agreed. */
  lemma AgreedPriceIsPaidOnce(cfg: Config, w: World, b: nat)
    requires Policy.Valid(cfg) && Reachable(cfg, w) && b < |w.books.cases|
    ensures var c := w.books.cases[b];
      && Reserved(w, b) && c.gross == w.quotes[c.quote].gross
      && var offer := w.quotes[c.quote].offer;
         offer.Some? ==>
           && offer.value < |w.offers|
           && var o := w.offers[offer.value];
              && o.state == Offers.Converted && o.booking == Some(b) && o.checkout.Some?
              && 1 <= |o.versions| <= 2 && c.gross == o.versions[|o.versions| - 1].amount
  {
    hide BI.Inv, Reachable;
    ReachableInv(cfg, w);
    assert Rests(w, b);
    assert Agrees(w, w.books.cases[b].quote);
  }

  lemma OneBookingPerOffer(cfg: Config, w: World, b: nat, d: nat)
    requires Policy.Valid(cfg) && Reachable(cfg, w) && b < |w.books.cases| && d < |w.books.cases|
    requires Reserved(w, b) && Reserved(w, d)
    requires w.quotes[w.books.cases[b].quote].offer.Some?
    requires w.quotes[w.books.cases[b].quote].offer == w.quotes[w.books.cases[d].quote].offer
    ensures b == d
  {
    hide Reachable;
    AgreedPriceIsPaidOnce(cfg, w, b);
    AgreedPriceIsPaidOnce(cfg, w, d);
  }

  /** Cancelling gives up exactly the booking's own time, and a refused
      cancellation nothing. */
  lemma CancellingFreesTheTime(cfg: Config, w: World, b: nat, role: C.Role, expected: int)
    requires Policy.Valid(cfg) && Reachable(cfg, w) && b < |w.books.cases|
    ensures var v := Step(cfg, w, CancelBooking(b, role, expected));
      var i := w.books.cases[b].quote;
      && 0 <= i < |w.quotes| && b < |v.books.cases| && v.offers == w.offers
      && if v.books.cases[b].state == C.Cancelled && w.books.cases[b].state == C.Confirmed
         then v.quotes == w.quotes[i := w.quotes[i].(slot := w.quotes[i].slot.(active := false))]
         else v == w
  {
    hide BI.Inv, Reachable, DiaryOk, C.CancelStep, B.Verified, B.FeeOf, Names, Agrees, Asks, Sold;
    ReachableInv(cfg, w);
    assert Rests(w, b);
    var c := w.books.cases[b];
    CancelledState(cfg, w.books.clock, B.Verified(w.books, c), B.FeeOf(w.books, c), c, role, expected);
  }

  lemma CancelledState(cfg: Config, now: int, verified: bool, fee: int, c: C.Case, role: C.Role, expected: int)
    ensures var r := C.CancelStep(cfg, now, verified, fee, c, role, expected);
      r.Some? ==> c.state == C.Confirmed && r.value.state == C.Cancelled
  {}

  // ---- offers over runs ----

  ghost predicate OffersLater(w: World, v: World) {
    && |w.offers| <= |v.offers|
    && forall id | 0 <= id < |w.offers| :: Offers.Later(w.offers[id], v.offers[id])
  }

  lemma ConvertLater(o: Offers.Offer, booking: nat)
    requires Offers.Ok(o)
    ensures Offers.Later(o, Offers.Convert(o, booking))
  {}

  lemma OneOfferLater(w: World, v: World, id: nat, o: Offers.Offer)
    requires id < |w.offers| && v.offers == w.offers[id := o] && Offers.Later(w.offers[id], o)
    ensures OffersLater(w, v)
  {}

  lemma SameOffersLater(w: World, v: World)
    requires w.offers <= v.offers
    ensures OffersLater(w, v)
  {}

  lemma PayOffers(cfg: Config, w: World, a: int, ch: B.Charge, valid: bool, available: bool)
    requires Inv(cfg, w)
    ensures OffersLater(w, PayStep(cfg, w, a, ch, valid, available))
  {
    hide BI.Inv, DiaryOk, First, ClaimSlot, Confirm, B.Verify, Offers.Convert, Offers.Later, Offers.Ok;
    var v := PayStep(cfg, w, a, ch, valid, available);
    if v.offers != w.offers {
      var q := AttemptQuote(w, a, ch);
      ClaimKeeps(w.quotes, w.offers, q, valid, available, w.books.clock);
      var (qs, claim) := ClaimSlot(w.quotes, w.offers, q, valid, available, w.books.clock);
      var answer := B.Verify(cfg, w.books, a, ch, SlotFor(w.quotes[q], claim)).1;
      var id := qs[q].offer.value;
      ConvertLater(w.offers[id], answer.value);
      OneOfferLater(w, v, id, Offers.Convert(w.offers[id], answer.value));
    } else {
      SameOffersLater(w, v);
    }
  }

  lemma OfferQuoteOffers(w: World, id: nat, starts: int, buffer: nat)
    requires id < |w.offers| && Offers.Ok(w.offers[id])
    ensures OffersLater(w, OfferQuoteStep(w, id, starts, buffer))
  {
    hide Diary.CreateOfferQuote;
    var v := OfferQuoteStep(w, id, starts, buffer);
    var o := Offers.Viewed(w.offers[id], w.books.clock);
    ViewedExtended(w.offers[id], w.books.clock, 0);
    ViewedExtended(o, 0, w.books.clock + SELECTION_HOLD);
    if v == w {
      SameOffersLater(w, v);
    } else {
      OneOfferLater(w, v, id, v.offers[id]);
    }
  }

  lemma StepOffers(cfg: Config, w: World, e: Event)
    requires Inv(cfg, w)
    ensures OffersLater(w, Step(cfg, w, e))
  {
    hide BI.Inv, DiaryOk, OffersLater, QuoteStep, OfferQuoteStep, PayStep, CancelStep, RescheduleStep, B.Step, B.Start, Rests, Names, Agrees, Asks, Sold;
    var v := Step(cfg, w, e);
    match e
    case Pay(a, ch, valid, available) => PayOffers(cfg, w, a, ch, valid, available);
    case CreateOfferQuote(id, starts, buffer) =>
      if id < |w.offers| { OfferQuoteOffers(w, id, starts, buffer); } else { NoSuchOffer(w, id, starts, buffer); SameOffersLater(w, v); }
    case RespondOffer(id, side, version, action) =>
      if id < |w.offers| {
        Offers.RespondKeeps(w.offers[id], side, version, action, w.books.clock);
        OneOfferLater(w, v, id, v.offers[id]);
      } else { SameOffersLater(w, v); }
    case ViewOffer(id) =>
      if id < |w.offers| {
        ViewedExtended(w.offers[id], w.books.clock, 0);
        OneOfferLater(w, v, id, v.offers[id]);
      } else { SameOffersLater(w, v); }
    case ExtendHold(i, until) => ExtendOffers(w, i, until);
    case CreateQuote(seller, buyer, starts, duration, base, buffer) => QuoteOffers(w, seller, buyer, starts, duration, base, buffer); SameOffersLater(w, v);
    case CancelBooking(b, role, expected) => BookingOffers(cfg, w, b, role, expected, 0, 0); SameOffersLater(w, v);
    case Reschedule(b, newStart, buffer) => BookingOffers(cfg, w, b, C.Buyer, 0, newStart, buffer); SameOffersLater(w, v);
    case _ => SameOffersLater(w, v);
  }

  lemma NoSuchOffer(w: World, id: nat, starts: int, buffer: nat)
    requires id >= |w.offers|
    ensures OfferQuoteStep(w, id, starts, buffer) == w
  {}

  lemma QuoteOffers(w: World, seller: int, buyer: int, starts: int, duration: nat, base: int, buffer: nat)
    ensures QuoteStep(w, seller, buyer, starts, duration, base, buffer).offers == w.offers
  {}

  lemma BookingOffers(cfg: Config, w: World, b: nat, role: C.Role, expected: int, newStart: int, buffer: nat)
    ensures CancelStep(cfg, w, b, role, expected).offers == w.offers
    ensures RescheduleStep(cfg, w, b, newStart, buffer).offers == w.offers
  {}

  lemma ExtendOffers(w: World, i: nat, until: int)
    requires forall id | 0 <= id < |w.offers| :: Offers.Ok(w.offers[id])
    ensures OffersLater(w, ExtendStep(w, i, until))
  {}

  /** Over every run an agreement stands: its price, its two sides and, once
      there is one, its booking never change again. */
  lemma {:induction false} AgreementsStand(cfg: Config, w: World, es: seq<Event>)
    requires Inv(cfg, w)
    ensures var v := Run(cfg, w, es);
      && |w.offers| <= |v.offers|
      && forall id | 0 <= id < |w.offers| :: Offers.Later(w.offers[id], v.offers[id])
  {
    hide Inv, Step;
    if es == [] {
      SameOffersLater(w, w);
    } else {
      var m := Run(cfg, w, es[..|es| - 1]);
      var v := Run(cfg, w, es);
      AgreementsStand(cfg, w, es[..|es| - 1]);
      RunKeeps(cfg, w, es[..|es| - 1]);
      StepOffers(cfg, m, es[|es| - 1]);
      forall id | 0 <= id < |w.offers| ensures Offers.Later(w.offers[id], v.offers[id]) {
        assert Offers.Later(w.offers[id], m.offers[id]) && Offers.Later(m.offers[id], v.offers[id]);
      }
    }
  }
}
