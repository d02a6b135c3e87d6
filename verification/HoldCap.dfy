/** The cap of three holds a buyer: which steps respect it, and which single
    one does not (services/core/cmd/api/holds.go, unbooked.go,
    payment_processing.go). */
module HoldCap {
  import opened Common
  import opened Policy
  import opened Diary
  import opened World
  import opened WorldInvariant
  import opened WorldSteps
  import opened WorldRuns
  import Offers
  import B = Books
  import BI = BooksInvariant
  import OW = Onward
  import C = Cases
  import CT = ChargeTheorems

  /** A late payment that gets its time back and is then not booked: the seller
      is unavailable, or the offer can no longer be paid. The reclaimed hold is
      committed with the exception. */
  predicate LateAndUnbooked(w: World, a: int, ch: B.Charge, valid: bool, available: bool) {
    && First(w.books, a, ch) && 0 <= w.books.attempts[a].quote < |w.quotes|
    && var i := w.books.attempts[a].quote;
       && Lapsed(w.quotes[i], w.books.clock) && MayReclaim(w.quotes, i, valid, w.books.clock)
       && (!available || (w.quotes[i].offer.Some? && !OfferPayable(w, w.quotes[i].offer.value)))
  }

  predicate OfferPayable(w: World, id: nat) { id < |w.offers| && Offers.Payable(w.offers[id]) }

  /** The step is such a payment, for a quote of this buyer. */
  predicate ExtraHold(w: World, e: Event, buyer: int) {
    && e.Pay? && LateAndUnbooked(w, e.attempt, e.charge, e.valid, e.available)
    && w.quotes[w.books.attempts[e.attempt].quote].buyer == buyer
  }

  /** A lapsed hold is not counted. */
  lemma LapsedIsUncounted(q: Quote, buyer: int, now: int)
    requires QuoteOk(q, now) && Lapsed(q, now)
    ensures !Counts(q, buyer, now)
  {}

  lemma ClaimHolds(qs: seq<Quote>, offers: seq<Offers.Offer>, i: nat, valid: bool, available: bool, buyer: int, now: int)
    requires DiaryOk(qs, now) && i < |qs|
    ensures var (rs, claim) := ClaimSlot(qs, offers, i, valid, available, now);
      HoldsOf(rs, buyer, now) == HoldsOf(qs, buyer, now)
        + (if Lapsed(qs[i], now) && MayReclaim(qs, i, valid, now) && qs[i].buyer == buyer then 1 else 0)
  {
    assert QuoteOk(qs[i], now);
    HoldsUpdate(qs, i, Reclaimed(qs[i], now), buyer, now);
    if Lapsed(qs[i], now) {
      LapsedIsUncounted(qs[i], buyer, now);
    }
  }

  /** Verifying a charge gives the buyer of a late, unbooked payment exactly one
      hold more, and nobody else any. */
  lemma PayHolds(cfg: Config, w: World, a: int, ch: B.Charge, valid: bool, available: bool, buyer: int)
    requires Inv(cfg, w)
    ensures var v := PayStep(cfg, w, a, ch, valid, available);
      var now := w.books.clock;
      if ExtraHold(w, Pay(a, ch, valid, available), buyer)
      then HoldsOf(v.quotes, buyer, now) == HoldsOf(w.quotes, buyer, now) + 1
      else HoldsOf(v.quotes, buyer, now) <= HoldsOf(w.quotes, buyer, now)
  {
    hide BI.Inv, Links, B.Verify, First, HoldsOf, MayReclaim, DiaryOk;
    if First(w.books, a, ch) {
      var i := AttemptQuote(w, a, ch);
      var now := w.books.clock;
      ClaimHolds(w.quotes, w.offers, i, valid, available, buyer, now);
      var (qs, claim) := ClaimSlot(w.quotes, w.offers, i, valid, available, now);
      ClaimKeeps(w.quotes, w.offers, i, valid, available, now);
      if claim == Ours {
        var answer := B.Verify(cfg, w.books, a, ch, SlotFor(w.quotes[i], claim)).1;
        if answer.Some? {
          HoldsUpdate(w.quotes, i, Confirm(qs[i], answer.value), buyer, now);
          assert qs[i := Confirm(qs[i], answer.value)] == w.quotes[i := Confirm(qs[i], answer.value)];
        }
      }
    }
  }

  function Max(a: int, b: int): int { if a < b then b else a }

  function Holds(w: World, buyer: int): nat { HoldsOf(w.quotes, buyer, w.books.clock) }

  lemma QuoteHolds(cfg: Config, w: World, seller: int, buyer: int, starts: int, duration: nat, base: int, buffer: nat, x: int)
    requires Inv(cfg, w)
    ensures Holds(QuoteStep(w, seller, buyer, starts, duration, base, buffer), x) <= Max(MAX_HOLDS, Holds(w, x))
  {
    hide BI.Inv, Links, DiaryOk, HoldsOf, Diary.CreateQuote;
    AtMostThreeHolds(w.quotes, PayingQuotes(w.books.attempts), seller, buyer, starts, duration, FixedPrice(base, duration), buffer, w.books.clock);
  }

  lemma OfferQuoteHolds(cfg: Config, w: World, id: nat, starts: int, buffer: nat, x: int)
    requires Inv(cfg, w)
    ensures Holds(OfferQuoteStep(w, id, starts, buffer), x) <= Max(MAX_HOLDS, Holds(w, x))
  {
    hide BI.Inv, Links, DiaryOk, HoldsOf, Diary.CreateOfferQuote;
    if id < |w.offers| {
      var o := Offers.Viewed(w.offers[id], w.books.clock);
      if o.state == Offers.Agreed && o.versions != [] {
        AtMostThreeOfferHolds(w.quotes, PayingQuotes(w.books.attempts), id, o, starts, Offers.Amount(o), buffer, w.books.clock);
      }
    }
  }

  lemma RowHolds(w: World, i: nat, q: Quote, x: int)
    requires i < |w.quotes| && (Counts(q, x, w.books.clock) ==> Counts(w.quotes[i], x, w.books.clock))
    ensures HoldsOf(w.quotes[i := q], x, w.books.clock) <= Holds(w, x)
  {
    HoldsUpdate(w.quotes, i, q, x, w.books.clock);
  }

  lemma ExtendHolds(w: World, i: nat, until: int, x: int)
    ensures Holds(ExtendStep(w, i, until), x) <= Holds(w, x)
  {
    hide HoldsOf;
    if i < |w.quotes| && Extend(w.quotes[i], until, w.books.clock).Some? {
      RowHolds(w, i, Extend(w.quotes[i], until, w.books.clock).value, x);
    }
  }

  lemma CancelHolds(cfg: Config, w: World, b: nat, role: C.Role, expected: int, x: int)
    ensures Holds(CancelStep(cfg, w, b, role, expected), x) <= Holds(w, x)
  {
    hide HoldsOf, C.Step;
    if Reserved(w, b) {
      var q := w.books.cases[b].quote;
      RowHolds(w, q, Cancelled(w.quotes[q]), x);
    }
  }

  lemma RescheduleHolds(cfg: Config, w: World, b: nat, newStart: int, buffer: nat, x: int)
    requires Inv(cfg, w)
    ensures Holds(RescheduleStep(cfg, w, b, newStart, buffer), x) <= Holds(w, x)
  {
    hide BI.Inv, Links, DiaryOk, HoldsOf, C.Step, Move, Relaxes;
    if Reserved(w, b) {
      var q, now := w.books.cases[b].quote, w.books.clock;
      var moved := Move(w.quotes, q, newStart, buffer, now);
      if moved.Some? {
        MoveKeeps(w.quotes, q, newStart, buffer, now);
        forall j | 0 <= j < |w.quotes| ensures Counts(moved.value[j], x, now) ==> Counts(w.quotes[j], x, now) {
          if j != q {
            RelaxedCounts(w.quotes[j], moved.value[j], x, now);
          }
        }
        FewerHolds(w.quotes, moved.value, x, now, now);
      }
    }
  }

  lemma RelaxedCounts(q: Quote, r: Quote, x: int, now: int)
    requires Relaxes(q, r)
    ensures Counts(r, x, now) ==> Counts(q, x, now)
  {}

  lemma TickHolds(cfg: Config, w: World, to: int, x: int)
    ensures Holds(Step(cfg, w, Tick(to)), x) <= Holds(w, x)
  {
    hide HoldsOf;
    if to >= w.books.clock {
      FewerHolds(w.quotes, w.quotes, x, w.books.clock, to);
    }
  }

  lemma PayClock(cfg: Config, w: World, a: int, ch: B.Charge, valid: bool, available: bool)
    ensures PayStep(cfg, w, a, ch, valid, available).books.clock == w.books.clock
  {
    hide ClaimSlot, B.Verify;
    if First(w.books, a, ch) && 0 <= w.books.attempts[a].quote < |w.quotes| {
      var q := w.books.attempts[a].quote;
      var claim := ClaimSlot(w.quotes, w.offers, q, valid, available, w.books.clock).1;
      OW.VerifyAdds(cfg, w.books, a, ch, SlotFor(w.quotes[q], claim));
    }
    OW.VerifyAdds(cfg, w.books, a, ch, B.SlotTaken);
  }

  /** The law of one step: a late, unbooked payment gives its buyer exactly one
      hold more; any other step leaves no buyer above the cap who was not
      already there, and nobody there with more than before. */
  lemma StepHolds(cfg: Config, w: World, e: Event, buyer: int)
    requires Inv(cfg, w)
    ensures var v := Step(cfg, w, e);
      if ExtraHold(w, e, buyer) then Holds(v, buyer) == Holds(w, buyer) + 1
      else Holds(v, buyer) <= Max(MAX_HOLDS, Holds(w, buyer))
  {
    hide Inv, HoldsOf, QuoteStep, OfferQuoteStep, ExtendStep, PayStep, CancelStep, RescheduleStep, B.Step, B.Start, LateAndUnbooked;
    match e
    case Tick(to) => TickHolds(cfg, w, to, buyer);
    case CreateQuote(seller, who, starts, duration, base, buffer) => QuoteHolds(cfg, w, seller, who, starts, duration, base, buffer, buyer);
    case CreateOfferQuote(id, starts, buffer) => OfferQuoteHolds(cfg, w, id, starts, buffer, buyer);
    case ViewQuote(i) => if i < |w.quotes| { RowHolds(w, i, Viewed(w.quotes[i], w.books.clock), buyer); }
    case ExtendHold(i, until) => ExtendHolds(w, i, until, buyer);
    case OpenAttempt(a, i) => if i < |w.quotes| { StartClock(cfg, w.books, a, i, w.quotes[i].gross); }
    case Pay(a, ch, valid, available) =>
      PayHolds(cfg, w, a, ch, valid, available, buyer);
      PayClock(cfg, w, a, ch, valid, available);
    case CancelBooking(b, role, expected) => CancelHolds(cfg, w, b, role, expected, buyer);
    case Reschedule(b, newStart, buffer) => RescheduleHolds(cfg, w, b, newStart, buffer, buyer);
    case Money(m) => if OnlyMoney(m) { StartsStay(cfg, w.books, m); }
    case _ =>
  }

  lemma StartClock(cfg: Config, s: B.Books, a: int, quote: int, price: int)
    ensures B.Start(cfg, s, a, quote, price).clock == s.clock
  {}

  /** How many of a run's steps give the buyer such an extra hold. */
  ghost function ExtraHolds(cfg: Config, w: World, es: seq<Event>, buyer: int): nat {
    if es == [] then 0
    else
      ExtraHolds(cfg, w, es[..|es| - 1], buyer)
      + (if ExtraHold(Run(cfg, w, es[..|es| - 1]), es[|es| - 1], buyer) then 1 else 0)
  }

  lemma {:induction false} RunHolds(cfg: Config, w: World, es: seq<Event>, buyer: int)
    requires Inv(cfg, w) && Holds(w, buyer) <= MAX_HOLDS
    ensures Holds(Run(cfg, w, es), buyer) <= MAX_HOLDS + ExtraHolds(cfg, w, es, buyer)
  {
    hide Inv, Step, Holds, ExtraHold;
    if es != [] {
      RunHolds(cfg, w, es[..|es| - 1], buyer);
      RunKeeps(cfg, w, es[..|es| - 1]);
      StepHolds(cfg, Run(cfg, w, es[..|es| - 1]), es[|es| - 1], buyer);
    }
  }

  /** Over every run from empty tables a buyer has at most three holds and one
      more for each late payment of theirs that got its time back without being
      booked; so a run without such a payment keeps everybody at three. */
  lemma CapOverRuns(cfg: Config, clock: int, es: seq<Event>, buyer: int)
    requires Policy.Valid(cfg)
    ensures Holds(Run(cfg, Initial(clock), es), buyer) <= MAX_HOLDS + ExtraHolds(cfg, Initial(clock), es, buyer)
    ensures (forall i | 0 <= i < |es| :: !ExtraHold(Run(cfg, Initial(clock), es[..i]), es[i], buyer)) ==>
      Holds(Run(cfg, Initial(clock), es), buyer) <= MAX_HOLDS
  {
    hide Inv, Run, ExtraHold;
    InitialInv(cfg, clock);
    RunHolds(cfg, Initial(clock), es, buyer);
    if forall i | 0 <= i < |es| :: !ExtraHold(Run(cfg, Initial(clock), es[..i]), es[i], buyer) {
      NoExtraHolds(cfg, Initial(clock), es, buyer);
    }
  }

  lemma {:induction false} NoExtraHolds(cfg: Config, w: World, es: seq<Event>, buyer: int)
    requires forall i | 0 <= i < |es| :: !ExtraHold(Run(cfg, w, es[..i]), es[i], buyer)
    ensures ExtraHolds(cfg, w, es, buyer) == 0
  {
    hide Run, ExtraHold;
    if es != [] {
      var before := es[..|es| - 1];
      forall i | 0 <= i < |before| ensures !ExtraHold(Run(cfg, w, before[..i]), before[i], buyer) {
        assert before[..i] == es[..i] && before[i] == es[i];
      }
      NoExtraHolds(cfg, w, before, buyer);
    }
  }

  // ---- a run that goes over the cap ----

  const BUYER := 9
  const START := 1_000_000

  function Hold(seller: int, now: int): Quote { NewQuote(seller, BUYER, None, START, 30, 1000, 0, now) }

  function HoldEvent(seller: int): Event { CreateQuote(seller, BUYER, START, 30, 1000, 0) }

  const PAYMENT := Pay(1, CT.Paid(1000), true, false)

  /** The buyer holds a time and begins to pay; the hold lapses; the buyer holds
      three more times; then the money arrives, and the seller has become
      unavailable. */
  function FourHolds(): seq<Event> {
    [ HoldEvent(1), OpenAttempt(1, 0), Tick(700), HoldEvent(2), HoldEvent(3), HoldEvent(4), PAYMENT ]
  }

  function Paying(clock: int): B.Books {
    B.Initial(clock).(attempts := map[1 := B.Attempt(0, 1000, 0, 0, B.AwaitingPayment, None)])
  }

  lemma NothingToRelease(qs: seq<Quote>, seller: int, paying: set<int>, now: int)
    requires forall i | 0 <= i < |qs| :: qs[i].seller != seller
    ensures ReplaceHolds(qs, BUYER, seller, paying) == qs
    ensures LapseOfSeller(qs, seller, now) == qs
    ensures forall from, to :: FreeLapsedHolds(qs, seller, from, to, now) == qs
  {}

  /** Holding a time with one more seller, while there is room. */
  lemma HoldAnother(books: B.Books, qs: seq<Quote>, seller: int)
    requires forall i | 0 <= i < |qs| :: qs[i].seller != seller
    requires HoldsOf(qs, BUYER, books.clock) < MAX_HOLDS
    ensures Step(PLAIN, World(books, qs, []), HoldEvent(seller)) == World(books, qs + [Hold(seller, books.clock)], [])
  {
    hide ReplaceHolds, LapseOfSeller, FreeLapsedHolds, PayingQuotes, B.Step, PayStep, OfferQuoteStep, ExtendStep, CancelStep, RescheduleStep, B.Start, HoldsOf;
    NothingToRelease(qs, seller, PayingQuotes(books.attempts), books.clock);
    assert FixedPrice(1000, 30) == 1000;
  }

  lemma CountOne(qs: seq<Quote>, q: Quote, now: int)
    ensures HoldsOf(qs + [q], BUYER, now) == HoldsOf(qs, BUYER, now) + (if Counts(q, BUYER, now) then 1 else 0)
  {
    HoldsSnoc(qs, q, BUYER, now);
  }

  /** The four times as they stand when the money arrives. */
  function Quotes(n: nat): seq<Quote>
    requires n <= 4
  {
    [Hold(1, 0), Hold(2, 700), Hold(3, 700), Hold(4, 700)][..n]
  }

  lemma QuotesNext(n: nat)
    requires 1 <= n < 4
    ensures Quotes(n + 1) == Quotes(n) + [Hold(n + 1, 700)]
    ensures HoldsOf(Quotes(n), BUYER, 700) == n - 1
    decreases n
  {
    if n == 1 {
      assert Quotes(1) == [] + [Hold(1, 0)];
      CountOne([], Hold(1, 0), 700);
    } else {
      QuotesNext(n - 1);
      CountOne(Quotes(n - 1), Hold(n, 700), 700);
    }
  }

  lemma OpeningSteps()
    ensures Step(PLAIN, Initial(0), HoldEvent(1)) == World(B.Initial(0), Quotes(1), [])
    ensures Step(PLAIN, World(B.Initial(0), Quotes(1), []), OpenAttempt(1, 0)) == World(Paying(0), Quotes(1), [])
    ensures Step(PLAIN, World(Paying(0), Quotes(1), []), Tick(700)) == World(Paying(700), Quotes(1), [])
  {
    HoldAnother(B.Initial(0), [], 1);
    assert [] + [Hold(1, 0)] == Quotes(1);
    BasisPointsExact(1000, 0);
    assert B.Initial(0).attempts[1 := B.Attempt(0, 1000, 0, 0, B.AwaitingPayment, None)] == Paying(0).attempts;
  }

  /** The steps of the run, one by one. */
  lemma TheEvents()
    ensures var es := FourHolds();
      && |es| == 7 && es[..0] == []
      && es[0] == HoldEvent(1) && es[1] == OpenAttempt(1, 0) && es[2] == Tick(700)
      && es[3] == HoldEvent(2) && es[4] == HoldEvent(3) && es[5] == HoldEvent(4) && es[6] == PAYMENT
  {}

  lemma ThreeMoreHolds(n: nat)
    requires 1 <= n < 4
    ensures Step(PLAIN, World(Paying(700), Quotes(n), []), HoldEvent(n + 1)) == World(Paying(700), Quotes(n + 1), [])
  {
    hide Step, Quotes, HoldsOf;
    QuotesNext(n);
    DifferentSellers();
    HoldAnother(Paying(700), Quotes(n), n + 1);
  }

  lemma BeforeThePayment()
    ensures Run(PLAIN, Initial(0), FourHolds()[..6]) == World(Paying(700), Quotes(4), [])
  {
    hide Step, Quotes, Paying, FourHolds, HoldEvent, Hold, HoldsOf;
    var es := FourHolds();
    TheEvents();
    OpeningSteps();
    ThreeMoreHolds(1);
    ThreeMoreHolds(2);
    ThreeMoreHolds(3);
    RunNext(PLAIN, Initial(0), es, 0);
    RunNext(PLAIN, Initial(0), es, 1);
    RunNext(PLAIN, Initial(0), es, 2);
    RunNext(PLAIN, Initial(0), es, 3);
    RunNext(PLAIN, Initial(0), es, 4);
    RunNext(PLAIN, Initial(0), es, 5);
  }

  lemma ThreeCounted()
    ensures HoldsOf(Quotes(4), BUYER, 700) == 3
  {
    hide HoldsOf, Quotes;
    QuotesNext(3);
    CountOne(Quotes(3), Hold(4, 700), 700);
  }

  lemma DifferentSellers()
    ensures forall n | 1 <= n < 4 :: forall i | 0 <= i < |Quotes(n)| :: Quotes(n)[i].seller != n + 1
  {}

  lemma RunNext(cfg: Config, w: World, es: seq<Event>, i: nat)
    requires i < |es|
    ensures Run(cfg, w, es[..i + 1]) == Step(cfg, Run(cfg, w, es[..i]), es[i])
  {
    hide Step;
    assert es[..i + 1][..i] == es[..i];
  }

  /** A reachable state in which a buyer has four holds. */
  lemma CapCanBeExceeded() returns (w: World)
    ensures Policy.Valid(PLAIN) && Reachable(PLAIN, w)
    ensures Holds(w, BUYER) == MAX_HOLDS + 1
  {
    hide Step, Inv, HoldsOf, Quotes, FourHolds, Run;
    var es := FourHolds();
    TheEvents();
    ThreeCounted();
    BeforeThePayment();
    LateIndeed();
    var before := World(Paying(700), Quotes(4), []);
    InitialInv(PLAIN, 0);
    RunKeeps(PLAIN, Initial(0), es[..6]);
    StepHolds(PLAIN, before, es[6], BUYER);
    RunNext(PLAIN, Initial(0), es, 6);
    assert es[..7] == es;
    w := Run(PLAIN, Initial(0), es);
  }

  lemma LateIndeed()
    ensures ExtraHold(World(Paying(700), Quotes(4), []), PAYMENT, BUYER)
  {
    var w := World(Paying(700), Quotes(4), []);
    assert w.quotes[0] == Hold(1, 0);
    assert forall j | 1 <= j < 4 :: w.quotes[j].seller != 1;
  }
}
