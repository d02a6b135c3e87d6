/** What the provider's answer to a payment comes to, in the numbers it carries
    (services/core/cmd/api/payment_processing.go, unbooked.go). */
module Answers {
  import opened Common
  import opened Policy
  import opened Ledger
  import opened Books
  import C = Cases
  import R = Refunds
  import opened BooksInvariant
  import opened ReleaseSteps
  import opened Runs
  import opened ChargeTheorems

  /** The price of an attempt: what is asked for, less the buyer's fee. */
  function PriceOf(p: Attempt): int { p.expected - p.buyerFee }

  /** What the buyer really pays: the total that was asked for if exactly that
      came in with a fee in it, and otherwise price and reported fee. */
  function TotalPaid(p: Attempt, ch: Charge): int {
    if ch.amount == p.expected && p.buyerFee > 0 then p.expected else PriceOf(p) + ch.fee
  }

  /** The answer is the one asked for, and about this payment. */
  predicate Success(ch: Charge) { ch.status == R.Success && ch.sameReference && ch.sameCurrency }

  /** The three amounts that are as good as the price. */
  predicate PaysThePrice(p: Attempt, ch: Charge) {
    ch.amount == PriceOf(p) || ch.amount == p.expected || (ch.fee > 0 && ch.amount == PriceOf(p) + ch.fee)
  }

  lemma MatchesExactly(p: Attempt, ch: Charge)
    ensures AmountOk(p, ch) <==> PaysThePrice(p, ch)
    ensures var q := Repriced(p, ch);
      q == p.(expected := q.expected, buyerFee := q.buyerFee)
      && (PaysThePrice(p, ch) ==> q.expected == TotalPaid(p, ch) && q.buyerFee == TotalPaid(p, ch) - PriceOf(p))
  {}

  ghost predicate NoBookingFor(s: Books, quote: int) { forall b | 0 <= b < |s.cases| :: s.cases[b].quote != quote }

  /** The refunds of one kind of exception of an attempt. */
  function RefundsOf(s: Books, a: int, kind: Kind): seq<R.Refund> {
    if ExceptionKey(a, kind) in s.exceptions then s.exceptions[ExceptionKey(a, kind)].refunds else []
  }

  /** Between two tables the attempt has become an exception of a kind, and the
      money goes back: one new refund of all of it, unless one is on its way. */
  ghost predicate SentBack(cfg: Config, s: Books, t: Books, a: int, kind: Kind, amount: int) {
    && a in t.attempts && t.attempts[a].state == Exceptional && t.attempts == s.attempts[a := t.attempts[a]]
    && t.cases == s.cases && t.journals == s.journals && t.debts == s.debts && t.transfers == s.transfers
    && ExceptionKey(a, kind) in t.exceptions
    && var before, after := RefundsOf(s, a, kind), RefundsOf(t, a, kind);
       if amount <= 0 || kind == SettlementMismatch || (exists i :: 0 <= i < |before| && before[i].state != R.Failed)
       then after == before
       else
         && |after| == |before| + 1 && after[..|before|] == before
         && var row := after[|before|];
            && row.amount == amount && row.platform == amount && row.seller == 0 && !row.sent && row.attempts == 0
            && row.state == (if cfg.autoRefunds then R.Queued else R.PendingApproval)
  }

  lemma InsertsUnlessLive(rs: seq<R.Refund>, r: R.Refund)
    ensures R.Insert(rs, r) ==
      if exists i :: 0 <= i < |rs| && rs[i].state != R.Failed then None else Some(rs + [r])
  {}

  lemma RecordedFirst(s: Books, a: int, kind: Kind, amount: int)
    requires a in s.attempts
    ensures var u := RecordException(s, a, kind, amount);
      && u == s.(attempts := s.attempts[a := s.attempts[a].(state := Exceptional)], exceptions := u.exceptions)
      && ExceptionKey(a, kind) in u.exceptions && RefundsOf(u, a, kind) == RefundsOf(s, a, kind)
  {}

  lemma ThenReturned(cfg: Config, u: Books, a: int, kind: Kind, amount: int)
    requires ExceptionKey(a, kind) in u.exceptions
    ensures var t := ReturnUnbooked(cfg, u, a, kind, amount);
      && t == u.(exceptions := t.exceptions) && ExceptionKey(a, kind) in t.exceptions
      && RefundsOf(t, a, kind) ==
        if amount <= 0 || kind == SettlementMismatch || R.Insert(RefundsOf(u, a, kind), UnbookedRefund(cfg, amount, u.clock)).None?
        then RefundsOf(u, a, kind) else RefundsOf(u, a, kind) + [UnbookedRefund(cfg, amount, u.clock)]
  {
    hide R.HasLive;
  }

  lemma ExceptionedSendsBack(cfg: Config, s: Books, a: int, kind: Kind, amount: int)
    requires a in s.attempts
    ensures SentBack(cfg, s, Exceptioned(cfg, s, a, kind, amount), a, kind, amount)
  {
    hide R.Insert, R.HasLive, RefundsOf, RecordException, ReturnUnbooked;
    RecordedFirst(s, a, kind, amount);
    ThenReturned(cfg, RecordException(s, a, kind, amount), a, kind, amount);
    InsertsUnlessLive(RefundsOf(s, a, kind), UnbookedRefund(cfg, amount, s.clock));
  }

  /** The exception's own row: the amount it was first recorded with, and
      awaiting the provider once a refund was made for it. */
  lemma ExceptionRow(cfg: Config, s: Books, a: int, kind: Kind, amount: int)
    requires a in s.attempts
    ensures var t := Exceptioned(cfg, s, a, kind, amount);
      var key := ExceptionKey(a, kind);
      && t.exceptions.Keys == s.exceptions.Keys + {key}
      && (forall k | k in s.exceptions && k != key :: t.exceptions[k] == s.exceptions[k])
      && t.exceptions[key].amount == (if key in s.exceptions then s.exceptions[key].amount else amount)
      && var was := if key in s.exceptions then s.exceptions[key].state else ExceptionOpen;
         t.exceptions[key].state ==
           if |t.exceptions[key].refunds| > |RefundsOf(s, a, kind)| && was == ExceptionOpen then AwaitingProvider else was
  {
    hide RecordException, ReturnUnbooked;
    RecordedRow(s, a, kind, amount);
    ReturnedRow(cfg, RecordException(s, a, kind, amount), a, kind, amount);
  }

  lemma RecordedRow(s: Books, a: int, kind: Kind, amount: int)
    requires a in s.attempts
    ensures var key := ExceptionKey(a, kind);
      RecordException(s, a, kind, amount).exceptions
        == if key in s.exceptions then s.exceptions else s.exceptions[key := Unbooked(amount, ExceptionOpen, [])]
  {}

  lemma ReturnedRow(cfg: Config, u: Books, a: int, kind: Kind, amount: int)
    requires ExceptionKey(a, kind) in u.exceptions
    ensures var key := ExceptionKey(a, kind);
      var t := ReturnUnbooked(cfg, u, a, kind, amount);
      && key in t.exceptions
      && var x, y := u.exceptions[key], t.exceptions[key];
         && t.exceptions == u.exceptions[key := y]
         && y.amount == x.amount && |y.refunds| >= |x.refunds|
         && y.state == if |y.refunds| > |x.refunds| && x.state == ExceptionOpen then AwaitingProvider else x.state
  {
    hide UnbookedRefund;
  }

  /** The booking of a payment, column by column. */
  function BookedAt(cfg: Config, s: Books, a: int, ch: Charge, seller: int, start: int, duration: int): C.Case
    requires a in s.attempts
  {
    var p := s.attempts[a];
    var total := TotalPaid(p, ch);
    C.Case(p.quote, a, seller, start, duration, PriceOf(p), p.platformFee, total - ch.fee, total - PriceOf(p),
      C.Confirmed, C.PaidInFull, C.NoIssue, false, false, None,
      C.Payout(C.Scheduled, PriceOf(p) - p.platformFee, 0, 0, 1, 0, FundsAt(cfg, ch.atOnce, s.clock), s.clock), [])
  }

  /** A first success for a free slot becomes a booking if and only if one of the
      three amounts came in and the processor's fee is below the total; then it
      is booked at the price, the money in is total less fee, and it is counted
      as available at once or after the settlement wait. */
  lemma FirstChargeExactly(cfg: Config, s: Books, a: int, ch: Charge, seller: int, start: int, duration: nat)
    requires Inv(cfg, s) && a in s.attempts && NoBookingFor(s, s.attempts[a].quote)
    requires Success(ch) && ch.fee >= 0
    ensures var p := s.attempts[a];
      var (t, answer) := Verify(cfg, s, a, ch, Free(seller, start, duration));
      var total := TotalPaid(p, ch);
      && (answer.Some? <==> PaysThePrice(p, ch) && ch.fee < total <= MAX_INT64)
      && (answer.Some? ==>
            && answer == Some(|s.cases|) && |t.cases| == |s.cases| + 1 && t.cases[..|s.cases|] == s.cases
            && t.exceptions == s.exceptions && t.attempts[a].state == Succeeded && t.attempts[a].expected == total
            && t.cases[|s.cases|] == BookedAt(cfg, s, a, ch, seller, start, duration))
      && (answer.None? ==> PaysThePrice(p, ch) ==> t == s)
      && (!PaysThePrice(p, ch) && ch.amount > 0 ==> SentBack(cfg, s, t, a, WrongAmount, ch.amount))
  {
    hide Inv, Exceptioned, Book, AmountOk, Repriced, BookingForQuote, TotalPaid, SentBack, PaymentLines, Post;
    var p := s.attempts[a];
    SnapshotHolds(cfg, s, a);
    MatchesExactly(p, ch);
    QuoteSearch(s.cases, p.quote);
    if PaysThePrice(p, ch) {
      BooksExactlyWhen(cfg, s, a, ch, seller, start, duration);
      var t := s.(attempts := s.attempts[a := Repriced(p, ch)]);
      NoBookingYet(cfg, s, a);
      if Book(cfg, t, a, ch, seller, start, duration).Some? {
        BookedCase(cfg, t, a, ch, seller, start, duration);
      }
    } else {
      ExceptionedSendsBack(cfg, s, a, WrongAmount, ch.amount);
    }
  }

  lemma SnapshotHolds(cfg: Config, s: Books, a: int)
    requires Inv(cfg, s) && a in s.attempts
    ensures SnapshotOk(s.attempts[a])
  {
    assert AttemptOk(cfg, s.attempts[a]);
  }

  lemma BookedCase(cfg: Config, s: Books, a: int, ch: Charge, seller: int, start: int, duration: int)
    requires a in s.attempts && Book(cfg, s, a, ch, seller, start, duration).Some?
    ensures var t := Book(cfg, s, a, ch, seller, start, duration).value;
      && t.cases == s.cases + [NewCase(cfg, s.attempts[a], a, ch, seller, start, duration, s.clock)]
      && t.exceptions == s.exceptions
      && t.attempts == s.attempts[a := s.attempts[a].(state := Succeeded, booking := Some(|s.cases|))]
  {}

  /** So nothing is booked for less than its price. */
  lemma NothingBelowThePrice(cfg: Config, s: Books, a: int, ch: Charge, slot: Slot)
    requires Inv(cfg, s) && a in s.attempts && NoBookingFor(s, s.attempts[a].quote)
    requires ch.amount < PriceOf(s.attempts[a])
    ensures Verify(cfg, s, a, ch, slot).1 == None && Verify(cfg, s, a, ch, slot).0.cases == s.cases
  {
    hide Inv, Exceptioned, RecordException, AcceptCharge, AmountOk;
    SnapshotHolds(cfg, s, a);
    MatchesExactly(s.attempts[a], ch);
    var kind := if !ch.sameCurrency then WrongCurrency else WrongAmount;
    ExceptionedTables(cfg, s, a, kind, ch.amount);
    ExceptionedTables(cfg, s, a, SettlementMismatch, ch.fee);
  }

  /** Every other answer. A payment that did not succeed only says so, unless the
      attempt is settled; another amount or currency goes back, unless it is not
      even this payment; a negative fee is recorded; a second payment for a
      booked quote goes back; so does one that finds no time, at its total; and
      the payment that booked the quote answers with the booking. */
  lemma OtherAnswersExactly(cfg: Config, s: Books, a: int, ch: Charge, slot: Slot)
    requires Inv(cfg, s) && a in s.attempts
    ensures var p := s.attempts[a];
      var (t, answer) := Verify(cfg, s, a, ch, slot);
      && (ch.status != R.Success ==>
            && answer == None
            && t == s.(attempts := s.attempts[a :=
                 if p.state in {Succeeded, Exceptional} then p
                 else p.(state := if ch.status == R.Pending then StillPending else NotPaid)]))
      && (ch.status == R.Success && ch.sameReference && ch.amount > 0 && !ch.sameCurrency ==>
            answer == None && SentBack(cfg, s, t, a, WrongCurrency, ch.amount))
      && (Success(ch) && ch.amount > 0 && !PaysThePrice(p, ch) ==>
            answer == None && SentBack(cfg, s, t, a, WrongAmount, ch.amount))
      && (ch.status == R.Success && !ch.sameReference ==>
            && answer == None && t.cases == s.cases && t.attempts == s.attempts[a := p.(state := Exceptional)]
            && forall k | k in s.exceptions :: k in t.exceptions && t.exceptions[k] == s.exceptions[k])
      && (Success(ch) && PaysThePrice(p, ch) && ch.fee < 0 ==>
            answer == None && SentBack(cfg, s, t, a, SettlementMismatch, ch.fee))
      && (Success(ch) && PaysThePrice(p, ch) && ch.fee >= 0 && !NoBookingFor(s, p.quote) ==>
            if p.booking.None? then answer == None && SentBack(cfg, s, t, a, DuplicateCharge, ch.amount)
            else answer == p.booking && t.cases == s.cases && t.exceptions == s.exceptions && t.attempts[a].state == Succeeded)
      && (Success(ch) && PaysThePrice(p, ch) && ch.fee >= 0 && NoBookingFor(s, p.quote) && !slot.Free? ==>
            && answer == None
            && SentBack(cfg, s, t, a, if slot.OfferClosed? then OfferConflict else PaymentWithoutSlot, TotalPaid(p, ch)))
  {
    hide Inv, Exceptioned, RecordException, Book, AmountOk, Repriced, BookingForQuote, TotalPaid, SentBack, Post, PaysThePrice, FirstCharge;
    var p := s.attempts[a];
    SnapshotHolds(cfg, s, a);
    MatchesExactly(p, ch);
    QuoteSearch(s.cases, p.quote);
    NoBookingYet(cfg, s, a);
    RecordedOnly(s, a, if !ch.sameCurrency then WrongCurrency else WrongAmount, ch.amount);
    ExceptionedSendsBack(cfg, s, a, if !ch.sameCurrency then WrongCurrency else WrongAmount, ch.amount);
    ExceptionedSendsBack(cfg, s, a, SettlementMismatch, ch.fee);
    if Accepted(p, ch) {
      var t := s.(attempts := s.attempts[a := Repriced(p, ch)]);
      RepricedSendsBack(cfg, s, a, ch, DuplicateCharge, ch.amount);
      RepricedSendsBack(cfg, s, a, ch, PaymentWithoutSlot, TotalPaid(p, ch));
      RepricedSendsBack(cfg, s, a, ch, OfferConflict, TotalPaid(p, ch));
      if p.booking.Some? {
        BookedIsHere(cfg, s, a);
      }
      if !slot.Free? {
        NoSlot(cfg, s, t, a, ch, slot);
      }
    }
  }

  lemma NoSlot(cfg: Config, s: Books, t: Books, a: int, ch: Charge, slot: Slot)
    requires a in t.attempts && !slot.Free?
    ensures FirstCharge(cfg, s, t, a, ch, slot)
         == (Exceptioned(cfg, t, a, if slot.OfferClosed? then OfferConflict else PaymentWithoutSlot, t.attempts[a].expected), None)
  {}

  lemma BookedIsHere(cfg: Config, s: Books, a: int)
    requires Inv(cfg, s) && a in s.attempts && s.attempts[a].booking.Some?
    ensures BookingForQuote(s.cases, s.attempts[a].quote) == s.attempts[a].booking
  {
    BookedIsFound(s, a);
  }

  lemma RecordedOnly(s: Books, a: int, kind: Kind, amount: int)
    requires a in s.attempts
    ensures var t := RecordException(s, a, kind, amount);
      && t.cases == s.cases && t.attempts == s.attempts[a := s.attempts[a].(state := Exceptional)]
      && forall k | k in s.exceptions :: k in t.exceptions && t.exceptions[k] == s.exceptions[k]
  {}

  lemma RepricedSendsBack(cfg: Config, s: Books, a: int, ch: Charge, kind: Kind, amount: int)
    requires a in s.attempts
    ensures var t := s.(attempts := s.attempts[a := Repriced(s.attempts[a], ch)]);
      SentBack(cfg, s, Exceptioned(cfg, t, a, kind, amount), a, kind, amount)
  {
    hide Exceptioned, Repriced;
    var t := s.(attempts := s.attempts[a := Repriced(s.attempts[a], ch)]);
    ExceptionedSendsBack(cfg, t, a, kind, amount);
    assert RefundsOf(t, a, kind) == RefundsOf(s, a, kind);
  }

  // ---- before there is an answer ----

  /** An attempt is opened once, within the configured limits, for the price
      alone; the platform keeps its share of it rounded down. */
  lemma OpenedExactly(cfg: Config, s: Books, a: int, quote: int, price: int)
    requires Valid(cfg)
    ensures Start(cfg, s, a, quote, price) ==
      if a !in s.attempts && cfg.minCharge <= price <= cfg.maxCharge && price <= 200_000_000
      then s.(attempts := s.attempts[a := Attempt(quote, price, 0, price * cfg.feeBps / 10_000, AwaitingPayment, None)])
      else s
  {
    if 0 < price <= MAX_PRICE {
      BasisPointsExact(price, cfg.feeBps);
    }
  }

  /** The transfer fee on top is at most a tenth of the price and 10 000; a new
      one replaces the last and leaves the price alone. */
  lemma FeeAddedExactly(cfg: Config, s: Books, a: int, fee: int)
    requires Inv(cfg, s) && a in s.attempts
    ensures var p := s.attempts[a];
      var t := WithFee(s, a, fee);
      if 0 <= fee <= PriceOf(p) / 10 + 10_000
      then t == s.(attempts := s.attempts[a := p.(expected := PriceOf(p) + fee, buyerFee := fee)])
           && PriceOf(t.attempts[a]) == PriceOf(p)
      else t == s
  {
    Tenth(PriceOf(s.attempts[a]));
  }

  lemma Tenth(price: int)
    ensures price * 1000 / 10000 == price / 10
  {}
}
