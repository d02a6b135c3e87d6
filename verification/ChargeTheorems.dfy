/** One quote, one booking, one price: what verifying charges promises over
    every run, whatever answers the provider gives and however often. */
module ChargeTheorems {
  import opened Common
  import opened Policy
  import opened Ledger
  import opened Books
  import C = Cases
  import R = Refunds
  import opened BooksInvariant
  import MoneySteps
  import opened ReleaseSteps
  import opened Runs
  import opened Onward

  // ---- attempts over runs ----

  ghost predicate DealsKept(s: Books, t: Books) {
    forall a | a in s.attempts :: a in t.attempts && SameDeal(s.attempts[a], t.attempts[a])
  }

  lemma ExceptionedDeals(cfg: Config, s: Books, a: int, kind: Kind, amount: int)
    requires a in s.attempts
    ensures Exceptioned(cfg, s, a, kind, amount).attempts == s.attempts[a := s.attempts[a].(state := Exceptional)]
    ensures RecordException(s, a, kind, amount).attempts == s.attempts[a := s.attempts[a].(state := Exceptional)]
  {}

  lemma RepricedDeal(p: Attempt, ch: Charge)
    ensures SameDeal(p, Repriced(p, ch)) && Repriced(p, ch).booking == p.booking
  {}

  lemma BookDeals(cfg: Config, s: Books, a: int, ch: Charge, seller: int, start: int, duration: int)
    requires a in s.attempts && Book(cfg, s, a, ch, seller, start, duration).Some?
    ensures var t := Book(cfg, s, a, ch, seller, start, duration).value;
      t.attempts == s.attempts[a := s.attempts[a].(state := Succeeded, booking := Some(|s.cases|))]
  {}

  lemma FirstDeals(cfg: Config, s: Books, t: Books, a: int, ch: Charge, slot: Slot)
    requires a in t.attempts
    ensures var (u, answer) := FirstCharge(cfg, s, t, a, ch, slot);
      if answer.None? && slot.Free? then u == s
      else u.attempts == t.attempts[a := t.attempts[a].(
        state := if slot.Free? then Succeeded else Exceptional,
        booking := if slot.Free? then Some(|t.cases|) else t.attempts[a].booking)]
  {}

  lemma AcceptDeals(cfg: Config, s: Books, a: int, ch: Charge, slot: Slot)
    requires Inv(cfg, s) && a in s.attempts
    ensures var t := AcceptCharge(cfg, s, a, ch, slot).0;
      a in t.attempts && t.attempts == s.attempts[a := t.attempts[a]] && SameDeal(s.attempts[a], t.attempts[a])
  {
    hide Inv, BookingForQuote, Exceptioned, FirstCharge, Repriced;
    var t := s.(attempts := s.attempts[a := Repriced(s.attempts[a], ch)]);
    RepricedDeal(s.attempts[a], ch);
    ExceptionedDeals(cfg, t, a, DuplicateCharge, ch.amount);
    NoBookingYet(cfg, s, a);
    FirstDeals(cfg, s, t, a, ch, slot);
    assert s.attempts[a := s.attempts[a]] == s.attempts;
  }

  /** Verifying writes one attempt row, and keeps its deal. */
  lemma VerifyDeals(cfg: Config, s: Books, a: int, ch: Charge, slot: Slot)
    requires Inv(cfg, s) && a in s.attempts
    ensures var t := Verify(cfg, s, a, ch, slot).0;
      a in t.attempts && t.attempts == s.attempts[a := t.attempts[a]] && SameDeal(s.attempts[a], t.attempts[a])
  {
    hide Inv, Exceptioned, RecordException, AcceptCharge, AmountOk;
    if SnapshotOk(s.attempts[a]) {
      var kind := if !ch.sameCurrency then WrongCurrency else WrongAmount;
      ExceptionedDeals(cfg, s, a, kind, ch.amount);
      ExceptionedDeals(cfg, s, a, SettlementMismatch, ch.fee);
      AcceptDeals(cfg, s, a, ch, slot);
    }
  }

  /** The attempt a step may write, if any. */
  function Writes(e: Event): Option<int> {
    match e
    case StartAttempt(a, _, _) => Some(a)
    case QuoteFee(a, _) => Some(a)
    case VerifyCharge(a, _, _) => Some(a)
    case _ => None
  }

  lemma OtherAttempts(cfg: Config, s: Books, e: Event)
    requires Writes(e).None?
    ensures Step(cfg, s, e).attempts == s.attempts
  {
    hide C.Step, Finalize, Release, Reverse, Send, RetryPayout;
    match e
    case FinalizeRefund(b, i) => FinalizeRow(s, b, i);
    case ReleasePayout(b) => ReleaseRow(cfg, s, b);
    case CheckReversal(b) => ReverseRow(s, b);
    case SendPayout(b, lookup, readable, reply) => SendRow(s, b, lookup, readable, reply);
    case Retry(b, automatic) => RetryRow(s, b, automatic);
    case _ =>
  }

  lemma StepDeals(cfg: Config, s: Books, e: Event)
    requires Inv(cfg, s)
    ensures DealsKept(s, Step(cfg, s, e))
    ensures forall a | a in s.attempts && Writes(e) != Some(a) :: Step(cfg, s, e).attempts[a] == s.attempts[a]
  {
    hide Inv, Verify, Act, Finalize, Release, Send, Reverse, RetryPayout;
    match e
    case VerifyCharge(a, ch, slot) => if a in s.attempts { VerifyDeals(cfg, s, a, ch, slot); } else { UnknownAttempt(cfg, s, a, ch, slot); }
    case StartAttempt(_, _, _) =>
    case QuoteFee(_, _) =>
    case _ => OtherAttempts(cfg, s, e);
  }

  lemma UnknownAttempt(cfg: Config, s: Books, a: int, ch: Charge, slot: Slot)
    requires a !in s.attempts
    ensures Verify(cfg, s, a, ch, slot) == (s, None)
  {}

  /** Over every run the price of an attempt never changes, although the total
      asked for and the buyer's fee may; nor does its quote or its booking. */
  lemma {:induction false} PriceNeverChanges(cfg: Config, s: Books, es: seq<Event>)
    requires Inv(cfg, s)
    ensures DealsKept(s, Run(cfg, s, es))
  {
    hide Inv, Step;
    if es != [] {
      var m := Run(cfg, s, es[..|es| - 1]);
      PriceNeverChanges(cfg, s, es[..|es| - 1]);
      RunKeeps(cfg, s, es[..|es| - 1]);
      StepDeals(cfg, m, es[|es| - 1]);
      forall a | a in s.attempts ensures a in Run(cfg, s, es).attempts && SameDeal(s.attempts[a], Run(cfg, s, es).attempts[a]) {
        assert a in m.attempts && SameDeal(s.attempts[a], m.attempts[a]);
      }
    }
  }

  // ---- one booking ----

  /** However many attempts are paid, a quote has one booking, made by one
      attempt, at that attempt's price. */
  lemma OneBookingPerQuote(cfg: Config, s: Books, b: nat, d: nat)
    requires Valid(cfg) && Reachable(cfg, s) && b < |s.cases| && d < |s.cases|
    requires s.cases[b].quote == s.cases[d].quote
    ensures b == d
    ensures var p := s.cases[b].attempt;
      && p in s.attempts && s.attempts[p].booking == Some(b)
      && s.cases[b].gross == s.attempts[p].expected - s.attempts[p].buyerFee
  {
    ReachableInv(cfg, s);
    assert BookedBy(s, b);
  }

  /** Once a quote has its booking, no answer of any kind for any of its
      attempts adds or changes a booking, payout, refund of a booking, debt,
      journal or transfer; an answer with a booking names that booking. */
  lemma BookedQuoteIsClosed(cfg: Config, s: Books, a: int, ch: Charge, slot: Slot, b: nat)
    requires Inv(cfg, s) && a in s.attempts && b < |s.cases| && s.cases[b].quote == s.attempts[a].quote
    ensures var (t, answer) := Verify(cfg, s, a, ch, slot);
      && t == s.(attempts := t.attempts, exceptions := t.exceptions)
      && (answer.Some? ==> answer == Some(b))
  {
    hide Inv, Exceptioned, RecordException, AmountOk, Repriced, FirstCharge;
    BookedQuoteFound(cfg, s, a, b);
    var t := s.(attempts := s.attempts[a := Repriced(s.attempts[a], ch)]);
    var kind := if !ch.sameCurrency then WrongCurrency else WrongAmount;
    ExceptionedTables(cfg, s, a, kind, ch.amount);
    ExceptionedTables(cfg, s, a, SettlementMismatch, ch.fee);
    ExceptionedTables(cfg, t, a, DuplicateCharge, ch.amount);
    assert Repriced(s.attempts[a], ch).quote == s.attempts[a].quote && Repriced(s.attempts[a], ch).booking == s.attempts[a].booking by {
      RepricedDeal(s.attempts[a], ch);
    }
  }

  lemma ExceptionedTables(cfg: Config, s: Books, a: int, kind: Kind, amount: int)
    requires a in s.attempts
    ensures var t := Exceptioned(cfg, s, a, kind, amount); t == s.(attempts := t.attempts, exceptions := t.exceptions)
    ensures var t := RecordException(s, a, kind, amount); t == s.(attempts := t.attempts, exceptions := t.exceptions)
  {}

  lemma BookedQuoteFound(cfg: Config, s: Books, a: int, b: nat)
    requires Inv(cfg, s) && a in s.attempts && b < |s.cases| && s.cases[b].quote == s.attempts[a].quote
    ensures BookingForQuote(s.cases, s.attempts[a].quote) == Some(b)
  {
    QuoteSearch(s.cases, s.attempts[a].quote);
  }

  // ---- re-verification ----

  /** The attempt has booked, and the answer ch is the one it booked on. */
  ghost predicate Settled(s: Books, a: int, ch: Charge, b: nat) {
    && a in s.attempts && SnapshotOk(s.attempts[a]) && Accepted(s.attempts[a], ch)
    && s.attempts[a].booking == Some(b) && s.attempts[a].state == Succeeded
    && Repriced(s.attempts[a], ch) == s.attempts[a]
  }

  /** A settled charge is a fixed point: the same answer gives the same booking
      and leaves every table exactly as it is. */
  lemma SettledRepeats(cfg: Config, s: Books, a: int, ch: Charge, slot: Slot, b: nat)
    requires Inv(cfg, s) && Settled(s, a, ch, b)
    ensures Verify(cfg, s, a, ch, slot) == (s, Some(b))
  {
    hide Agrees, SourcesOk, ProviderOk, Sound, RowsOk;
    BookedIsFound(s, a);
    assert s.attempts[a := s.attempts[a]] == s.attempts;
    assert s.(attempts := s.attempts[a := s.attempts[a]]) == s;
  }

  /** Accepting an answer leaves the attempt in a form that accepts it again
      unchanged, although the first time may rewrite total and fee. */
  lemma RepricedOnce(p: Attempt, ch: Charge, booking: Option<nat>)
    requires SnapshotOk(p) && Accepted(p, ch)
    ensures SnapshotOk(Repriced(p, ch))
    ensures var q := Repriced(p, ch).(state := Succeeded, booking := booking);
      SnapshotOk(q) && Accepted(q, ch) && Repriced(q, ch) == q
  {}

  lemma AnswerSettles(cfg: Config, s: Books, a: int, ch: Charge, slot: Slot)
    requires Inv(cfg, s) && Verify(cfg, s, a, ch, slot).1.Some?
    ensures var (t, answer) := Verify(cfg, s, a, ch, slot); Settled(t, a, ch, answer.value)
  {
    hide Agrees, RowsOk, SourcesOk, ProviderOk, BookingForQuote, Exceptioned, RecordException, Book, Repriced;
    var p := s.attempts[a];
    RepricedDeal(p, ch);
    if p.booking.Some? {
      RepricedOnce(p, ch, p.booking);
      BookedIsFound(s, a);
    } else {
      RepricedOnce(p, ch, Some(|s.cases|));
      BookDeals(cfg, s.(attempts := s.attempts[a := Repriced(p, ch)]), a, ch, slot.seller, slot.start, slot.duration);
    }
  }

  lemma SettledStep(cfg: Config, s: Books, e: Event, a: int, ch: Charge, b: nat)
    requires Inv(cfg, s) && Settled(s, a, ch, b)
    requires Writes(e) == Some(a) ==> !e.QuoteFee? && (e.VerifyCharge? ==> e.charge == ch)
    ensures Settled(Step(cfg, s, e), a, ch, b)
  {
    hide Inv, Verify, Act, Finalize, Release, Send, Reverse, RetryPayout;
    if Writes(e) == Some(a) && e.VerifyCharge? {
      SettledRepeats(cfg, s, a, ch, e.slot, b);
    } else {
      StepDeals(cfg, s, e);
    }
  }

  /** Nothing in the run gives attempt a another answer or another fee. */
  ghost predicate NoOtherAnswer(es: seq<Event>, a: int, ch: Charge) {
    forall i | 0 <= i < |es| && Writes(es[i]) == Some(a) :: !es[i].QuoteFee? && (es[i].VerifyCharge? ==> es[i].charge == ch)
  }

  lemma {:induction false} SettledRun(cfg: Config, s: Books, es: seq<Event>, a: int, ch: Charge, b: nat)
    requires Inv(cfg, s) && Settled(s, a, ch, b) && NoOtherAnswer(es, a, ch)
    ensures Settled(Run(cfg, s, es), a, ch, b)
  {
    hide Inv, Step, Settled;
    if es != [] {
      SettledRun(cfg, s, es[..|es| - 1], a, ch, b);
      RunKeeps(cfg, s, es[..|es| - 1]);
      SettledStep(cfg, Run(cfg, s, es[..|es| - 1]), es[|es| - 1], a, ch, b);
    }
  }

  /** Once an answer has produced a booking, the same answer at any later time,
      any number of times and whatever else has happened in between, returns
      that booking and changes nothing at all. */
  lemma ReverificationIsIdempotent(cfg: Config, s: Books, a: int, ch: Charge, slot: Slot, es: seq<Event>, later: Slot)
    requires Inv(cfg, s) && Verify(cfg, s, a, ch, slot).1.Some? && NoOtherAnswer(es, a, ch)
    ensures var (t, answer) := Verify(cfg, s, a, ch, slot);
      var u := Run(cfg, t, es);
      Verify(cfg, u, a, ch, later) == (u, answer)
  {
    hide Inv, Verify, Run, Settled;
    var (t, answer) := Verify(cfg, s, a, ch, slot);
    VerifyKeeps(cfg, s, a, ch, slot);
    AnswerSettles(cfg, s, a, ch, slot);
    SettledRun(cfg, t, es, a, ch, answer.value);
    RunKeeps(cfg, t, es);
    SettledRepeats(cfg, Run(cfg, t, es), a, ch, later, answer.value);
  }

  // ---- when the first answer books ----

  ghost predicate FirstAccepted(s: Books, a: int, ch: Charge) {
    && a in s.attempts && SnapshotOk(s.attempts[a]) && Accepted(s.attempts[a], ch)
    && BookingForQuote(s.cases, s.attempts[a].quote).None?
  }

  /** The payment journal's debits and credits are both the charged total. */
  lemma PaymentPostable(p: Attempt, ch: Charge, seller: int)
    requires SnapshotOk(p) && ch.fee >= 0
    ensures Postable(PaymentLines(p, ch, seller)) <==> ch.fee < p.expected <= MAX_INT64
  {
    var lines := PaymentLines(p, ch, seller);
    PaymentSides(p, ch, seller, Debit);
    PaymentSides(p, ch, seller, Credit);
    assert lines[0].amount == p.expected - ch.fee;
    assert Debits(lines) == p.expected && Credits(lines) == p.expected;
  }

  lemma SideWhen(side: Side, c: bool, line: Line)
    ensures Sum(SideTotal(side), When(c, line)) == if c && line.side == side then line.amount else 0
  {}

  lemma PaymentSides(p: Attempt, ch: Charge, seller: int, side: Side)
    requires SnapshotOk(p) && ch.fee >= 0
    ensures Sum(SideTotal(side), PaymentLines(p, ch, seller)) == p.expected
  {
    var entitlement := p.expected - p.buyerFee - p.platformFee;
    var l1 := Line(Receivable, Debit, p.expected - ch.fee);
    var l2 := Line(FeeExpense, Debit, ch.fee);
    var l3 := Line(FeeRevenue, Credit, p.platformFee + p.buyerFee);
    var l4 := Line(Payable(seller), Credit, entitlement);
    var f := SideTotal(side);
    SumConcat(f, [l1], When(ch.fee > 0, l2));
    SumConcat(f, [l1] + When(ch.fee > 0, l2), When(p.platformFee + p.buyerFee > 0, l3));
    SumConcat(f, [l1] + When(ch.fee > 0, l2) + When(p.platformFee + p.buyerFee > 0, l3), When(entitlement > 0, l4));
    SideWhen(side, true, l1);
    SideWhen(side, ch.fee > 0, l2);
    SideWhen(side, p.platformFee + p.buyerFee > 0, l3);
    SideWhen(side, entitlement > 0, l4);
  }

  /** A first accepted charge for a free slot becomes a booking exactly when
      the processor's fee is below the total (and the total fits in an int64);
      otherwise the journal is refused and everything rolls back. */
  lemma BooksExactlyWhen(cfg: Config, s: Books, a: int, ch: Charge, seller: int, start: int, duration: nat)
    requires Inv(cfg, s) && FirstAccepted(s, a, ch)
    ensures var (t, answer) := Verify(cfg, s, a, ch, Free(seller, start, duration));
      var total := Repriced(s.attempts[a], ch).expected;
      if ch.fee < total <= MAX_INT64
      then answer == Some(|s.cases|) && |t.cases| == |s.cases| + 1 && |t.journals| == |s.journals| + 1
      else answer.None? && t == s
  {
    hide Agrees, RowsOk, ProviderOk, Postable, PaymentLines, BookingForQuote;
    RepricedOnce(s.attempts[a], ch, None);
    PaymentPostable(Repriced(s.attempts[a], ch), ch, seller);
    NoBookingYet(cfg, s, a);
    MoneySteps.UsedSource(s, PaymentSource(a));
  }

  /** The fee reaches the total only where the total is left as it is: the buyer
      paid exactly what was asked for, a transfer fee included, and the
      processor reports keeping all of it. */
  lemma FeeReachesTotalExactlyWhen(p: Attempt, ch: Charge)
    requires SnapshotOk(p) && Accepted(p, ch)
    ensures ch.fee >= Repriced(p, ch).expected <==> p.buyerFee > 0 && ch.amount == p.expected && ch.fee >= p.expected
  {}

  /** A plain success without a fee. */
  function Paid(amount: int): Charge { Charge(R.Success, true, true, amount, 0, true) }

  /** A reachable state and a free slot with such a charge: nothing is booked,
      however often it is verified. */
  lemma BookingCanBeRefused() returns (s: Books, ch: Charge)
    ensures Policy.Valid(PLAIN) && Reachable(PLAIN, s) && FirstAccepted(s, 1, ch)
    ensures Verify(PLAIN, s, 1, ch, Free(7, 86_400, 60)) == (s, None)
  {
    hide Inv, Verify, Run, BookingForQuote;
    var es := [StartAttempt(1, 1, 1000), QuoteFee(1, 10)];
    AskedWithFee();
    s := Run(PLAIN, Initial(0), es);
    ch := Paid(1010).(fee := 1010);
    InitialInv(PLAIN, 0);
    RunKeeps(PLAIN, Initial(0), es);
    BooksExactlyWhen(PLAIN, s, 1, ch, 7, 86_400, 60);
  }

  lemma AskedWithFee()
    ensures var s := Run(PLAIN, Initial(0), [StartAttempt(1, 1, 1000), QuoteFee(1, 10)]);
      && BookingForQuote(s.cases, 1) == None
      && 1 in s.attempts && s.attempts[1] == Attempt(1, 1010, 10, 0, AwaitingPayment, None)
  {
    hide Verify, Act, Finalize, Release, Send, Reverse;
    var es := [StartAttempt(1, 1, 1000), QuoteFee(1, 10)];
    assert es[..0] == [];
    RunNext(PLAIN, Initial(0), es, 0);
    RunNext(PLAIN, Initial(0), es, 1);
    assert es[..2] == es;
    BasisPointsExact(1000, 0);
  }
}
