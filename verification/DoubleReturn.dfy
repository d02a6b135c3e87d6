/** A charge that is booked although its money is on its way back: exactly when
    that comes about (services/core/cmd/api/payment_processing.go, unbooked.go). */
module DoubleReturn {
  import opened Common
  import opened Policy
  import opened Books
  import C = Cases
  import R = Refunds
  import opened BooksInvariant
  import opened Onward
  import opened Runs
  import opened ChargeTheorems

  /** A refund of the attempt's payment as one that became no booking. */
  ghost predicate Returned(s: Books, a: int) {
    exists kind :: ExceptionKey(a, kind) in s.exceptions && s.exceptions[ExceptionKey(a, kind)].refunds != []
  }

  ghost predicate Both(s: Books, a: int) {
    a in s.attempts && s.attempts[a].booking.Some? && Returned(s, a)
  }

  /** A success that names this payment but not what was asked for. */
  predicate Contradicts(p: Attempt, ch: Charge) {
    ch.status == R.Success && ch.sameReference && ch.amount > 0 && (!ch.sameCurrency || !AmountOk(p, ch))
  }

  /** The two ways there: a booked attempt is answered with something else, or a
      returned one is answered once more and its time is free by then. */
  ghost predicate MakesBoth(s: Books, a: int, ch: Charge, slot: Slot) {
    && a in s.attempts && SnapshotOk(s.attempts[a])
    && var p := s.attempts[a];
       || (p.booking.Some? && Contradicts(p, ch))
       || (Returned(s, a) && FirstAccepted(s, a, ch) && slot.Free? && ch.fee < Repriced(p, ch).expected <= MAX_INT64)
  }

  // ---- one step ----

  lemma ExceptionedReturns(cfg: Config, s: Books, a: int, kind: Kind, amount: int, x: int)
    requires a in s.attempts
    ensures var t := Exceptioned(cfg, s, a, kind, amount);
      Returned(t, x) <==> Returned(s, x) || (x == a && kind != SettlementMismatch && amount > 0)
    ensures Returned(RecordException(s, a, kind, amount), x) <==> Returned(s, x)
  {
    var u := RecordException(s, a, kind, amount);
    var t := Exceptioned(cfg, s, a, kind, amount);
    var key := ExceptionKey(a, kind);
    forall k ensures k != key ==> (k in t.exceptions <==> k in s.exceptions) && (k in s.exceptions ==> t.exceptions[k] == s.exceptions[k]) {}
    assert key in u.exceptions && key in t.exceptions;
    if Returned(s, x) {
      var k :| ExceptionKey(x, k) in s.exceptions && s.exceptions[ExceptionKey(x, k)].refunds != [];
      assert ExceptionKey(x, k) in u.exceptions && u.exceptions[ExceptionKey(x, k)].refunds != [];
      assert ExceptionKey(x, k) in t.exceptions && t.exceptions[ExceptionKey(x, k)].refunds != [];
    }
  }

  lemma SameExceptions(s: Books, t: Books, x: int)
    requires t.exceptions == s.exceptions
    ensures Returned(t, x) <==> Returned(s, x)
  {}

  lemma FirstBoth(cfg: Config, s: Books, a: int, ch: Charge, slot: Slot, x: int)
    requires Inv(cfg, s) && FirstAccepted(s, a, ch)
    ensures Both(Verify(cfg, s, a, ch, slot).0, x) <==> Both(s, x) || (x == a && MakesBoth(s, a, ch, slot))
  {
    hide Inv, Book, Exceptioned, Repriced, Returned, BookingForQuote, AmountOk;
    var t := s.(attempts := s.attempts[a := Repriced(s.attempts[a], ch)]);
    var expected := t.attempts[a].expected;
    RepricedDeal(s.attempts[a], ch);
    NoBookingYet(cfg, s, a);
    SameExceptions(s, t, x);
    if slot.Free? {
      BooksExactlyWhen(cfg, s, a, ch, slot.seller, slot.start, slot.duration);
      if Book(cfg, t, a, ch, slot.seller, slot.start, slot.duration).Some? {
        BookTables(cfg, t, a, ch, slot.seller, slot.start, slot.duration);
      }
      SameExceptions(s, Verify(cfg, s, a, ch, slot).0, x);
    } else {
      var kind := if slot.OfferClosed? then OfferConflict else PaymentWithoutSlot;
      ExceptionedReturns(cfg, t, a, kind, expected, x);
      ExceptionedDeals(cfg, t, a, kind, expected);
    }
  }

  lemma BookTables(cfg: Config, s: Books, a: int, ch: Charge, seller: int, start: int, duration: int)
    requires a in s.attempts && Book(cfg, s, a, ch, seller, start, duration).Some?
    ensures var t := Book(cfg, s, a, ch, seller, start, duration).value;
      && t.exceptions == s.exceptions
      && t.attempts == s.attempts[a := s.attempts[a].(state := Succeeded, booking := Some(|s.cases|))]
  {}

  /** An answer that is recorded as an exception changes no booking. */
  lemma ExceptionedBoth(cfg: Config, s: Books, a: int, kind: Kind, amount: int, x: int)
    requires a in s.attempts
    ensures var newly := x == a && s.attempts[a].booking.Some? && kind != SettlementMismatch && amount > 0;
      Both(Exceptioned(cfg, s, a, kind, amount), x) <==> Both(s, x) || newly
    ensures Both(RecordException(s, a, kind, amount), x) <==> Both(s, x)
  {
    hide Exceptioned, RecordException, Returned;
    ExceptionedReturns(cfg, s, a, kind, amount, x);
    ExceptionedDeals(cfg, s, a, kind, amount);
  }

  /** Writing an attempt's row without touching its booking changes nothing. */
  lemma RowBoth(s: Books, a: int, p: Attempt, x: int)
    requires a in s.attempts && p.booking == s.attempts[a].booking
    ensures Both(s.(attempts := s.attempts[a := p]), x) <==> Both(s, x)
  {
    hide Returned;
    SameExceptions(s, s.(attempts := s.attempts[a := p]), x);
  }

  lemma AcceptBoth(cfg: Config, s: Books, a: int, ch: Charge, slot: Slot, x: int)
    requires a in s.attempts && BookingForQuote(s.cases, s.attempts[a].quote).Some?
    ensures Both(AcceptCharge(cfg, s, a, ch, slot).0, x) <==> Both(s, x)
  {
    hide Exceptioned, Both, Repriced, FirstCharge, BookingForQuote;
    var q := Repriced(s.attempts[a], ch);
    var t := s.(attempts := s.attempts[a := q]);
    RepricedDeal(s.attempts[a], ch);
    RowBoth(s, a, q, x);
    ExceptionedBoth(cfg, t, a, DuplicateCharge, ch.amount, x);
    RowBoth(t, a, q.(state := Succeeded), x);
  }

  /** Verifying makes an attempt both booked and returned under exactly this
      guard, and no other attempt. */
  lemma VerifyBoth(cfg: Config, s: Books, a: int, ch: Charge, slot: Slot, x: int)
    requires Inv(cfg, s)
    ensures Both(Verify(cfg, s, a, ch, slot).0, x) <==> Both(s, x) || (x == a && MakesBoth(s, a, ch, slot))
  {
    hide Inv, Exceptioned, RecordException, Both, BookingForQuote, AmountOk, AcceptCharge, Repriced;
    if a in s.attempts && SnapshotOk(s.attempts[a]) {
      var p := s.attempts[a];
      if FirstAccepted(s, a, ch) {
        FirstBoth(cfg, s, a, ch, slot, x);
      } else if ch.status != R.Success {
        RowBoth(s, a, p.(state := if ch.status == R.Pending then StillPending else NotPaid), x);
      } else if Accepted(p, ch) {
        AcceptBoth(cfg, s, a, ch, slot, x);
      } else {
        ExceptionedBoth(cfg, s, a, if !ch.sameCurrency then WrongCurrency else WrongAmount, ch.amount, x);
        ExceptionedBoth(cfg, s, a, SettlementMismatch, ch.fee, x);
      }
    }
  }

  // ---- every run ----

  predicate OnExceptions(e: Event) { e.UnbookedAction? || e.FinalizeUnbooked? || e.ResolveException? }

  lemma OtherExceptions(cfg: Config, s: Books, e: Event)
    requires !e.VerifyCharge? && !OnExceptions(e)
    ensures Step(cfg, s, e).exceptions == s.exceptions
  {
    hide C.Step, Start, WithFee, Finalize, Release, Send, Reverse, RetryPayout, SaveAccount;
    match e
    case FinalizeRefund(b, i) => FinalizeRow(s, b, i);
    case ReleasePayout(b) => ReleaseRow(cfg, s, b);
    case SendPayout(b, lookup, readable, reply) => SendRow(s, b, lookup, readable, reply);
    case CheckReversal(b) => ReverseRow(s, b);
    case Retry(b, automatic) => RetryRow(s, b, automatic);
    case StartAttempt(a, quote, price) => OtherRows(cfg, s, a, quote, price, 0, false);
    case QuoteFee(a, fee) => OtherRows(cfg, s, a, 0, 0, fee, false);
    case SavePayoutAccount(seller, different) => OtherRows(cfg, s, seller, 0, 0, 0, different);
    case _ =>
  }

  lemma OtherRows(cfg: Config, s: Books, id: int, quote: int, price: int, fee: int, different: bool)
    ensures Start(cfg, s, id, quote, price).exceptions == s.exceptions
    ensures WithFee(s, id, fee).exceptions == s.exceptions && SaveAccount(s, id, different).exceptions == s.exceptions
  {}

  lemma SameLength(rs: seq<R.Refund>, i: nat, action: R.Action, autoRefunds: bool, now: int)
    ensures R.Act(rs, i, action, autoRefunds, now).Some? ==> |R.Act(rs, i, action, autoRefunds, now).value| == |rs|
    ensures R.Finish(rs, i, now).Some? ==> |R.Finish(rs, i, now).value| == |rs|
  {}

  lemma OneException(s: Books, key: ExceptionKey, u: Unbooked, x: int)
    requires key in s.exceptions && |u.refunds| == |s.exceptions[key].refunds|
    ensures Returned(s.(exceptions := s.exceptions[key := u]), x) <==> Returned(s, x)
  {
    var t := s.(exceptions := s.exceptions[key := u]);
    if Returned(s, x) {
      var k :| ExceptionKey(x, k) in s.exceptions && s.exceptions[ExceptionKey(x, k)].refunds != [];
      assert ExceptionKey(x, k) in t.exceptions && |t.exceptions[ExceptionKey(x, k)].refunds| > 0;
    }
  }

  /** Working on an exception's refunds neither adds nor removes any. */
  lemma ExceptionsStay(cfg: Config, s: Books, e: Event, x: int)
    requires OnExceptions(e)
    ensures Returned(Step(cfg, s, e), x) <==> Returned(s, x)
  {
    hide Returned, R.Act, R.Finish;
    if e.key in s.exceptions {
      var u := s.exceptions[e.key];
      var action := if e.UnbookedAction? then e.action else R.Record;
      var i := if e.ResolveException? then 0 else e.row;
      SameLength(u.refunds, i, action, cfg.autoRefunds, s.clock);
      var acted, finished := R.Act(u.refunds, i, action, cfg.autoRefunds, s.clock), R.Finish(u.refunds, i, s.clock);
      if e.UnbookedAction? && acted.Some? {
        OneException(s, e.key, u.(refunds := acted.value), x);
      } else if e.FinalizeUnbooked? && finished.Some? {
        OneException(s, e.key, u.(refunds := finished.value, state := Resolved), x);
      } else if e.ResolveException? {
        OneException(s, e.key, u.(state := Resolved), x);
      }
    }
  }

  lemma OtherBoth(cfg: Config, s: Books, e: Event, x: int)
    requires !e.VerifyCharge?
    ensures Both(Step(cfg, s, e), x) <==> Both(s, x)
  {
    hide Returned;
    var t := Step(cfg, s, e);
    if OnExceptions(e) {
      ExceptionsStay(cfg, s, e, x);
    } else {
      OtherExceptions(cfg, s, e);
      SameExceptions(s, t, x);
    }
    SameBookings(cfg, s, e, x);
  }

  lemma SameBookings(cfg: Config, s: Books, e: Event, x: int)
    requires !e.VerifyCharge?
    ensures var t := Step(cfg, s, e);
      x in t.attempts && t.attempts[x].booking.Some? <==> x in s.attempts && s.attempts[x].booking.Some?
  {
    hide Send, Act, Finalize, Release, Reverse, RetryPayout, BasisPoints;
    if Writes(e).None? {
      OtherAttempts(cfg, s, e);
    }
  }

  lemma StepBoth(cfg: Config, s: Books, e: Event, x: int)
    requires Inv(cfg, s)
    ensures Both(Step(cfg, s, e), x) <==>
      Both(s, x) || (e.VerifyCharge? && e.attempt == x && MakesBoth(s, x, e.charge, e.slot))
  {
    hide Inv, Both, Verify, MakesBoth;
    if e.VerifyCharge? {
      VerifyBoth(cfg, s, e.attempt, e.charge, e.slot, x);
    } else {
      OtherBoth(cfg, s, e, x);
    }
  }

  /** Some answer of the run meets the guard for the attempt. */
  ghost predicate SomeMakesBoth(cfg: Config, s: Books, es: seq<Event>, x: int) {
    exists i | 0 <= i < |es| ::
      es[i].VerifyCharge? && es[i].attempt == x && MakesBoth(Run(cfg, s, es[..i]), x, es[i].charge, es[i].slot)
  }

  /** Over every run from empty tables, an attempt is booked and returned if and
      only if some answer to it met the guard. */
  lemma {:induction false} BothExactlyWhen(cfg: Config, s: Books, es: seq<Event>, x: int)
    requires Inv(cfg, s)
    ensures Both(Run(cfg, s, es), x) <==> Both(s, x) || SomeMakesBoth(cfg, s, es, x)
  {
    hide Inv, Both, Step, MakesBoth;
    if es != [] {
      var n := |es| - 1;
      var before := es[..n];
      BothExactlyWhen(cfg, s, before, x);
      RunKeeps(cfg, s, before);
      StepBoth(cfg, Run(cfg, s, before), es[n], x);
      assert forall i | 0 <= i < n :: before[..i] == es[..i] && before[i] == es[i];
      if SomeMakesBoth(cfg, s, before, x) {
        var i :| 0 <= i < n && before[i].VerifyCharge? && before[i].attempt == x
          && MakesBoth(Run(cfg, s, before[..i]), x, before[i].charge, before[i].slot);
        assert es[i].VerifyCharge? && es[i].attempt == x && MakesBoth(Run(cfg, s, es[..i]), x, es[i].charge, es[i].slot);
      }
      if SomeMakesBoth(cfg, s, es, x) {
        var i :| 0 <= i < |es| && es[i].VerifyCharge? && es[i].attempt == x
          && MakesBoth(Run(cfg, s, es[..i]), x, es[i].charge, es[i].slot);
        assert i < n ==> before[i].VerifyCharge? && MakesBoth(Run(cfg, s, before[..i]), x, before[i].charge, before[i].slot);
      }
    }
  }

  // ---- both ways are open ----

  /** A first accepted charge that finds no time, and is answered again when the
      time is free: its refund is on its way, and it is booked. */
  lemma LateThenBooked(cfg: Config, s: Books, a: int, ch: Charge, seller: int, start: int, duration: nat)
    requires Inv(cfg, s) && FirstAccepted(s, a, ch) && ch.fee < Repriced(s.attempts[a], ch).expected <= MAX_INT64
    ensures var t := Verify(cfg, s, a, ch, SlotTaken).0;
      Both(Verify(cfg, t, a, ch, Free(seller, start, duration)).0, a)
  {
    hide Inv, Verify, Both, Repriced, BookingForQuote, Accepted, Returned;
    var t := Verify(cfg, s, a, ch, SlotTaken).0;
    VerifyKeeps(cfg, s, a, ch, SlotTaken);
    LateReturns(cfg, s, a, ch);
    VerifyBoth(cfg, t, a, ch, Free(seller, start, duration), a);
  }

  lemma LateReturns(cfg: Config, s: Books, a: int, ch: Charge)
    requires Inv(cfg, s) && FirstAccepted(s, a, ch)
    ensures var t := Verify(cfg, s, a, ch, SlotTaken).0;
      && Returned(t, a) && FirstAccepted(t, a, ch)
      && Repriced(t.attempts[a], ch).expected == Repriced(s.attempts[a], ch).expected
  {
    hide Inv, Exceptioned, Repriced, Returned, BookingForQuote, AmountOk;
    var q := Repriced(s.attempts[a], ch);
    var t := s.(attempts := s.attempts[a := q]);
    RepricedDeal(s.attempts[a], ch);
    ExceptionedReturns(cfg, t, a, PaymentWithoutSlot, q.expected, a);
    ExceptionedDeals(cfg, t, a, PaymentWithoutSlot, q.expected);
    ExceptionedTables(cfg, t, a, PaymentWithoutSlot, q.expected);
    RepricedAgain(s.attempts[a], ch);
  }

  lemma RepricedAgain(p: Attempt, ch: Charge)
    requires SnapshotOk(p) && Accepted(p, ch)
    ensures var q := Repriced(p, ch).(state := Exceptional);
      SnapshotOk(q) && q.expected > 0 && Accepted(q, ch) && Repriced(q, ch).expected == q.expected
  {}

  lemma Opened()
    ensures Policy.Valid(PLAIN)
    ensures Run(PLAIN, Initial(0), [StartAttempt(1, 1, 1000)]) == Step(PLAIN, Initial(0), StartAttempt(1, 1, 1000))
    ensures var s := Run(PLAIN, Initial(0), [StartAttempt(1, 1, 1000)]);
      && s.cases == [] && s.attempts == map[1 := Attempt(1, 1000, 0, 0, AwaitingPayment, None)]
  {
    hide Step;
    var es := [StartAttempt(1, 1, 1000)];
    assert es[..0] == [];
    OpenedStep();
  }

  lemma OpenedStep()
    ensures var s := Step(PLAIN, Initial(0), StartAttempt(1, 1, 1000));
      && s.cases == [] && s.attempts == map[1 := Attempt(1, 1000, 0, 0, AwaitingPayment, None)]
  {
    BasisPointsExact(1000, 0);
    assert Initial(0).attempts[1 := Attempt(1, 1000, 0, 0, AwaitingPayment, None)] == map[1 := Attempt(1, 1000, 0, 0, AwaitingPayment, None)];
  }

  /** Two reachable states in which one payment is booked and refunded: by a
      late success, and by an answer that contradicts the one it booked on. */
  lemma BothCanHappen() returns (late: Books, contradicted: Books)
    ensures Policy.Valid(PLAIN) && Reachable(PLAIN, late) && Reachable(PLAIN, contradicted)
    ensures Both(late, 1) && Both(contradicted, 1)
  {
    hide Inv, Verify, Both, Run;
    var es := [StartAttempt(1, 1, 1000)];
    Opened();
    var s := Run(PLAIN, Initial(0), es);
    InitialInv(PLAIN, 0);
    RunKeeps(PLAIN, Initial(0), es);
    var free := Free(7, 86_400, 60);
    LateThenBooked(PLAIN, s, 1, Paid(1000), 7, 86_400, 60);
    var missed, booked := VerifyCharge(1, Paid(1000), SlotTaken), VerifyCharge(1, Paid(1000), free);
    RunSnoc(PLAIN, Initial(0), es, missed);
    RunSnoc(PLAIN, Initial(0), es + [missed], booked);
    late := Run(PLAIN, Initial(0), es + [missed] + [booked]);
    var other := VerifyCharge(1, Paid(999), SlotTaken);
    BookedThenContradicted(s, free);
    RunSnoc(PLAIN, Initial(0), es, booked);
    RunSnoc(PLAIN, Initial(0), es + [booked], other);
    contradicted := Run(PLAIN, Initial(0), es + [booked] + [other]);
  }

  lemma BookedThenContradicted(s: Books, free: Slot)
    requires Inv(PLAIN, s) && s.cases == [] && free.Free?
    requires s.attempts == map[1 := Attempt(1, 1000, 0, 0, AwaitingPayment, None)]
    ensures Both(Verify(PLAIN, Verify(PLAIN, s, 1, Paid(1000), free).0, 1, Paid(999), SlotTaken).0, 1)
  {
    hide Inv, Verify, Both, Returned, BookingForQuote;
    assert BookingForQuote(s.cases, 1) == None by { NoCases(); }
    BooksExactlyWhen(PLAIN, s, 1, Paid(1000), free.seller, free.start, free.duration);
    VerifyKeeps(PLAIN, s, 1, Paid(1000), free);
    AnswerSettles(PLAIN, s, 1, Paid(1000), free);
    var t := Verify(PLAIN, s, 1, Paid(1000), free).0;
    VerifyDeals(PLAIN, s, 1, Paid(1000), free);
    VerifyBoth(PLAIN, t, 1, Paid(999), SlotTaken, 1);
  }

  lemma NoCases()
    ensures BookingForQuote([], 1) == None
  {}
}
