/** Every step of the money lifecycle keeps the invariant, so every run does. */
module Runs {
  import opened Policy
  import opened Ledger
  import opened Recovery
  import opened Books
  import R = Refunds
  import opened CaseRules
  import opened BooksInvariant
  import opened MoneySteps
  import opened ReleaseSteps

  // ---- applyVerifiedCharge ----

  /** The fee the processor reports changes the total, never the price. */
  lemma RepricedKeeps(cfg: Config, s: Books, a: int, ch: Charge)
    requires Inv(cfg, s) && a in s.attempts && ch.fee >= 0
    ensures var q := Repriced(s.attempts[a], ch);
      && AttemptOk(cfg, q) && q.quote == s.attempts[a].quote && q.booking == s.attempts[a].booking
      && q.expected - q.buyerFee == s.attempts[a].expected - s.attempts[a].buyerFee
      && Inv(cfg, s.(attempts := s.attempts[a := q]))
  {
    hide Agrees, SourcesOk, ProviderOk, Sound, Linked;
    AttemptKeeps(cfg, s, a, Repriced(s.attempts[a], ch));
  }

  /** An attempt that has its booking finds it by the quote. */
  lemma BookedIsFound(s: Books, a: int)
    requires Linked(s) && a in s.attempts && s.attempts[a].booking.Some?
    ensures BookingForQuote(s.cases, s.attempts[a].quote) == s.attempts[a].booking
  {
    var b := s.attempts[a].booking.value;
    assert AttemptLinked(s, s.attempts[a], a) && BookedBy(s, b);
    QuoteSearch(s.cases, s.attempts[a].quote);
  }

  lemma FirstKeeps(cfg: Config, s: Books, t: Books, a: int, ch: Charge, slot: Slot)
    requires Inv(cfg, s) && Inv(cfg, t) && a in t.attempts && ch.fee >= 0
    requires BookingForQuote(t.cases, t.attempts[a].quote).None?
    ensures Inv(cfg, FirstCharge(cfg, s, t, a, ch, slot).0)
  {
    hide Inv, Book, Exceptioned;
    if slot.Free? {
      NoBookingYet(cfg, t, a);
      var booked := Book(cfg, t, a, ch, slot.seller, slot.start, slot.duration);
      if booked.Some? {
        BookKeeps(cfg, t, booked.value, a, ch, slot.seller, slot.start, slot.duration);
      }
    } else {
      ExceptionedKeeps(cfg, t, a, if slot.OfferClosed? then OfferConflict else PaymentWithoutSlot, t.attempts[a].expected);
    }
  }

  lemma NoBookingYet(cfg: Config, s: Books, a: int)
    requires Inv(cfg, s) && a in s.attempts
    ensures BookingForQuote(s.cases, s.attempts[a].quote).None? ==> s.attempts[a].booking.None?
  {
    if s.attempts[a].booking.Some? {
      BookedIsFound(s, a);
    }
  }

  lemma AcceptedKeeps(cfg: Config, s: Books, a: int, ch: Charge, slot: Slot)
    requires Inv(cfg, s) && a in s.attempts && ch.fee >= 0
    ensures Inv(cfg, AcceptCharge(cfg, s, a, ch, slot).0)
  {
    hide Inv, Exceptioned, FirstCharge, AttemptOk, BookingForQuote, Repriced;
    var t := s.(attempts := s.attempts[a := Repriced(s.attempts[a], ch)]);
    RepricedKeeps(cfg, s, a, ch);
    if BookingForQuote(s.cases, s.attempts[a].quote).None? {
      FirstKeeps(cfg, s, t, a, ch, slot);
    } else if s.attempts[a].booking.None? {
      ExceptionedKeeps(cfg, t, a, DuplicateCharge, ch.amount);
    } else {
      StateKeeps(cfg, t, a, Succeeded);
    }
  }

  lemma StateKeeps(cfg: Config, s: Books, a: int, state: AttemptState)
    requires Inv(cfg, s) && a in s.attempts
    ensures Inv(cfg, s.(attempts := s.attempts[a := s.attempts[a].(state := state)]))
  {
    hide Agrees, SourcesOk, ProviderOk, Sound, Linked;
    AttemptKeeps(cfg, s, a, s.attempts[a].(state := state));
  }

  lemma VerifyKeeps(cfg: Config, s: Books, a: int, ch: Charge, slot: Slot)
    requires Inv(cfg, s)
    ensures Inv(cfg, Verify(cfg, s, a, ch, slot).0)
  {
    hide Inv, Exceptioned, RecordException, AcceptCharge, AmountOk;
    if a in s.attempts && SnapshotOk(s.attempts[a]) {
      var kind := if !ch.sameCurrency then WrongCurrency else WrongAmount;
      if ch.status != R.Success {
        StateKeeps(cfg, s, a, if ch.status == R.Pending then StillPending else NotPaid);
      } else if !ch.sameReference || !ch.sameCurrency || !AmountOk(s.attempts[a], ch) {
        ExceptionedKeeps(cfg, s, a, kind, ch.amount);
        RecordExceptionKeeps(cfg, s, a, kind, ch.amount);
      } else if ch.fee < 0 {
        ExceptionedKeeps(cfg, s, a, SettlementMismatch, ch.fee);
      } else {
        AcceptedKeeps(cfg, s, a, ch, slot);
      }
    }
  }

  // ---- steps that touch neither rows nor ledger ----

  lemma TickKeeps(cfg: Config, s: Books, to: int)
    requires Inv(cfg, s) && to >= s.clock
    ensures Inv(cfg, s.(clock := to))
  {
    hide Linked, SourcesOk, Agrees, Sound, Ok, OldestFirst;
    var t := s.(clock := to);
    ProviderFrame(s, t);
    SameTables(cfg, s, t);
  }

  lemma SaveAccountKeeps(cfg: Config, s: Books, seller: int, different: bool)
    requires Inv(cfg, s)
    ensures Inv(cfg, SaveAccount(s, seller, different))
  {
    hide Linked, SourcesOk, Agrees, Sound, Ok, OldestFirst;
    var t := SaveAccount(s, seller, different);
    ProviderFrame(s, t);
    SameTables(cfg, s, t);
  }

  lemma ActUnbookedKeeps(cfg: Config, s: Books, key: ExceptionKey, i: nat, action: R.Action)
    requires Inv(cfg, s)
    ensures Inv(cfg, ActUnbooked(cfg, s, key, i, action))
  {
    hide Linked, SourcesOk, Agrees, Sound, Ok, OldestFirst, ProviderOk, R.Act;
    if key in s.exceptions {
      var u := s.exceptions[key];
      var rs := R.Act(u.refunds, i, action, cfg.autoRefunds, s.clock);
      assert UnbookedOk(u);
      if rs.Some? {
        R.ActKeeps(u.refunds, i, action, cfg.autoRefunds, s.clock);
        ExceptionRowKeeps(cfg, s, key, u.(refunds := rs.value));
      }
    }
  }

  lemma FinishUnbookedKeeps(cfg: Config, s: Books, key: ExceptionKey, i: nat)
    requires Inv(cfg, s)
    ensures Inv(cfg, FinishUnbooked(s, key, i))
  {
    hide Linked, SourcesOk, Agrees, Sound, Ok, OldestFirst, ProviderOk, R.Finish;
    if key in s.exceptions {
      var u := s.exceptions[key];
      var rs := R.Finish(u.refunds, i, s.clock);
      assert UnbookedOk(u);
      if rs.Some? {
        R.FinishKeeps(u.refunds, i, s.clock);
        ExceptionRowKeeps(cfg, s, key, u.(refunds := rs.value, state := Resolved));
      }
    }
  }

  lemma ResolveKeeps(cfg: Config, s: Books, key: ExceptionKey)
    requires Inv(cfg, s) && key in s.exceptions
    ensures Inv(cfg, s.(exceptions := s.exceptions[key := s.exceptions[key].(state := Resolved)]))
  {
    hide Linked, SourcesOk, Agrees, Sound, Ok, OldestFirst, ProviderOk;
    assert UnbookedOk(s.exceptions[key]);
    ExceptionRowKeeps(cfg, s, key, s.exceptions[key].(state := Resolved));
  }

  // ---- every step, every run ----

  lemma StepKeeps(cfg: Config, s: Books, e: Event)
    requires Inv(cfg, s)
    ensures Inv(cfg, Step(cfg, s, e))
  {
    hide Inv, Start, WithFee, Verify, Act, Finalize, Release, Send, Reverse, RetryPayout, SaveAccount, ActUnbooked, FinishUnbooked;
    match e
    case Tick(to) => if to >= s.clock { TickKeeps(cfg, s, to); }
    case StartAttempt(a, quote, price) => StartKeeps(cfg, s, a, quote, price);
    case QuoteFee(a, fee) => WithFeeKeeps(cfg, s, a, fee);
    case VerifyCharge(a, ch, slot) => VerifyKeeps(cfg, s, a, ch, slot);
    case OnBooking(b, what) => ActKeeps(cfg, s, b, what);
    case FinalizeRefund(b, i) => FinalizeKeeps(cfg, s, b, i);
    case ReleasePayout(b) => ReleaseKeeps(cfg, s, b);
    case SendPayout(b, lookup, readable, reply) => SendKeeps(cfg, s, b, lookup, readable, reply);
    case CheckReversal(b) => ReverseKeeps(cfg, s, b);
    case Retry(b, automatic) => RetryKeeps(cfg, s, b, automatic);
    case ProviderMoves(ref, t) =>
      if ref in s.transfers && TransferMoves(s.transfers[ref], t) { ProviderMovesKeeps(cfg, s, ref, t); }
    case SavePayoutAccount(seller, different) => SaveAccountKeeps(cfg, s, seller, different);
    case UnbookedAction(key, i, action) => ActUnbookedKeeps(cfg, s, key, i, action);
    case FinalizeUnbooked(key, i) => FinishUnbookedKeeps(cfg, s, key, i);
    case ResolveException(key) => if key in s.exceptions { ResolveKeeps(cfg, s, key); }
  }

  lemma RunSnoc(cfg: Config, s: Books, es: seq<Event>, e: Event)
    ensures Run(cfg, s, es + [e]) == Step(cfg, Run(cfg, s, es), e)
  {
    assert (es + [e])[..|es|] == es;
  }

  lemma RunNext(cfg: Config, s: Books, es: seq<Event>, i: nat)
    requires i < |es|
    ensures Run(cfg, s, es[..i + 1]) == Step(cfg, Run(cfg, s, es[..i]), es[i])
  {
    assert es[..i + 1] == es[..i] + [es[i]];
    RunSnoc(cfg, s, es[..i], es[i]);
  }

  lemma {:induction false} RunKeeps(cfg: Config, s: Books, es: seq<Event>)
    requires Inv(cfg, s)
    ensures Inv(cfg, Run(cfg, s, es))
  {
    hide Inv, Step;
    if es != [] {
      RunKeeps(cfg, s, es[..|es| - 1]);
      StepKeeps(cfg, Run(cfg, s, es[..|es| - 1]), es[|es| - 1]);
    }
  }

  /** The tables can be reached: some run from an empty database leads to them. */
  ghost predicate Reachable(cfg: Config, s: Books) {
    exists clock, es :: s == Run(cfg, Initial(clock), es)
  }

  lemma ReachableInv(cfg: Config, s: Books)
    requires Valid(cfg) && Reachable(cfg, s)
    ensures Inv(cfg, s)
  {
    hide Inv;
    var clock, es :| s == Run(cfg, Initial(clock), es);
    InitialInv(cfg, clock);
    RunKeeps(cfg, Initial(clock), es);
  }

  /** Every transaction on a payout is a step of a run. */
  lemma PayoutTransactions(cfg: Config, s: Books, b: nat, lookup: bool, readable: bool, reply: Reply, automatic: bool)
    ensures Step(cfg, s, ReleasePayout(b)) == Release(cfg, s, b)
    ensures Step(cfg, s, SendPayout(b, lookup, readable, reply)) == Send(s, b, lookup, readable, reply)
    ensures Step(cfg, s, CheckReversal(b)) == Reverse(s, b)
    ensures Step(cfg, s, Retry(b, automatic)) == RetryPayout(s, b, automatic)
  {
    hide Release, Send, Reverse, RetryPayout;
  }

  /** So is every one on a booking, its refunds and its payment. */
  lemma BookingTransactions(cfg: Config, s: Books, b: nat, i: nat, what: C.Event, a: int, ch: Charge, slot: Slot, fee: int)
    ensures Step(cfg, s, OnBooking(b, what)) == Act(cfg, s, b, what)
    ensures Step(cfg, s, FinalizeRefund(b, i)) == Finalize(s, b, i)
    ensures Step(cfg, s, VerifyCharge(a, ch, slot)) == Verify(cfg, s, a, ch, slot).0
    ensures Step(cfg, s, QuoteFee(a, fee)) == WithFee(s, a, fee)
  {
    hide Act, Finalize, Verify, WithFee;
  }

  /** And every one on a payment that could not be booked, and on an account. */
  lemma OtherTransactions(cfg: Config, s: Books, key: ExceptionKey, i: nat, action: R.Action, seller: int, different: bool)
    ensures Step(cfg, s, UnbookedAction(key, i, action)) == ActUnbooked(cfg, s, key, i, action)
    ensures Step(cfg, s, FinalizeUnbooked(key, i)) == FinishUnbooked(s, key, i)
    ensures Step(cfg, s, SavePayoutAccount(seller, different)) == SaveAccount(s, seller, different)
  {
    hide ActUnbooked, FinishUnbooked, SaveAccount;
  }
}
