/** How a booking's rows, its payout and the provider's transfers may change
    over any run: what never changes back. */
module Onward {
  import opened Common
  import opened Policy
  import opened Ledger
  import opened Recovery
  import opened Books
  import C = Cases
  import R = Refunds
  import opened CaseRules
  import opened BooksInvariant
  import opened MoneySteps
  import opened ReleaseSteps
  import opened Runs

  /** From one state of a booking to any later one. Once released, a payout's
      amount and recovery are settled, and an empty payout stays empty. */
  ghost predicate MovesOn(c: C.Case, d: C.Case) {
    && Follows(c, d) && PayoutLater(c.payout, d.payout)
    && (Released(c) ==> Released(d) && d.payout.amount == c.payout.amount && d.payout.recovery == c.payout.recovery)
    && (c.payout.state == C.Nothing ==> d.payout.state == C.Nothing)
    && (Owing(c) ==> Owing(d))
    && c.payout.fees <= d.payout.fees
  }

  ghost predicate Later(s: Books, t: Books) {
    && |s.cases| <= |t.cases|
    && (forall b | 0 <= b < |s.cases| :: MovesOn(s.cases[b], t.cases[b]))
  }

  lemma SameCasesLater(s: Books, t: Books)
    requires s.cases <= t.cases
    ensures Later(s, t)
  {}

  lemma OneCaseLater(s: Books, t: Books, b: nat, d: C.Case)
    requires b < |s.cases| && t.cases == s.cases[b := d] && MovesOn(s.cases[b], d)
    ensures Later(s, t)
  {}

  lemma LaterTrans(s: Books, t: Books, u: Books)
    requires Later(s, t) && Later(t, u)
    ensures Later(s, u)
  {}

  // ---- what a money step may write ----

  /** One booking's payout, refunds and payment state, journals, debts and
      transfers: everything else stays as it is. */
  ghost predicate OneRow(s: Books, t: Books, b: nat) {
    && t == s.(cases := t.cases, journals := t.journals, debts := t.debts, transfers := t.transfers)
    && |t.cases| == |s.cases|
    && (forall k | 0 <= k < |s.cases| && k != b :: t.cases[k] == s.cases[k])
    && (b < |s.cases| ==>
          t.cases[b] == s.cases[b].(payout := t.cases[b].payout, refunds := t.cases[b].refunds, payment := t.cases[b].payment))
  }

  lemma FinalizeRow(s: Books, b: nat, i: nat)
    ensures OneRow(s, Finalize(s, b, i), b) && Finalize(s, b, i).transfers == s.transfers
  {}

  lemma MarkPaidRow(s: Books, b: nat, fee: int)
    requires b < |s.cases| && MarkPaid(s, b, fee).Some?
    ensures var t := MarkPaid(s, b, fee).value; OneRow(s, t, b) && t.transfers == s.transfers && t.debts == s.debts
  {}

  lemma ReleaseRow(cfg: Config, s: Books, b: nat)
    ensures OneRow(s, Release(cfg, s, b), b) && Release(cfg, s, b).transfers == s.transfers
  {
    hide C.OnHold, C.ReleaseAt, ReleaseAmount;
    if b < |s.cases| {
      var amount := s.cases[b].payout.entitlement - R.LiveShares(s.cases[b].refunds);
      if amount > 0 {
        ReleaseAmountRow(cfg, s, b, amount);
      }
    }
  }

  lemma ReleaseAmountRow(cfg: Config, s: Books, b: nat, amount: int)
    requires b < |s.cases| && amount > 0
    ensures OneRow(s, ReleaseAmount(cfg, s, b, amount), b) && ReleaseAmount(cfg, s, b, amount).transfers == s.transfers
  {
    hide Post, MarkPaid, Take;
    var ds := DebtsOf(s.debts, s.cases[b].seller);
    var recovery := Max0(Take(ds, amount, cfg.recoveryBps));
    var posted := if recovery > 0 then Post(s.journals, RecoverySource(b), RecoveryLines(s.cases[b].seller, recovery)) else Some(s.journals);
    if posted.Some? && amount == recovery {
      var t := SetPayout(s, b, s.cases[b].payout.(state := C.Processing, amount := amount, recovery := recovery, updatedAt := s.clock)).(
        journals := posted.value,
        debts := if recovery > 0 then s.debts[s.cases[b].seller := Repay(ds, recovery)] else s.debts);
      if MarkPaid(t, b, 0).Some? {
        MarkPaidRow(t, b, 0);
      }
    }
  }

  lemma ReverseRow(s: Books, b: nat)
    ensures OneRow(s, Reverse(s, b), b) && Reverse(s, b).transfers == s.transfers && Reverse(s, b).debts == s.debts
  {}

  lemma RetryRow(s: Books, b: nat, automatic: bool)
    ensures OneRow(s, RetryPayout(s, b, automatic), b) && RetryPayout(s, b, automatic).transfers == s.transfers
    ensures RetryPayout(s, b, automatic).debts == s.debts
  {}

  lemma ApplyStatusRow(s: Books, b: nat, t: Transfer)
    requires b < |s.cases|
    ensures OneRow(s, ApplyStatus(s, b, t), b) && ApplyStatus(s, b, t).transfers == s.transfers
    ensures ApplyStatus(s, b, t).debts == s.debts
  {
    hide MarkPaid;
    if MarkPaid(s, b, t.fee).Some? {
      MarkPaidRow(s, b, t.fee);
    }
  }

  lemma SendRow(s: Books, b: nat, lookup: bool, readable: bool, reply: Reply)
    ensures OneRow(s, Send(s, b, lookup, readable, reply), b)
    ensures TransfersKept(s, Send(s, b, lookup, readable, reply)) && Send(s, b, lookup, readable, reply).debts == s.debts
  {
    hide ApplyStatus;
    if b < |s.cases| {
      var ref := Ref(b, s.cases[b].payout.generation);
      if ref in s.transfers {
        ApplyStatusRow(s, b, s.transfers[ref]);
      } else if reply.AcceptedSeen? {
        ApplyStatusRow(s.(transfers := s.transfers[ref := reply.t]), b, reply.t);
      }
    }
  }

  lemma ActLater(cfg: Config, s: Books, b: nat, e: C.Event)
    requires Inv(cfg, s)
    ensures Later(s, Act(cfg, s, b, e))
  {
    hide Linked, SourcesOk, Agrees, ProviderOk, Sound, C.Step;
    SameCasesLater(s, s);
    if b < |s.cases| {
      var c := s.cases[b];
      var r := C.Step(cfg, s.clock, Verified(s, c), FeeOf(s, c), c, e);
      FeeIsNatural(cfg, s, b);
      CaseRules.StepKeeps(cfg, s.clock, Verified(s, c), FeeOf(s, c), c, e);
      if r.Some? {
        OneCaseLater(s, Act(cfg, s, b, e), b, r.value);
      }
    }
  }

  lemma FeeIsNatural(cfg: Config, s: Books, b: nat)
    requires Inv(cfg, s) && b < |s.cases|
    ensures FeeOf(s, s.cases[b]) >= 0
  {}

  lemma FinalizeLater(cfg: Config, s: Books, b: nat, i: nat)
    requires Inv(cfg, s)
    ensures Later(s, Finalize(s, b, i))
  {
    hide Linked, SourcesOk, Agrees, ProviderOk, Sound, Post, RefundLines, Incurred;
    SameCasesLater(s, s);
    if b < |s.cases| && R.Finish(s.cases[b].refunds, i, s.clock).Some? {
      var d := Finished(s.cases[b], i, s.clock);
      FinishedOk(cfg, s.clock, s.cases[b], i);
      assert Finalize(s, b, i).cases == s.cases || Finalize(s, b, i).cases == s.cases[b := d];
      if Finalize(s, b, i).cases == s.cases[b := d] {
        OneCaseLater(s, Finalize(s, b, i), b, d);
      } else {
        SameCasesLater(s, Finalize(s, b, i));
      }
    }
  }

  lemma PayoutRowLater(s: Books, t: Books, b: nat, p: C.Payout)
    requires b < |s.cases| && t.cases == s.cases[b := s.cases[b].(payout := p)]
    requires MovesOn(s.cases[b], s.cases[b].(payout := p))
    ensures Later(s, t)
  {}

  lemma ReleaseLater(cfg: Config, s: Books, b: nat)
    requires Inv(cfg, s)
    ensures Later(s, Release(cfg, s, b))
  {
    hide Linked, SourcesOk, Agrees, ProviderOk, Sound, ReleaseAmount;
    SameCasesLater(s, s);
    if b < |s.cases| && ReleaseDue(cfg, s.clock, s.cases[b]) {
      var c := s.cases[b];
      var amount := c.payout.entitlement - R.LiveShares(c.refunds);
      if amount <= 0 {
        PayoutRowLater(s, Release(cfg, s, b), b, c.payout.(state := C.Nothing, updatedAt := s.clock));
      } else {
        ReleaseAmountLater(cfg, s, b, amount);
      }
    }
  }

  lemma ReleaseAmountLater(cfg: Config, s: Books, b: nat, amount: int)
    requires b < |s.cases| && PayoutOk(s.cases[b].payout) && s.cases[b].payout.state == C.Scheduled && amount > 0
    ensures Later(s, ReleaseAmount(cfg, s, b, amount))
  {
    var t := ReleaseAmount(cfg, s, b, amount);
    var take := Take(DebtsOf(s.debts, s.cases[b].seller), amount, cfg.recoveryBps);
    ReleaseAmountOutcomes(cfg, s, b, amount);
    SameCasesLater(s, s);
    if t != s {
      PayoutRowLater(s, t, b, ReleasedRow(s.cases[b].payout, amount, Max0(take), s.clock));
    }
  }

  lemma ApplyStatusLater(s: Books, b: nat, t: Transfer)
    requires b < |s.cases| && s.cases[b].payout.state == C.Processing
    ensures Later(s, ApplyStatus(s, b, t))
  {
    hide Post, PayoutLines;
    SameCasesLater(s, s);
    var c := s.cases[b];
    var u := ApplyStatus(s, b, t);
    match t.status
    case InFlight =>
    case Delivered =>
      if MarkPaid(s, b, t.fee).Some? {
        PayoutRowLater(s, u, b, PaidRow(c.payout, t.fee, s.clock));
      }
    case _ => PayoutRowLater(s, u, b, c.payout.(state := C.PayoutFailed, updatedAt := s.clock));
  }

  lemma SendLater(cfg: Config, s: Books, b: nat, lookup: bool, readable: bool, reply: Reply)
    requires Inv(cfg, s)
    ensures Later(s, Send(s, b, lookup, readable, reply))
  {
    hide Inv, ApplyStatus;
    SameCasesLater(s, s);
    if b < |s.cases| && s.cases[b].payout.state == C.Processing && lookup {
      var c := s.cases[b];
      var ref := Ref(b, c.payout.generation);
      if ref in s.transfers {
        ApplyStatusLater(s, b, s.transfers[ref]);
      } else if !readable || reply.Rejected? {
        PayoutRowLater(s, Fail(s, b), b, c.payout.(state := C.PayoutFailed, updatedAt := s.clock));
      } else if reply.AcceptedSeen? {
        ApplyStatusLater(s.(transfers := s.transfers[ref := reply.t]), b, reply.t);
      } else if reply.AcceptedSilently? {
        SameCasesLater(s, s.(transfers := s.transfers[ref := reply.t]));
      }
    }
  }

  lemma ReverseLater(s: Books, b: nat)
    ensures Later(s, Reverse(s, b))
  {}

  lemma RetryLater(s: Books, b: nat, automatic: bool)
    ensures Later(s, RetryPayout(s, b, automatic))
  {}

  /** What verifying a charge may do to the tables: write attempts and
      exceptions, and at most add one booking with one journal. */
  ghost predicate Adds(s: Books, t: Books) {
    && s.cases <= t.cases && |t.cases| <= |s.cases| + 1
    && s.journals <= t.journals
    && (t.cases == s.cases ==> t.journals == s.journals)
    && t.clock == s.clock && t.debts == s.debts && t.transfers == s.transfers && t.accounts == s.accounts
  }

  lemma ExceptionedAdds(cfg: Config, s: Books, t: Books, a: int, kind: Kind, amount: int)
    requires Adds(s, t) && t.cases == s.cases && a in t.attempts
    ensures Adds(s, Exceptioned(cfg, t, a, kind, amount)) && Adds(s, RecordException(t, a, kind, amount))
  {}

  lemma VerifyAdds(cfg: Config, s: Books, a: int, ch: Charge, slot: Slot)
    ensures Adds(s, Verify(cfg, s, a, ch, slot).0)
  {
    hide Exceptioned, RecordException, AmountOk, AcceptCharge;
    if a in s.attempts && SnapshotOk(s.attempts[a]) {
      var kind := if !ch.sameCurrency then WrongCurrency else WrongAmount;
      ExceptionedAdds(cfg, s, s, a, kind, ch.amount);
      ExceptionedAdds(cfg, s, s, a, SettlementMismatch, ch.fee);
      AcceptAdds(cfg, s, a, ch, slot);
    }
  }

  lemma AcceptAdds(cfg: Config, s: Books, a: int, ch: Charge, slot: Slot)
    requires a in s.attempts
    ensures Adds(s, AcceptCharge(cfg, s, a, ch, slot).0)
  {
    hide Exceptioned, BookingForQuote, Repriced, Book;
    var t := s.(attempts := s.attempts[a := Repriced(s.attempts[a], ch)]);
    ExceptionedAdds(cfg, s, t, a, DuplicateCharge, ch.amount);
    ExceptionedAdds(cfg, s, t, a, PaymentWithoutSlot, t.attempts[a].expected);
    ExceptionedAdds(cfg, s, t, a, OfferConflict, t.attempts[a].expected);
    if slot.Free? && Book(cfg, t, a, ch, slot.seller, slot.start, slot.duration).Some? {
      BookAdds(cfg, t, a, ch, slot.seller, slot.start, slot.duration);
    }
  }

  lemma BookAdds(cfg: Config, s: Books, a: int, ch: Charge, seller: int, start: int, duration: int)
    requires a in s.attempts && Book(cfg, s, a, ch, seller, start, duration).Some?
    ensures var t := Book(cfg, s, a, ch, seller, start, duration).value;
      && |t.cases| == |s.cases| + 1 && s.cases <= t.cases && s.journals <= t.journals
      && t == s.(attempts := t.attempts, cases := t.cases, journals := t.journals)
  {}

  /** From one status of a transfer to any later one. */
  ghost predicate TransferLater(t: Transfer, u: Transfer) {
    || t == u
    || (t.status == InFlight && u.status != InFlight)
    || (t.status == Delivered && u.status == Returned && t.fee == u.fee)
  }

  /** A transfer the provider accepted is never forgotten or replaced: it
      stays as it is or moves as the provider moves it. */
  ghost predicate TransfersKept(s: Books, t: Books) {
    forall ref | ref in s.transfers :: ref in t.transfers && TransferLater(s.transfers[ref], t.transfers[ref])
  }

  lemma StepLater(cfg: Config, s: Books, e: Event)
    requires Inv(cfg, s)
    ensures Later(s, Step(cfg, s, e))
  {
    hide Inv, Later, Start, WithFee, Verify, Act, Finalize, Release, Send, Reverse, RetryPayout;
    SameCasesLater(s, s);
    match e
    case VerifyCharge(a, ch, slot) => VerifyAdds(cfg, s, a, ch, slot); SameCasesLater(s, Step(cfg, s, e));
    case OnBooking(b, what) => ActLater(cfg, s, b, what);
    case FinalizeRefund(b, i) => FinalizeLater(cfg, s, b, i);
    case ReleasePayout(b) => ReleaseLater(cfg, s, b);
    case SendPayout(b, lookup, readable, reply) => SendLater(cfg, s, b, lookup, readable, reply);
    case CheckReversal(b) => ReverseLater(s, b);
    case Retry(b, automatic) => RetryLater(s, b, automatic);
    case _ => OtherTables(cfg, s, e); SameCasesLater(s, Step(cfg, s, e));
  }

  lemma OtherTables(cfg: Config, s: Books, e: Event)
    requires !e.VerifyCharge? && !e.OnBooking? && !e.FinalizeRefund? && !e.ReleasePayout? && !e.SendPayout?
    requires !e.CheckReversal? && !e.Retry?
    ensures Step(cfg, s, e).cases == s.cases && Step(cfg, s, e).journals == s.journals
    ensures !e.ProviderMoves? ==> Step(cfg, s, e).transfers == s.transfers
    ensures Step(cfg, s, e).debts == s.debts
  {
    hide BasisPoints, R.Act, R.Finish, TransferMoves, Verify, Act, Finalize, Release, Send, Reverse, RetryPayout;
  }

  lemma StepTransfers(cfg: Config, s: Books, e: Event)
    ensures TransfersKept(s, Step(cfg, s, e))
  {
    hide Start, WithFee, Verify, Finalize, Release, Send, Reverse, RetryPayout, ActUnbooked, FinishUnbooked, SaveAccount, C.Step, OneRow;
    match e
    case VerifyCharge(a, ch, slot) => VerifyAdds(cfg, s, a, ch, slot);
    case OnBooking(b, what) =>
    case FinalizeRefund(b, i) => FinalizeRow(s, b, i);
    case ReleasePayout(b) => ReleaseRow(cfg, s, b);
    case SendPayout(b, lookup, readable, reply) => SendRow(s, b, lookup, readable, reply);
    case CheckReversal(b) => ReverseRow(s, b);
    case Retry(b, automatic) => RetryRow(s, b, automatic);
    case ProviderMoves(ref, t) =>
    case _ => OtherTables(cfg, s, e);
  }

  lemma {:induction false} RunLater(cfg: Config, s: Books, es: seq<Event>)
    requires Inv(cfg, s)
    ensures Later(s, Run(cfg, s, es)) && TransfersKept(s, Run(cfg, s, es))
  {
    hide Inv, Step, Later;
    if es == [] {
      SameCasesLater(s, s);
    } else {
      var m := Run(cfg, s, es[..|es| - 1]);
      RunLater(cfg, s, es[..|es| - 1]);
      RunKeeps(cfg, s, es[..|es| - 1]);
      StepLater(cfg, m, es[|es| - 1]);
      StepTransfers(cfg, m, es[|es| - 1]);
      LaterTrans(s, m, Run(cfg, s, es));
    }
  }
}
