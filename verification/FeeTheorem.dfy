/** What completed transfers have cost: the fees in the provider account are
    those the provider reports for the transfers recorded as paid; and what the
    platform earns and spends (services/core/cmd/api/payouts.go, refunds.go,
    payment_processing.go). */
module FeeTheorem {
  import opened Common
  import opened Policy
  import opened Ledger
  import opened Recovery
  import opened Books
  import C = Cases
  import R = Refunds
  import opened BooksInvariant
  import opened MoneySteps
  import opened ReleaseSteps
  import opened Runs
  import opened Onward
  import opened ChargeTheorems

  /** The transfer under this reference was recorded as paid at some time. */
  ghost predicate Completed(s: Books, ref: Ref) {
    ref in s.transfers && Posted(s.journals, PayoutSource(ref.booking, ref.generation))
  }

  ghost function FeeOfTransfer(s: Books, ref: Ref): int {
    if Completed(s, ref) then Max0(s.transfers[ref].fee) else 0
  }

  /** The fees of all completed transfers of a booking's payout up to
      generation n, as the provider reports them. */
  ghost function CompletedFees(s: Books, b: nat, n: int): int {
    if n <= 0 then 0 else CompletedFees(s, b, n - 1) + FeeOfTransfer(s, Ref(b, n))
  }

  ghost predicate FeesAgree(s: Books) {
    forall b | 0 <= b < |s.cases| ::
      var p := s.cases[b].payout; p.generation >= 1 && p.fees == CompletedFees(s, b, p.generation)
  }

  lemma {:induction false} SameFees(s: Books, t: Books, b: nat, n: nat)
    requires forall g | 1 <= g <= n :: FeeOfTransfer(t, Ref(b, g)) == FeeOfTransfer(s, Ref(b, g))
    ensures CompletedFees(t, b, n) == CompletedFees(s, b, n)
  {
    if n > 0 {
      SameFees(s, t, b, n - 1);
    }
  }

  // ---- steps that complete no transfer ----

  ghost predicate NewJournal(js: seq<Journal>, ks: seq<Journal>) {
    ks == js || (|ks| == |js| + 1 && ks[..|js|] == js && !ks[|js|].source.PayoutSource?)
  }

  lemma PostIsNew(js: seq<Journal>, source: Source, lines: seq<Line>)
    requires !source.PayoutSource? && Post(js, source, lines).Some?
    ensures NewJournal(js, Post(js, source, lines).value)
  {}

  lemma NewKeepsPosted(js: seq<Journal>, ks: seq<Journal>, source: Source)
    requires NewJournal(js, ks) && source.PayoutSource?
    ensures Posted(ks, source) <==> Posted(js, source)
  {}

  /** Payout rows keep fees and generation, transfers stay, no payout is posted. */
  ghost predicate Unpaid(s: Books, t: Books) {
    && t.transfers == s.transfers && NewJournal(s.journals, t.journals)
    && |s.cases| <= |t.cases|
    && (forall b | 0 <= b < |s.cases| ::
          t.cases[b].payout.fees == s.cases[b].payout.fees && t.cases[b].payout.generation == s.cases[b].payout.generation)
    && (forall b | |s.cases| <= b < |t.cases| :: t.cases[b].payout.fees == 0 && t.cases[b].payout.generation == 1)
  }

  lemma UnpaidKeeps(cfg: Config, s: Books, t: Books)
    requires Inv(cfg, s) && FeesAgree(s) && Unpaid(s, t)
    ensures FeesAgree(t)
  {
    hide Agrees, RowsOk, Linked, Sound, CompletedFees;
    forall b | 0 <= b < |t.cases|
      ensures t.cases[b].payout.generation >= 1 && t.cases[b].payout.fees == CompletedFees(t, b, t.cases[b].payout.generation)
    {
      var n := t.cases[b].payout.generation;
      forall g | 1 <= g <= n ensures FeeOfTransfer(t, Ref(b, g)) == FeeOfTransfer(s, Ref(b, g)) {
        NewKeepsPosted(s.journals, t.journals, PayoutSource(b, g));
      }
      SameFees(s, t, b, n);
      if b >= |s.cases| {
        NoTransfersYet(s, b, n);
      }
    }
  }

  lemma {:induction false} NoTransfersYet(s: Books, b: nat, n: nat)
    requires ProviderOk(s) && b >= |s.cases|
    ensures CompletedFees(s, b, n) == 0
  {
    if n > 0 {
      NoTransfersYet(s, b, n - 1);
      RefIsBooked(s, Ref(b, n));
    }
  }

  lemma RefIsBooked(s: Books, ref: Ref)
    requires ProviderOk(s)
    ensures ref in s.transfers ==> ref.booking < |s.cases|
  {}

  lemma VerifyUnpaid(cfg: Config, s: Books, a: int, ch: Charge, slot: Slot)
    ensures Unpaid(s, Verify(cfg, s, a, ch, slot).0)
  {
    hide Exceptioned, RecordException, AmountOk, AcceptCharge;
    if a in s.attempts && SnapshotOk(s.attempts[a]) {
      var kind := if !ch.sameCurrency then WrongCurrency else WrongAmount;
      ExceptionedTables(cfg, s, a, kind, ch.amount);
      ExceptionedTables(cfg, s, a, SettlementMismatch, ch.fee);
      AcceptUnpaid(cfg, s, a, ch, slot);
    }
  }

  lemma AcceptUnpaid(cfg: Config, s: Books, a: int, ch: Charge, slot: Slot)
    requires a in s.attempts
    ensures Unpaid(s, AcceptCharge(cfg, s, a, ch, slot).0)
  {
    hide Exceptioned, BookingForQuote, Repriced, FirstCharge, NewJournal;
    Unchanged(s.journals);
    var t := s.(attempts := s.attempts[a := Repriced(s.attempts[a], ch)]);
    ExceptionedTables(cfg, t, a, DuplicateCharge, ch.amount);
    FirstUnpaid(cfg, s, t, a, ch, slot);
  }

  lemma FirstUnpaid(cfg: Config, s: Books, t: Books, a: int, ch: Charge, slot: Slot)
    requires a in t.attempts && t == s.(attempts := t.attempts)
    ensures Unpaid(s, FirstCharge(cfg, s, t, a, ch, slot).0)
  {
    hide Exceptioned, Book, NewJournal;
    Unchanged(s.journals);
    ExceptionedTables(cfg, t, a, PaymentWithoutSlot, t.attempts[a].expected);
    ExceptionedTables(cfg, t, a, OfferConflict, t.attempts[a].expected);
    if slot.Free? && Book(cfg, t, a, ch, slot.seller, slot.start, slot.duration).Some? {
      BookUnpaid(cfg, t, a, ch, slot.seller, slot.start, slot.duration);
    }
  }

  lemma BookUnpaid(cfg: Config, s: Books, a: int, ch: Charge, seller: int, start: int, duration: int)
    requires a in s.attempts && Book(cfg, s, a, ch, seller, start, duration).Some?
    ensures Unpaid(s, Book(cfg, s, a, ch, seller, start, duration).value)
  {}

  lemma ActUnpaid(cfg: Config, s: Books, b: nat, e: C.Event)
    requires Inv(cfg, s)
    ensures Unpaid(s, Act(cfg, s, b, e))
  {
    hide Agrees, SourcesOk, ProviderOk, Sound, C.Step, Linked;
    if b < |s.cases| {
      var c := s.cases[b];
      FeeIsNatural(cfg, s, b);
      CaseRules.StepKeeps(cfg, s.clock, Verified(s, c), FeeOf(s, c), c, e);
    }
  }

  lemma FinalizeUnpaid(s: Books, b: nat, i: nat)
    ensures Unpaid(s, Finalize(s, b, i))
  {
    hide Post, R.OtherLive, RefundLines, Incurred, NewJournal;
    Unchanged(s.journals);
    if b < |s.cases| && i < |s.cases[b].refunds| {
      var lines := RefundLines(s.cases[b].refunds[i], s.cases[b].seller);
      if Post(s.journals, RefundSource(b, i), lines).Some? {
        PostIsNew(s.journals, RefundSource(b, i), lines);
      }
    }
  }

  lemma Unchanged(js: seq<Journal>)
    ensures NewJournal(js, js)
  {}

  lemma ReverseUnpaid(s: Books, b: nat)
    ensures Unpaid(s, Reverse(s, b))
  {}

  lemma ReleaseUnpaid(cfg: Config, s: Books, b: nat)
    ensures Unpaid(s, Release(cfg, s, b))
  {
    hide C.OnHold, C.ReleaseAt, ReleaseAmount, NewJournal;
    Unchanged(s.journals);
    if b < |s.cases| {
      var amount := s.cases[b].payout.entitlement - R.LiveShares(s.cases[b].refunds);
      if amount > 0 {
        ReleaseAmountUnpaid(cfg, s, b, amount);
      }
    }
  }

  lemma ReleaseAmountUnpaid(cfg: Config, s: Books, b: nat, amount: int)
    requires b < |s.cases| && amount > 0
    ensures Unpaid(s, ReleaseAmount(cfg, s, b, amount))
  {
    hide Post, NewJournal, Take, ReleaseAmount;
    Unchanged(s.journals);
    ReleaseAmountOutcomes(cfg, s, b, amount);
    var t := ReleaseAmount(cfg, s, b, amount);
    var take := Take(DebtsOf(s.debts, s.cases[b].seller), amount, cfg.recoveryBps);
    if take > 0 && Post(s.journals, RecoverySource(b), RecoveryLines(s.cases[b].seller, take)).Some? {
      PostIsNew(s.journals, RecoverySource(b), RecoveryLines(s.cases[b].seller, take));
    }
  }

  // ---- steps that may ----

  /** A posted payout's transfer is no longer in flight. */
  lemma PostedIsSettled(cfg: Config, s: Books, ref: Ref)
    requires Inv(cfg, s) && Completed(s, ref)
    ensures ref.booking < |s.cases| && ref.generation <= s.cases[ref.booking].payout.generation
    ensures s.transfers[ref].status != InFlight
    ensures ref.generation == s.cases[ref.booking].payout.generation ==> s.cases[ref.booking].payout.state != C.Processing
  {
    hide Agrees, RowsOk, Linked, Sound;
    UsedSource(s, PayoutSource(ref.booking, ref.generation));
    assert TransferLinked(s, ref);
  }

  lemma ProviderMovesFees(cfg: Config, s: Books, ref: Ref, t: Transfer)
    requires Inv(cfg, s) && FeesAgree(s) && ref in s.transfers && TransferMoves(s.transfers[ref], t)
    ensures FeesAgree(s.(transfers := s.transfers[ref := t]))
  {
    hide Inv, CompletedFees;
    var u := s.(transfers := s.transfers[ref := t]);
    if Completed(s, ref) {
      PostedIsSettled(cfg, s, ref);
    }
    forall b | 0 <= b < |u.cases| ensures CompletedFees(u, b, u.cases[b].payout.generation) == CompletedFees(s, b, s.cases[b].payout.generation) {
      SameFees(s, u, b, s.cases[b].payout.generation);
    }
  }

  /** Accepting the current reference of a processing payout costs nothing yet. */
  lemma AcceptFees(cfg: Config, s: Books, b: nat, t: Transfer)
    requires Inv(cfg, s) && FeesAgree(s) && b < |s.cases| && s.cases[b].payout.state == C.Processing
    requires Ref(b, s.cases[b].payout.generation) !in s.transfers
    ensures FeesAgree(s.(transfers := s.transfers[Ref(b, s.cases[b].payout.generation) := t]))
  {
    hide CompletedFees, Agrees, RowsOk, Linked, Sound;
    var ref := Ref(b, s.cases[b].payout.generation);
    var u := s.(transfers := s.transfers[ref := t]);
    UsedSource(s, PayoutSource(b, ref.generation));
    forall k | 0 <= k < |u.cases| ensures CompletedFees(u, k, u.cases[k].payout.generation) == CompletedFees(s, k, s.cases[k].payout.generation) {
      SameFees(s, u, k, s.cases[k].payout.generation);
    }
  }

  lemma RetryFees(cfg: Config, s: Books, b: nat)
    requires Inv(cfg, s) && FeesAgree(s) && b < |s.cases|
    ensures FeesAgree(SetPayout(s, b, Retried(s.cases[b].payout, s.clock)))
  {
    hide Agrees, RowsOk, Linked, Sound;
    var u := SetPayout(s, b, Retried(s.cases[b].payout, s.clock));
    var n := s.cases[b].payout.generation;
    forall k | 0 <= k < |u.cases| ensures CompletedFees(u, k, s.cases[k].payout.generation) == CompletedFees(s, k, s.cases[k].payout.generation) {
      SameFees(s, u, k, s.cases[k].payout.generation);
    }
    UsedSource(s, PayoutSource(b, n + 1));
    assert !SourceOk(s, PayoutSource(b, n + 1));
  }

  lemma FailFees(s: Books, b: nat)
    requires FeesAgree(s) && b < |s.cases|
    ensures FeesAgree(Fail(s, b))
  {
    hide CompletedFees;
    var u := Fail(s, b);
    forall k | 0 <= k < |u.cases| ensures CompletedFees(u, k, u.cases[k].payout.generation) == CompletedFees(s, k, s.cases[k].payout.generation) {
      SameFees(s, u, k, s.cases[k].payout.generation);
    }
  }

  /** Recording a delivered transfer as paid adds exactly its fee. */
  lemma MarkPaidFees(cfg: Config, s: Books, b: nat)
    requires Inv(cfg, s) && FeesAgree(s) && b < |s.cases| && s.cases[b].payout.state == C.Processing
    requires Ref(b, s.cases[b].payout.generation) in s.transfers
    ensures var fee := s.transfers[Ref(b, s.cases[b].payout.generation)].fee;
      MarkPaid(s, b, fee).Some? ==> FeesAgree(MarkPaid(s, b, fee).value)
  {
    hide Inv, Postable, CompletedFees;
    var ref := Ref(b, s.cases[b].payout.generation);
    var fee := s.transfers[ref].fee;
    if MarkPaid(s, b, fee).Some? {
      var u := MarkPaid(s, b, fee).value;
      PaidJournal(cfg, s, b, fee);
      forall k | 0 <= k < |u.cases| ensures u.cases[k].payout.fees == CompletedFees(u, k, u.cases[k].payout.generation) {
        var n := s.cases[k].payout.generation;
        if k != b {
          SameFees(s, u, k, n);
        } else {
          SameFees(s, u, b, n - 1);
          LastFee(s, b, n);
          LastFee(u, b, n);
        }
      }
    }
  }

  lemma LastFee(s: Books, b: nat, n: nat)
    requires n >= 1
    ensures CompletedFees(s, b, n) == CompletedFees(s, b, n - 1) + FeeOfTransfer(s, Ref(b, n))
  {}

  lemma PaidJournal(cfg: Config, s: Books, b: nat, fee: int)
    requires Inv(cfg, s) && b < |s.cases| && s.cases[b].payout.state == C.Processing
    requires Ref(b, s.cases[b].payout.generation) in s.transfers && MarkPaid(s, b, fee).Some?
    ensures var u := MarkPaid(s, b, fee).value;
      var p := s.cases[b].payout;
      && u.transfers == s.transfers && u.cases == s.cases[b := s.cases[b].(payout := PaidRow(p, fee, s.clock))]
      && !Completed(s, Ref(b, p.generation)) && Completed(u, Ref(b, p.generation))
      && forall ref | ref != Ref(b, p.generation) :: Completed(u, ref) <==> Completed(s, ref)
  {
    hide Agrees, RowsOk, Linked, Sound, Postable;
    var p := s.cases[b].payout;
    var u := MarkPaid(s, b, fee).value;
    assert TransferLinked(s, Ref(b, p.generation));
    UsedSource(s, PayoutSource(b, p.generation));
    var j := Journal(PayoutSource(b, p.generation), PayoutLines(p, s.cases[b].seller, fee));
    assert u.journals == s.journals + [j];
    assert u.journals[|s.journals|] == j;
    forall ref | ref != Ref(b, p.generation) ensures Completed(u, ref) <==> Completed(s, ref) {
      OtherPosted(s.journals, j, PayoutSource(ref.booking, ref.generation));
    }
  }

  lemma OtherPosted(js: seq<Journal>, j: Journal, source: Source)
    requires j.source != source
    ensures Posted(js + [j], source) <==> Posted(js, source)
  {
    if Posted(js, source) {
      var k :| 0 <= k < |js| && js[k].source == source;
      assert (js + [j])[k] == js[k];
    }
    if Posted(js + [j], source) {
      var k :| 0 <= k < |js + [j]| && (js + [j])[k].source == source;
      assert js[k] == (js + [j])[k];
    }
  }

  lemma ApplyStatusFees(cfg: Config, s: Books, b: nat)
    requires Inv(cfg, s) && FeesAgree(s) && b < |s.cases| && s.cases[b].payout.state == C.Processing
    requires Ref(b, s.cases[b].payout.generation) in s.transfers
    ensures FeesAgree(ApplyStatus(s, b, s.transfers[Ref(b, s.cases[b].payout.generation)]))
  {
    hide Inv, FeesAgree, MarkPaid, Fail;
    MarkPaidFees(cfg, s, b);
    FailFees(s, b);
  }

  lemma SendFees(cfg: Config, s: Books, b: nat, lookup: bool, readable: bool, reply: Reply)
    requires Inv(cfg, s) && FeesAgree(s)
    ensures FeesAgree(Send(s, b, lookup, readable, reply))
  {
    hide Inv, FeesAgree, ApplyStatus, Fail;
    if b < |s.cases| && s.cases[b].payout.state == C.Processing && lookup {
      var ref := Ref(b, s.cases[b].payout.generation);
      if ref in s.transfers {
        ApplyStatusFees(cfg, s, b);
      } else if !readable || reply.Rejected? {
        FailFees(s, b);
      } else if reply.AcceptedSilently? || reply.AcceptedSeen? {
        AcceptKeeps(cfg, s, b, reply.t);
        AcceptFees(cfg, s, b, reply.t);
        if reply.AcceptedSeen? {
          ApplyStatusFees(cfg, s.(transfers := s.transfers[ref := reply.t]), b);
        }
      }
    }
  }

  lemma OthersUnpaid(cfg: Config, s: Books, e: Event)
    requires !e.VerifyCharge? && !e.OnBooking? && !e.FinalizeRefund? && !e.ReleasePayout? && !e.SendPayout?
    requires !e.CheckReversal? && !e.Retry? && !e.ProviderMoves?
    ensures Unpaid(s, Step(cfg, s, e))
  {
    hide BasisPoints, R.Act, R.Finish, Verify, Act, Finalize, Release, Send, Reverse, RetryPayout;
  }

  lemma StepFees(cfg: Config, s: Books, e: Event)
    requires Inv(cfg, s) && FeesAgree(s)
    ensures FeesAgree(Step(cfg, s, e))
  {
    hide Inv, FeesAgree, Unpaid, Start, WithFee, Verify, Act, Finalize, Release, Send, Reverse, SaveAccount, ActUnbooked, FinishUnbooked, SetPayout;
    match e
    case VerifyCharge(a, ch, slot) => VerifyUnpaid(cfg, s, a, ch, slot); UnpaidKeeps(cfg, s, Step(cfg, s, e));
    case OnBooking(b, what) => ActUnpaid(cfg, s, b, what); UnpaidKeeps(cfg, s, Step(cfg, s, e));
    case FinalizeRefund(b, i) => FinalizeUnpaid(s, b, i); UnpaidKeeps(cfg, s, Step(cfg, s, e));
    case ReleasePayout(b) => ReleaseUnpaid(cfg, s, b); UnpaidKeeps(cfg, s, Step(cfg, s, e));
    case CheckReversal(b) => ReverseUnpaid(s, b); UnpaidKeeps(cfg, s, Step(cfg, s, e));
    case SendPayout(b, lookup, readable, reply) => SendFees(cfg, s, b, lookup, readable, reply);
    case Retry(b, automatic) => if b < |s.cases| { RetryFees(cfg, s, b); }
    case ProviderMoves(ref, t) => if ref in s.transfers && TransferMoves(s.transfers[ref], t) { ProviderMovesFees(cfg, s, ref, t); }
    case _ => OthersUnpaid(cfg, s, e); UnpaidKeeps(cfg, s, Step(cfg, s, e));
  }

  lemma {:induction false} RunFees(cfg: Config, s: Books, es: seq<Event>)
    requires Inv(cfg, s) && FeesAgree(s)
    ensures FeesAgree(Run(cfg, s, es))
  {
    hide Inv, Step, FeesAgree;
    if es != [] {
      RunFees(cfg, s, es[..|es| - 1]);
      RunKeeps(cfg, s, es[..|es| - 1]);
      StepFees(cfg, Run(cfg, s, es[..|es| - 1]), es[|es| - 1]);
    }
  }

  /** The money held at the provider for one booking. */
  ghost function Held(s: Books, b: nat): int
    requires b < |s.cases|
  {
    var c := s.cases[b];
    c.received - R.ProcessedAmount(c.refunds)
    - (if c.payout.state == C.Paid then c.payout.amount - c.payout.recovery else 0)
    - CompletedFees(s, b, c.payout.generation)
  }

  ghost function HeldInAll(s: Books, n: nat): int
    requires n <= |s.cases|
  {
    if n == 0 then 0 else HeldInAll(s, n - 1) + Held(s, n - 1)
  }

  lemma {:induction false} HeldInAllIs(s: Books, n: nat)
    requires FeesAgree(s) && n <= |s.cases|
    ensures HeldInAll(s, n) == Sum(HeldOf(), s.cases[..n])
  {
    if n > 0 {
      HeldInAllIs(s, n - 1);
      assert s.cases[..n][..n - 1] == s.cases[..n - 1];
    }
  }

  /** In every reachable state the provider account holds, over all bookings,
      what their charges brought in after the processor's fee, less processed
      refunds, less the net of payouts now paid, less what the provider charged
      for every transfer ever completed. */
  lemma ProviderAccountHolds(cfg: Config, s: Books)
    requires Valid(cfg) && Reachable(cfg, s)
    ensures Balance(s.journals, Receivable) == HeldInAll(s, |s.cases|)
  {
    hide Inv;
    var clock, es :| s == Run(cfg, Initial(clock), es);
    InitialInv(cfg, clock);
    RunFees(cfg, Initial(clock), es);
    HeldInAllIs(s, |s.cases|);
    assert s.cases[..|s.cases|] == s.cases;
    ProviderAgrees(cfg, s);
  }

  lemma ProviderAgrees(cfg: Config, s: Books)
    requires Valid(cfg) && Reachable(cfg, s)
    ensures Balance(s.journals, Receivable) == Sum(HeldOf(), s.cases)
  {
    ReachableInv(cfg, s);
  }

  // ---- what the platform earns and spends ----

  /** The platform's part of a booking's processed refunds. */
  function GivenBack(rs: seq<R.Refund>): int {
    if rs == [] then 0
    else GivenBack(rs[..|rs| - 1]) + (if rs[|rs| - 1].state == R.Processed then rs[|rs| - 1].platform else 0)
  }

  /** The fees booked with the first n bookings, the buyers' among them, less
      what their processed refunds gave back. */
  function EarnedInAll(cases: seq<C.Case>, n: nat): int
    requires n <= |cases|
  {
    if n == 0 then 0
    else EarnedInAll(cases, n - 1) + (cases[n - 1].deduction + cases[n - 1].buyerFee - GivenBack(cases[n - 1].refunds))
  }

  /** What processing their charges cost, and every transfer ever completed. */
  ghost function SpentInAll(s: Books, n: nat): int
    requires n <= |s.cases|
  {
    if n == 0 then 0
    else
      var c := s.cases[n - 1];
      SpentInAll(s, n - 1) + (c.gross + c.buyerFee - c.received) + CompletedFees(s, n - 1, c.payout.generation)
  }

  lemma {:induction false} GivenBackIs(rs: seq<R.Refund>)
    ensures GivenBack(rs) == R.ProcessedPlatform(rs)
  {
    if rs != [] {
      GivenBackIs(rs[..|rs| - 1]);
    }
  }

  lemma {:induction false} InAllIs(s: Books, n: nat)
    requires FeesAgree(s) && n <= |s.cases|
    ensures EarnedInAll(s.cases, n) == Sum(EarnedOf(), s.cases[..n])
    ensures SpentInAll(s, n) == Sum(SpentOf(), s.cases[..n])
  {
    if n > 0 {
      InAllIs(s, n - 1);
      GivenBackIs(s.cases[n - 1].refunds);
      assert s.cases[..n][..n - 1] == s.cases[..n - 1];
    }
  }

  /** In every reachable state the revenue account holds the platform's and the
      buyers' fees of all bookings less the platform's part of the processed
      refunds, and the expense account what the charges and the completed
      transfers have cost. */
  lemma RevenueAndExpense(cfg: Config, s: Books)
    requires Valid(cfg) && Reachable(cfg, s)
    ensures -Balance(s.journals, FeeRevenue) == EarnedInAll(s.cases, |s.cases|)
    ensures Balance(s.journals, FeeExpense) == SpentInAll(s, |s.cases|)
  {
    hide Inv;
    var clock, es :| s == Run(cfg, Initial(clock), es);
    InitialInv(cfg, clock);
    RunFees(cfg, Initial(clock), es);
    InAllIs(s, |s.cases|);
    assert s.cases[..|s.cases|] == s.cases;
    RevenueAgrees(cfg, s);
  }

  lemma RevenueAgrees(cfg: Config, s: Books)
    requires Valid(cfg) && Reachable(cfg, s)
    ensures -Balance(s.journals, FeeRevenue) == Sum(EarnedOf(), s.cases)
    ensures Balance(s.journals, FeeExpense) == Sum(SpentOf(), s.cases)
  {
    ReachableInv(cfg, s);
  }
}
