/** A seller who is at fault is never paid: what a seller's cancellation and an
    accepted report naming the seller absent leave behind, over every run. */
module FaultTheorems {
  import opened Common
  import opened Policy
  import opened Ledger
  import opened Recovery
  import opened Books
  import C = Cases
  import R = Refunds
  import opened CaseRules
  import opened BooksInvariant
  import opened Runs
  import opened Onward
  import Charges = ChargeTheorems

  /** The refund a seller's fault earns: price and buyer's fee in full, the
      whole entitlement out of the held payout. */
  predicate FullFaultRefund(s: Books, c: C.Case, r: R.Refund) {
    && r.reason in {R.SellerCancelled, R.SellerNoShow} && r.liability == R.FromPayout && r.seller == c.payout.entitlement
    && c.attempt in s.attempts && r.amount == c.gross + s.attempts[c.attempt].buyerFee
  }

  /** What a seller's cancellation demands. */
  predicate MayCancel(now: int, verified: bool, c: C.Case) {
    c.state == C.Confirmed && c.start > now && c.payment == C.PaidInFull && verified
    && forall i | 0 <= i < |c.refunds| :: c.refunds[i].state == R.Failed
  }

  lemma CancelStepExactly(cfg: Config, now: int, verified: bool, fee: int, c: C.Case, expected: int)
    requires Valid(cfg) && Ok(cfg, now, c) && fee >= 0
    ensures var r := C.CancelStep(cfg, now, verified, fee, c, C.Seller, expected);
      && (r.Some? <==> MayCancel(now, verified, c) && expected == c.gross)
      && (r.Some? ==> exists row ::
            && r == Some(c.(state := C.Cancelled, refunds := c.refunds + [row]))
            && FaultRefund(row) && row.amount == c.gross + fee && row.seller == c.payout.entitlement)
  {
    FullPercent(c.gross);
    if c.start > now && Released(c) {
      WindowsClosed(cfg, now, c);
    }
    var d := c.(state := C.Cancelled);
    NewRefundOk(cfg, now, d, fee, c.gross, R.SellerCancelled);
    var row := C.NewRefund(cfg, d, fee, c.gross, R.SellerCancelled, now);
    assert FaultRefund(row) || !MayCancel(now, verified, c);
  }

  /** The attempt behind a booking is still marked as a success. */
  predicate StillPaid(s: Books, c: C.Case) { c.attempt in s.attempts && s.attempts[c.attempt].state == Succeeded }

  /** A seller's cancellation goes through exactly when the booking stands, has
      not begun, is paid and verified with no refund on its way, and the
      previewed refund is the full price; then it records the full refund. */
  lemma SellerCancellation(cfg: Config, s: Books, b: nat, expected: int)
    requires Inv(cfg, s) && b < |s.cases|
    ensures var c := s.cases[b];
      var t := Act(cfg, s, b, C.Cancel(C.Seller, expected));
      if MayCancel(s.clock, StillPaid(s, c), c) && expected == c.gross
      then
        && |t.cases| == |s.cases| && t.cases[b].state == C.Cancelled
        && |t.cases[b].refunds| == |c.refunds| + 1 && t.cases[b].refunds[..|c.refunds|] == c.refunds
        && FullFaultRefund(s, t.cases[b], t.cases[b].refunds[|c.refunds|])
      else t == s
  {
    hide SourcesOk, Agrees, ProviderOk, Sound, C.CancelStep, MayCancel;
    var c := s.cases[b];
    assert BookedBy(s, b);
    FeeIsNatural(cfg, s, b);
    CancelStepExactly(cfg, s.clock, Verified(s, c), FeeOf(s, c), c, expected);
  }

  lemma FullPercent(gross: int)
    ensures gross * 100 / 100 == gross
  {}

  /** What a buyer gets back: the price a day ahead, nothing later. */
  function BuyerGetsBack(now: int, c: C.Case): int { if c.start - now >= 86_400 then c.gross else 0 }

  /** A buyer's cancellation is accepted exactly when the booking stands and lies
      ahead, the refund agreed to is the price a day ahead and nothing later,
      and, where there is one, the payment is in full and verified and no other
      refund is on its way. */
  predicate BuyerMayCancel(now: int, verified: bool, c: C.Case, expected: int) {
    && c.state == C.Confirmed && c.start > now && expected == BuyerGetsBack(now, c)
    && (expected > 0 ==> c.payment == C.PaidInFull && verified && forall i | 0 <= i < |c.refunds| :: c.refunds[i].state == R.Failed)
  }

  lemma BuyerStepExactly(cfg: Config, now: int, verified: bool, fee: int, c: C.Case, expected: int)
    requires Valid(cfg) && Ok(cfg, now, c) && fee >= 0
    ensures var r := C.CancelStep(cfg, now, verified, fee, c, C.Buyer, expected);
      && (r.Some? <==> BuyerMayCancel(now, verified, c, expected))
      && (r.Some? && expected == 0 ==> r == Some(c.(state := C.Cancelled)))
      && (r.Some? && expected > 0 ==> exists row ::
            && r == Some(c.(state := C.Cancelled, refunds := c.refunds + [row]))
            && row.amount == c.gross && row.platform == c.deduction && row.seller == c.gross - c.deduction
            && row.reason == R.BuyerCancelled && row.liability == R.FromPayout && !row.sent && row.attempts == 0
            && row.state == if cfg.autoRefunds then R.Queued else R.PendingApproval)
  {
    FullPercent(c.gross);
    if c.start > now && Released(c) {
      WindowsClosed(cfg, now, c);
    }
    var d := c.(state := C.Cancelled);
    ExactBelowLimit(c.gross, c.gross, c.deduction);
    RefundSharesSplit(c.gross, c.gross, c.deduction);
    var row := C.NewRefund(cfg, d, fee, c.gross, R.BuyerCancelled, now);
    assert row.amount == c.gross && row.platform == c.deduction;
  }

  /** The same on the tables. */
  lemma BuyerCancellation(cfg: Config, s: Books, b: nat, expected: int)
    requires Inv(cfg, s) && b < |s.cases|
    ensures var c := s.cases[b];
      var t := Act(cfg, s, b, C.Cancel(C.Buyer, expected));
      if BuyerMayCancel(s.clock, StillPaid(s, c), c, expected)
      then
        && |t.cases| == |s.cases| && t.cases[b].state == C.Cancelled
        && (expected == 0 ==> t.cases[b].refunds == c.refunds)
        && (expected > 0 ==>
              && |t.cases[b].refunds| == |c.refunds| + 1 && t.cases[b].refunds[..|c.refunds|] == c.refunds
              && var row := t.cases[b].refunds[|c.refunds|];
                 row.amount == c.gross && row.platform == c.deduction && row.seller == c.gross - c.deduction)
      else t == s
  {
    hide SourcesOk, Agrees, ProviderOk, Sound, C.CancelStep;
    var c := s.cases[b];
    assert BookedBy(s, b);
    FeeIsNatural(cfg, s, b);
    BuyerStepExactly(cfg, s.clock, Verified(s, c), FeeOf(s, c), c, expected);
  }

  /** Accepting a report that names the seller absent, while the booking still
      stands and is paid: it leaves the full refund if and only if the attempt
      behind the booking is still marked as a success at that moment. Otherwise
      the refusal is swallowed and the booking is settled without a refund. */
  lemma SellerNoShowExactly(cfg: Config, s: Books, b: nat, r: C.Case)
    requires Inv(cfg, s) && b < |s.cases|
    requires var c := s.cases[b];
      && c.state == C.Confirmed && c.payment == C.PaidInFull
      && c.report.Some? && c.report.value.absent == C.Seller && c.report.value.state in {C.Open, C.Disputed}
      && C.SettleNoShowStep(cfg, s.clock, Verified(s, c), FeeOf(s, c), c, C.Seller, true) == Some(r)
    ensures var c := s.cases[b];
      && r.state == C.NoShow(C.Seller)
      && (StillPaid(s, c) ==>
            |r.refunds| == |c.refunds| + 1 && FullFaultRefund(s, r, r.refunds[|c.refunds|]))
      && (SellerAtFault(r) <==> StillPaid(s, c) || SellerAtFault(c))
  {
    hide ProviderOk, SourcesOk, Agrees, Sound, C.SettleNoShowStep;
    var c := s.cases[b];
    assert BookedBy(s, b);
    assert Ok(cfg, s.clock, c);
    FeeIsNatural(cfg, s, b);
    AbsentStepExactly(cfg, s.clock, Verified(s, c), FeeOf(s, c), c, r);
    SameFee(s, c, r);
  }

  lemma SameFee(s: Books, c: C.Case, r: C.Case)
    requires r.attempt == c.attempt
    ensures FeeOf(s, r) == FeeOf(s, c)
  {}

  lemma AbsentStepExactly(cfg: Config, now: int, verified: bool, fee: int, c: C.Case, r: C.Case)
    requires Valid(cfg) && Ok(cfg, now, c) && fee >= 0
    requires c.state == C.Confirmed && c.payment == C.PaidInFull
    requires c.report.Some? && c.report.value.absent == C.Seller && c.report.value.state in {C.Open, C.Disputed}
    requires C.SettleNoShowStep(cfg, now, verified, fee, c, C.Seller, true) == Some(r)
    ensures r.state == C.NoShow(C.Seller) && r.attempt == c.attempt
    ensures verified ==>
      && |r.refunds| == |c.refunds| + 1
      && var row := r.refunds[|c.refunds|];
         FaultRefund(row) && row.amount == r.gross + fee && row.seller == r.payout.entitlement
    ensures SellerAtFault(r) <==> verified || SellerAtFault(c)
  {
    hide RefundShares, R.HasLive, RefundOk, R.OneLive;
    assert C.NoShowHolds(c) && !Released(c);
    var e := c.(report := Some(c.report.value.(state := C.Accepted)), state := C.NoShow(C.Seller));
    NewRefundOk(cfg, now, e, fee, c.gross, R.SellerNoShow);
    var row := C.NewRefund(cfg, e, fee, c.gross, R.SellerNoShow, now);
    if verified {
      assert r == e.(refunds := c.refunds + [row]);
      assert FaultRefund(r.refunds[|c.refunds|]);
    } else {
      assert r == e;
      assert SellerAtFault(e) <==> SellerAtFault(c);
    }
  }

  /** From then on, over every run: the fault refund stays recorded at the same
      amount, the payout is "scheduled" or "cancelled" with nothing released,
      and no transfer was or ever is sent for it. */
  lemma SellerAtFaultIsNeverPaid(cfg: Config, s: Books, es: seq<Event>, b: nat, i: nat)
    requires Inv(cfg, s) && b < |s.cases| && i < |s.cases[b].refunds| && FaultRefund(s.cases[b].refunds[i])
    ensures var t := Run(cfg, s, es);
      && b < |t.cases| && i < |t.cases[b].refunds|
      && FaultRefund(t.cases[b].refunds[i]) && t.cases[b].refunds[i].amount == s.cases[b].refunds[i].amount
      && t.cases[b].payout.state in {C.Scheduled, C.Nothing} && t.cases[b].payout.amount == 0
      && (forall ref | ref in t.transfers :: ref.booking != b)
  {
    hide Run;
    RunLater(cfg, s, es);
    RunKeeps(cfg, s, es);
    var t := Run(cfg, s, es);
    var c := t.cases[b];
    assert MovesOn(s.cases[b], c) && Ok(cfg, t.clock, c);
    assert R.SameRefund(s.cases[b].refunds[i], c.refunds[i]);
    assert SellerAtFault(c);
    forall ref | ref in t.transfers ensures ref.booking != b {
      assert TransferLinked(t, ref);
    }
  }

  // ---- the run in which the swallowed refusal matters ----

  /** The seller has an account; a buyer pays 1000 and is booked; the provider
      then answers the same attempt with another amount, which marks it as an
      exception; the seller does not come, is reported, and a day later the
      report stands; the payout is released and sent. */
  function SwallowedRefusal(): seq<Event> {
    [ SavePayoutAccount(7, false), StartAttempt(1, 1, 1000), VerifyCharge(1, Charges.Paid(1000), Free(7, 86_400, 60)),
      VerifyCharge(1, Charges.Paid(999), SlotTaken),
      Tick(90_000), OnBooking(0, C.ReportNoShow(C.Buyer)), Tick(200_000), OnBooking(0, C.AcceptOverdueNoShow),
      ReleasePayout(0), SendPayout(0, true, true, AcceptedSeen(Transfer(InFlight, 0))) ]
  }

  /** The tables at one point of that run. */
  function At(clock: int, state: AttemptState, cases: seq<C.Case>, journals: seq<Journal>, exceptions: map<ExceptionKey, Unbooked>): Books {
    Books(clock, map[1 := Attempt(1, 1000, 0, 0, state, if cases == [] then None else Some(0))], cases,
      map[], journals, map[], map[7 := PayoutAccount(0, 0)], exceptions)
  }

  /** The booking: as the payment leaves it, reported, settled, released. */
  function Booked(): C.Case {
    C.Case(1, 1, 7, 86_400, 60, 1000, 0, 1000, 0, C.Confirmed, C.PaidInFull, C.NoIssue, false, false, None,
      C.Payout(C.Scheduled, 1000, 0, 0, 1, 0, 0, 0), [])
  }

  function Reported(): C.Case { Booked().(report := Some(C.Report(C.Seller, C.Open, 176_400))) }

  function Absent(): C.Case {
    Booked().(report := Some(C.Report(C.Seller, C.Accepted, 176_400)), state := C.NoShow(C.Seller))
  }

  function Sending(): C.Case { Absent().(payout := C.Payout(C.Processing, 1000, 1000, 0, 1, 0, 0, 200_000)) }

  function Exceptions(): map<ExceptionKey, Unbooked> {
    map[ExceptionKey(1, WrongAmount) := Unbooked(999, AwaitingProvider, [UnbookedRefund(PLAIN, 999, 0)])]
  }

  const FIRST := Attempt(1, 1000, 0, 0, AwaitingPayment, None)

  lemma PaymentBooks(js: seq<Journal>)
    requires js == [Journal(PaymentSource(1), PaymentLines(FIRST, Charges.Paid(1000), 7))]
    ensures Book(PLAIN, At(0, AwaitingPayment, [], [], map[]), 1, Charges.Paid(1000), 7, 86_400, 60)
         == Some(At(0, Succeeded, [Booked()], js, map[]))
  {
    hide Post, PaymentLines, NewCase;
    PaymentPosts(js);
    BookedRow();
    var s := At(0, AwaitingPayment, [], [], map[]);
    assert s.attempts[1] == FIRST && s.clock == 0 && s.journals == [];
    assert s.cases + [Booked()] == [Booked()];
    var q := FIRST.(state := Succeeded, booking := Some(0));
    assert s.attempts[1 := q] == At(0, Succeeded, [Booked()], js, map[]).attempts;
  }

  lemma BookedRow()
    ensures NewCase(PLAIN, FIRST, 1, Charges.Paid(1000), 7, 86_400, 60, 0) == Booked()
  {}

  lemma PaymentPosts(js: seq<Journal>)
    requires js == [Journal(PaymentSource(1), PaymentLines(FIRST, Charges.Paid(1000), 7))]
    ensures Post([], PaymentSource(1), PaymentLines(FIRST, Charges.Paid(1000), 7)) == Some(js)
  {
    hide Postable, PaymentLines;
    Charges.PaymentPostable(FIRST, Charges.Paid(1000), 7);
    assert [] + js == js;
  }

  lemma PaymentStep(js: seq<Journal>)
    requires js == [Journal(PaymentSource(1), PaymentLines(FIRST, Charges.Paid(1000), 7))]
    ensures Step(PLAIN, At(0, AwaitingPayment, [], [], map[]), VerifyCharge(1, Charges.Paid(1000), Free(7, 86_400, 60)))
         == At(0, Succeeded, [Booked()], js, map[])
  {
    hide Book, PaymentLines;
    PaymentBooks(js);
    var t := At(0, AwaitingPayment, [], [], map[]);
    assert t.attempts[1] == FIRST && Repriced(FIRST, Charges.Paid(1000)) == FIRST;
    assert t.attempts[1 := FIRST] == t.attempts;
    assert t.(attempts := t.attempts[1 := FIRST]) == t;
    assert BookingForQuote(t.cases, 1) == None;
  }

  lemma MismatchStep(js: seq<Journal>)
    ensures Step(PLAIN, At(0, Succeeded, [Booked()], js, map[]), VerifyCharge(1, Charges.Paid(999), SlotTaken))
         == At(0, Exceptional, [Booked()], js, Exceptions())
  {
    var s := At(0, Succeeded, [Booked()], js, map[]);
    assert !AmountOk(s.attempts[1], Charges.Paid(999));
    var key := ExceptionKey(1, WrongAmount);
    var recorded := RecordException(s, 1, WrongAmount, 999);
    assert recorded == At(0, Exceptional, [Booked()], js, map[key := Unbooked(999, ExceptionOpen, [])]);
    var row := UnbookedRefund(PLAIN, 999, 0);
    assert [] + [row] == [row];
    assert R.Insert([], row) == Some([row]);
    assert ReturnUnbooked(PLAIN, recorded, 1, WrongAmount, 999) == At(0, Exceptional, [Booked()], js, Exceptions());
  }

  lemma AbsenceSteps(js: seq<Journal>)
    ensures Step(PLAIN, At(90_000, Exceptional, [Booked()], js, Exceptions()), OnBooking(0, C.ReportNoShow(C.Buyer)))
         == At(90_000, Exceptional, [Reported()], js, Exceptions())
    ensures Step(PLAIN, At(200_000, Exceptional, [Reported()], js, Exceptions()), OnBooking(0, C.AcceptOverdueNoShow))
         == At(200_000, Exceptional, [Absent()], js, Exceptions())
  {}

  lemma SendingSteps(js: seq<Journal>)
    ensures Step(PLAIN, At(200_000, Exceptional, [Absent()], js, Exceptions()), ReleasePayout(0))
         == At(200_000, Exceptional, [Sending()], js, Exceptions())
    ensures Step(PLAIN, At(200_000, Exceptional, [Sending()], js, Exceptions()), SendPayout(0, true, true, AcceptedSeen(Transfer(InFlight, 0))))
         == At(200_000, Exceptional, [Sending()], js, Exceptions()).(transfers := map[Ref(0, 1) := Transfer(InFlight, 0)])
  {
    assert R.LiveShares([]) == 0 && Outstanding([]) == 0;
    BasisPointsExact(1000, 5000);
    assert Take([], 1000, 5000) == 0;
  }

  /** Without the condition, a reachable state has a seller found absent on a
      paid booking, no refund, and the payout on its way to that seller. */
  lemma SellerAtFaultCanBePaid() returns (s: Books)
    ensures Reachable(PLAIN, s) && Valid(PLAIN)
    ensures |s.cases| == 1
    ensures var c := s.cases[0];
      && c.state == C.NoShow(C.Seller) && c.payment == C.PaidInFull && c.refunds == []
      && c.payout.state == C.Processing && c.payout.amount == 1000
      && Ref(0, 1) in s.transfers && s.transfers[Ref(0, 1)].status == InFlight
  {
    hide Step;
    var es := SwallowedRefusal();
    var js := [Journal(PaymentSource(1), PaymentLines(FIRST, Charges.Paid(1000), 7))];
    var s0 := Initial(0);
    OpeningSteps();
    PaymentStep(js);
    MismatchStep(js);
    TickSteps(js);
    AbsenceSteps(js);
    SendingSteps(js);
    RunSnoc(PLAIN, s0, [], es[0]);
    RunSnoc(PLAIN, s0, es[..1], es[1]);
    RunSnoc(PLAIN, s0, es[..2], es[2]);
    RunSnoc(PLAIN, s0, es[..3], es[3]);
    RunSnoc(PLAIN, s0, es[..4], es[4]);
    RunSnoc(PLAIN, s0, es[..5], es[5]);
    RunSnoc(PLAIN, s0, es[..6], es[6]);
    RunSnoc(PLAIN, s0, es[..7], es[7]);
    RunSnoc(PLAIN, s0, es[..8], es[8]);
    RunSnoc(PLAIN, s0, es[..9], es[9]);
    Prefixes();
    s := Run(PLAIN, s0, es);
  }

  lemma Prefixes()
    ensures var es := SwallowedRefusal();
      && [] + [es[0]] == es[..1]
      && (forall k | 1 <= k < 9 :: es[..k] + [es[k]] == es[..k + 1])
      && es[..9] + [es[9]] == es
  {}

  lemma OpeningSteps()
    ensures Step(PLAIN, Step(PLAIN, Initial(0), SavePayoutAccount(7, false)), StartAttempt(1, 1, 1000))
         == At(0, AwaitingPayment, [], [], map[])
  {
    BasisPointsExact(1000, 0);
  }

  lemma TickSteps(js: seq<Journal>)
    ensures Step(PLAIN, At(0, Exceptional, [Booked()], js, Exceptions()), Tick(90_000)) == At(90_000, Exceptional, [Booked()], js, Exceptions())
    ensures Step(PLAIN, At(90_000, Exceptional, [Reported()], js, Exceptions()), Tick(200_000)) == At(200_000, Exceptional, [Reported()], js, Exceptions())
  {}
}
