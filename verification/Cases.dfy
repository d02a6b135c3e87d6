/** One booking with the rows that hang on it: the booking itself, its held
    payout, its refunds and its no-show report. Each source transaction that
    locks the booking is a step on this bundle
    (services/core/cmd/api/bookings.go, cancellation.go, noshow.go, automation.go, refunds.go). */
module Cases {
  import opened Common
  import opened Policy
  import R = Refunds

  datatype Role = Buyer | Seller

  datatype BookingState = Confirmed | Completed | Cancelled | NoShow(absent: Role)

  datatype PaymentState = PaidInFull | PartiallyRefunded | FullyRefunded

  datatype Issue = NoIssue | Issue(reporter: Role, respondBy: int, disputed: bool, resolved: bool)

  datatype ReportState = Open | Disputed | Accepted | Rejected

  datatype Report = Report(absent: Role, state: ReportState, resolvesAt: int)

  datatype PayoutState = Scheduled | Processing | Paid | PayoutFailed | Nothing

  /** A seller_payouts row. amount and recovery are 0 until release; fees is
      what completed transfers have cost so far, over all generations. */
  datatype Payout = Payout(
    state: PayoutState, entitlement: int, amount: int, recovery: int,
    generation: int, fees: int, fundsAt: int, updatedAt: int)

  /** As booked: received is what the charge added to the provider balance, the
      charged total less the processor's fee; buyerFee is the transfer fee in
      that total. Times are in seconds. */
  datatype Case = Case(
    quote: int, attempt: int, seller: int, start: int, duration: int,
    gross: int, deduction: int, received: int, buyerFee: int,
    state: BookingState, payment: PaymentState, issue: Issue, buyerDone: bool, sellerDone: bool,
    report: Option<Report>, payout: Payout, refunds: seq<R.Refund>)

  const MINUTE := 60
  const DAY := 86400

  function Ends(c: Case): int { c.start + c.duration * MINUTE }

  function ReleaseAt(cfg: Config, c: Case): int {
    var t := Ends(c) + cfg.payoutDelay * MINUTE;
    if t < c.payout.fundsAt then c.payout.fundsAt else t
  }

  predicate ProblemHolds(c: Case) { c.issue.Issue? && !c.issue.resolved && c.issue.reporter == Buyer }

  predicate NoShowHolds(c: Case) {
    c.report.Some? && c.report.value.absent == Seller && c.report.value.state in {Open, Disputed}
  }

  /** payoutHoldSQL: whether anything keeps the payout back. */
  predicate OnHold(c: Case) { ProblemHolds(c) || NoShowHolds(c) || R.FailedFromPayout(c.refunds) }

  predicate AtFault(reason: R.Reason) { reason == R.SellerCancelled || reason == R.SellerNoShow }

  // ---- createRefund ----

  datatype RefundResult = NoRefund | NotVerified | AlreadyRefunded | Created(c: Case)

  function NewRefund(cfg: Config, c: Case, fee: int, amount: int, reason: R.Reason, now: int): R.Refund {
    var clamped := Min(amount, c.gross);
    var (platform, seller) := RefundShares(clamped, c.gross, c.deduction);
    var extra := if AtFault(reason) && clamped == c.gross && fee > 0 then fee else 0;
    var liability := if c.payout.state == Scheduled || c.payout.state == Nothing then R.FromPayout else R.OwedBack;
    R.Refund(clamped + extra, platform + extra, seller, reason, liability,
      if cfg.autoRefunds then R.Queued else R.PendingApproval, false, 0, 0, now)
  }

  /** verified: the attempt that paid for the booking is still in success;
      fee: what that attempt records as the buyer's transfer fee. */
  function CreateRefund(cfg: Config, c: Case, verified: bool, fee: int, amount: int, reason: R.Reason, now: int): RefundResult {
    if amount <= 0 then NoRefund
    else if c.payment != PaidInFull || !verified then NotVerified
    else
      var rs := R.Insert(c.refunds, NewRefund(cfg, c, fee, amount, reason, now));
      if rs.None? then AlreadyRefunded else Created(c.(refunds := rs.value))
  }

  /** A caller for whom any refusal aborts the transaction. */
  function Must(r: RefundResult, otherwise: Case): Option<Case> {
    match r
    case NoRefund => Some(otherwise)
    case Created(c) => Some(c)
    case _ => None
  }

  /** A caller that carries on when there is no verified payment to refund. */
  function Tolerate(r: RefundResult, otherwise: Case): Option<Case> {
    if r == NotVerified then Some(otherwise) else Must(r, otherwise)
  }

  // ---- the steps ----

  datatype Verdict = BuyerAbsent | SellerAbsent | BothAttended

  datatype Event =
    | Cancel(role: Role, expected: int)
    | Reschedule(newStart: int)
    | Complete(role: Role)
    | ReportProblem(role: Role)
    | DisagreeWithProblem
    | SettleProblem(part: Option<int>)
    | SettleUnanswered
    | ResolveProblem(refund: int)
    | OperatorRefund(refund: int)
    | ReportNoShow(reporter: Role)
    | DisputeNoShow
    | AcceptOverdueNoShow
    | DecideNoShow(verdict: Verdict)
    | RefundAction(row: nat, action: R.Action)

  /** buyerRefundPercent and previewCancellation's amount. */
  function CancellationRefund(c: Case, role: Role, now: int): int {
    var percent := if role == Seller then 100 else if c.start - now >= DAY then 100 else 0;
    c.gross * percent / 100
  }

  function CancelStep(cfg: Config, now: int, verified: bool, fee: int, c: Case, role: Role, expected: int): Option<Case> {
    var refund := CancellationRefund(c, role, now);
    if c.state != Confirmed || c.start <= now || expected != refund then None
    else
      var reason := if role == Seller then R.SellerCancelled else R.BuyerCancelled;
      var d := c.(state := Cancelled);
      Must(CreateRefund(cfg, d, verified, fee, refund, reason, now), d)
  }

  function RescheduleStep(now: int, c: Case, newStart: int): Option<Case> {
    if c.state != Confirmed || c.start <= now || newStart < now then None
    else Some(c.(start := newStart))
  }

  function CompleteStep(now: int, c: Case, role: Role): Option<Case> {
    if c.state != Confirmed || Ends(c) > now then None
    else
      var d := if role == Buyer then c.(buyerDone := true) else c.(sellerDone := true);
      Some(if d.buyerDone && d.sellerDone then d.(state := Completed) else d)
  }

  function ReportProblemStep(cfg: Config, now: int, c: Case, role: Role): Option<Case> {
    if c.state != Confirmed && c.state != Completed then None
    else if role == Buyer && now > Ends(c) + cfg.disputeWindow * MINUTE then None
    else if c.issue.Issue? && !c.issue.resolved then None
    else Some(c.(issue := Issue(role, now + cfg.responseWindow * MINUTE, false, false)))
  }

  predicate AwaitsSeller(c: Case) { ProblemHolds(c) && !c.issue.disputed }

  /** settleProblem: close the report, and refund unless a live refund exists. */
  function SettleStep(cfg: Config, now: int, verified: bool, fee: int, c: Case, amount: int): Option<Case>
    requires c.issue.Issue?
  {
    var d := c.(issue := c.issue.(resolved := true));
    if amount <= 0 || R.HasLive(c.refunds) then Some(d)
    else Tolerate(CreateRefund(cfg, d, verified, fee, amount, R.ProblemUpheld, now), d)
  }

  function SettleProblemStep(cfg: Config, now: int, verified: bool, fee: int, c: Case, part: Option<int>): Option<Case> {
    if !AwaitsSeller(c) then None
    else if part.Some? && !(0 < part.value < c.gross) then None
    else SettleStep(cfg, now, verified, fee, c, if part.Some? then part.value else c.gross)
  }

  function ResolveProblemStep(cfg: Config, now: int, verified: bool, fee: int, c: Case, refund: int): Option<Case> {
    if !(c.issue.Issue? && !c.issue.resolved) || refund < 0 || refund > c.gross then None
    else
      var d := c.(issue := c.issue.(resolved := true));
      Must(CreateRefund(cfg, d, verified, fee, refund, R.ProblemUpheld, now), d)
  }

  function OperatorRefundStep(cfg: Config, now: int, verified: bool, fee: int, c: Case, refund: int): Option<Case> {
    if refund <= 0 || refund > c.gross then None
    else Must(CreateRefund(cfg, c, verified, fee, refund, R.Operator, now), c)
  }

  function ReportNoShowStep(cfg: Config, now: int, c: Case, reporter: Role): Option<Case> {
    if c.state != Confirmed || now < c.start + 10 * MINUTE || now > Ends(c) + cfg.disputeWindow * MINUTE then None
    else if (if reporter == Seller then c.sellerDone else c.buyerDone) || c.report.Some? then None
    else Some(c.(report := Some(Report(if reporter == Seller then Buyer else Seller, Open, now + DAY))))
  }

  function DisputeNoShowStep(now: int, c: Case): Option<Case> {
    if c.report.Some? && c.report.value.state == Open && c.report.value.resolvesAt > now
    then Some(c.(report := Some(c.report.value.(state := Disputed)))) else None
  }

  /** settleNoShow: absent is the decided role, accepted whether it stands. */
  function SettleNoShowStep(cfg: Config, now: int, verified: bool, fee: int, c: Case, absent: Role, accepted: bool): Option<Case>
    requires c.report.Some?
  {
    if c.report.value.state in {Accepted, Rejected} then None
    else
      var d := c.(report := Some(c.report.value.(state := if accepted then Accepted else Rejected)));
      if !(accepted && c.state == Confirmed) then Some(d)
      else
        var e := d.(state := NoShow(absent));
        if absent == Buyer then Some(e)
        else Tolerate(CreateRefund(cfg, e, verified, fee, c.gross, R.SellerNoShow, now), e)
  }

  function Step(cfg: Config, now: int, verified: bool, fee: int, c: Case, e: Event): Option<Case> {
    match e
    case Cancel(role, expected) => CancelStep(cfg, now, verified, fee, c, role, expected)
    case Reschedule(newStart) => RescheduleStep(now, c, newStart)
    case Complete(role) => CompleteStep(now, c, role)
    case ReportProblem(role) => ReportProblemStep(cfg, now, c, role)
    case DisagreeWithProblem =>
      if AwaitsSeller(c) then Some(c.(issue := c.issue.(disputed := true))) else None
    case SettleProblem(part) => SettleProblemStep(cfg, now, verified, fee, c, part)
    case SettleUnanswered =>
      if AwaitsSeller(c) && c.issue.respondBy < now then SettleStep(cfg, now, verified, fee, c, c.gross) else None
    case ResolveProblem(refund) => ResolveProblemStep(cfg, now, verified, fee, c, refund)
    case OperatorRefund(refund) => OperatorRefundStep(cfg, now, verified, fee, c, refund)
    case ReportNoShow(reporter) => ReportNoShowStep(cfg, now, c, reporter)
    case DisputeNoShow => DisputeNoShowStep(now, c)
    case AcceptOverdueNoShow =>
      if c.report.Some? && c.report.value.state == Open && c.report.value.resolvesAt <= now
      then SettleNoShowStep(cfg, now, verified, fee, c, c.report.value.absent, true) else None
    case DecideNoShow(verdict) =>
      if c.report.None? then None
      else SettleNoShowStep(cfg, now, verified, fee, c,
        if verdict == BuyerAbsent then Buyer else if verdict == SellerAbsent then Seller else c.report.value.absent,
        verdict != BothAttended)
    case RefundAction(i, action) =>
      var rs := R.Act(c.refunds, i, action, cfg.autoRefunds, now);
      if rs.None? then None else Some(c.(refunds := rs.value))
  }
}
