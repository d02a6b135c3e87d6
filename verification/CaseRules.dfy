/** What every step keeps about a booking and the rows that hang on it. */
module CaseRules {
  import opened Common
  import opened Policy
  import opened Cases
  import R = Refunds

  predicate Released(c: Case) { c.payout.state != Scheduled }

  /** The payout was released with an amount to pay. */
  predicate Owing(c: Case) { c.payout.state in {Processing, Paid, PayoutFailed} }

  /** A refund for the seller's fault that comes out of the held payout. */
  predicate FaultRefund(r: R.Refund) { AtFault(r.reason) && r.liability == R.FromPayout }

  predicate SellerAtFault(c: Case) {
    exists i :: 0 <= i < |c.refunds| && FaultRefund(c.refunds[i])
  }

  ghost predicate RefundOk(c: Case, r: R.Refund) {
    && r.amount > 0 && r.platform >= 0 && r.platform + r.seller == r.amount
    && 0 <= r.seller <= c.payout.entitlement
    && (FaultRefund(r) ==> r.seller == c.payout.entitlement && r.amount >= c.gross)
  }

  ghost predicate PayoutOk(p: Payout) {
    && p.entitlement >= 0 && p.generation >= 1 && p.fees >= 0
    && (p.state in {Scheduled, Nothing} ==> p.amount == 0 && p.recovery == 0 && p.generation == 1 && p.fees == 0)
    && (p.state in {Processing, PayoutFailed} ==> 0 <= p.recovery < p.amount <= p.entitlement)
    && (p.state == Paid ==> 0 <= p.recovery <= p.amount <= p.entitlement && 0 < p.amount)
  }

  ghost predicate PriceOk(cfg: Config, c: Case) {
    && 0 < c.gross <= MAX_PRICE
    && 0 <= c.deduction <= c.gross / 20
    && c.payout.entitlement == c.gross - c.deduction
    && c.duration >= 0
  }

  /** Nothing that should hold the payout is open once it has left "scheduled". */
  ghost predicate HoldsOk(c: Case) { (ProblemHolds(c) || NoShowHolds(c)) ==> !Released(c) }

  ghost predicate TimeOk(cfg: Config, now: int, c: Case) {
    Released(c) ==> now >= Ends(c) + cfg.payoutDelay * MINUTE && now >= c.payout.fundsAt
  }

  /** The released amount leaves room for every refund charged to the payout. */
  ghost predicate RoomOk(c: Case) {
    Owing(c) ==> forall i | 0 <= i < |c.refunds| ::
      c.refunds[i].liability == R.FromPayout ==> c.payout.amount + c.refunds[i].seller <= c.payout.entitlement
  }

  ghost predicate Ok(cfg: Config, now: int, c: Case) {
    && PriceOk(cfg, c)
    && PayoutOk(c.payout)
    && (forall i | 0 <= i < |c.refunds| :: RefundOk(c, c.refunds[i]))
    && R.OneLive(c.refunds)
    && HoldsOk(c)
    && TimeOk(cfg, now, c)
    && RoomOk(c)
    && (SellerAtFault(c) ==> !Owing(c))
  }

  /** The columns no transaction ever rewrites, and what only ever grows. */
  ghost predicate Follows(c: Case, d: Case) {
    && c.quote == d.quote && c.attempt == d.attempt && c.seller == d.seller
    && c.duration == d.duration && c.gross == d.gross && c.deduction == d.deduction
    && c.received == d.received && c.buyerFee == d.buyerFee
    && c.payout.entitlement == d.payout.entitlement && c.payout.fundsAt == d.payout.fundsAt
    && R.Grown(c.refunds, d.refunds)
    && (c.state != Confirmed ==> d.state == c.state)
    && (c.start != d.start ==> c.state == Confirmed && !Released(c))
  }

  /** A step that moves no money: payout row and processed refunds untouched. */
  ghost predicate Quiet(c: Case, d: Case) {
    && Follows(c, d) && c.payout == d.payout
    && R.ProcessedShares(c.refunds) == R.ProcessedShares(d.refunds)
    && R.ProcessedAmount(c.refunds) == R.ProcessedAmount(d.refunds)
    && R.ProcessedPlatform(c.refunds) == R.ProcessedPlatform(d.refunds)
  }

  /** The combined bound the payout is designed around. */
  lemma NeverMoreThanEntitlement(cfg: Config, now: int, c: Case)
    requires Ok(cfg, now, c)
    ensures c.payout.amount + R.LiveShares(c.refunds) <= c.payout.entitlement
  {
    var room := c.payout.entitlement - c.payout.amount;
    R.LiveSharesAtMost(c.refunds, room);
  }

  lemma NewRefundOk(cfg: Config, now: int, c: Case, fee: int, amount: int, reason: R.Reason)
    requires Valid(cfg) && PriceOk(cfg, c) && amount > 0 && fee >= 0
    ensures var r := NewRefund(cfg, c, fee, amount, reason, now);
      && RefundOk(c, r)
      && R.Live(r) && r.state != R.Processed
      && (AtFault(reason) && amount >= c.gross ==> r.amount == c.gross + fee && r.seller == c.payout.entitlement)
      && (r.liability == R.FromPayout <==> !Owing(c))
    requires AtFault(reason) ==> amount >= c.gross
  {
    var clamped := Min(amount, c.gross);
    ExactBelowLimit(clamped, c.gross, c.deduction);
    RefundSharesSplit(clamped, c.gross, c.deduction);
  }

  /** Adding a refund row keeps everything, and changes nothing that is settled. */
  lemma CreateRefundKeeps(cfg: Config, now: int, c: Case, verified: bool, fee: int, amount: int, reason: R.Reason)
    requires Valid(cfg) && Ok(cfg, now, c) && fee >= 0
    requires AtFault(reason) ==> amount >= c.gross
    ensures var r := CreateRefund(cfg, c, verified, fee, amount, reason, now);
      r.Created? ==>
        && Ok(cfg, now, r.c) && Quiet(c, r.c)
        && r.c == c.(refunds := c.refunds + [NewRefund(cfg, c, fee, amount, reason, now)])
  {
    var r := CreateRefund(cfg, c, verified, fee, amount, reason, now);
    if r.Created? {
      var row := NewRefund(cfg, c, fee, amount, reason, now);
      NewRefundOk(cfg, now, c, fee, amount, reason);
      R.InsertKeeps(c.refunds, row);
      SumSnoc(R.ProcessedShareOf(), c.refunds, row);
      SumSnoc(R.ProcessedAmountOf(), c.refunds, row);
      SumSnoc(R.ProcessedPlatformOf(), c.refunds, row);
      assert SellerAtFault(r.c) ==> SellerAtFault(c) || FaultRefund(row);
    }
  }

  lemma RefundActionKeeps(cfg: Config, now: int, c: Case, i: nat, action: R.Action)
    requires Ok(cfg, now, c)
    requires R.Act(c.refunds, i, action, cfg.autoRefunds, now).Some?
    ensures var d := c.(refunds := R.Act(c.refunds, i, action, cfg.autoRefunds, now).value);
      Ok(cfg, now, d) && Quiet(c, d)
  {
    var rs := R.Act(c.refunds, i, action, cfg.autoRefunds, now).value;
    R.ActKeeps(c.refunds, i, action, cfg.autoRefunds, now);
    SumUpdate(R.ProcessedShareOf(), c.refunds, i, rs[i]);
    SumUpdate(R.ProcessedAmountOf(), c.refunds, i, rs[i]);
    SumUpdate(R.ProcessedPlatformOf(), c.refunds, i, rs[i]);
    GrownKeepsRows(c, rs);
  }

  /** Rows whose amounts and liabilities are unchanged keep the refund rules. */
  lemma GrownKeepsRows(c: Case, rs: seq<R.Refund>)
    requires R.Grown(c.refunds, rs) && |rs| == |c.refunds|
    ensures var d := c.(refunds := rs);
      && ((forall i | 0 <= i < |c.refunds| :: RefundOk(c, c.refunds[i])) ==> forall i | 0 <= i < |rs| :: RefundOk(d, rs[i]))
      && (RoomOk(c) ==> RoomOk(d))
      && (SellerAtFault(d) <==> SellerAtFault(c))
  {}

  /** A released payout means the problem and no-show windows are closed. */
  lemma WindowsClosed(cfg: Config, now: int, c: Case)
    requires Valid(cfg) && TimeOk(cfg, now, c) && Released(c)
    ensures now > Ends(c) + cfg.disputeWindow * MINUTE
    ensures c.duration >= 0 ==> now > c.start
  {}

  /** Changing only the booking's own columns keeps the rest of the rules. */
  lemma BookingColumns(cfg: Config, now: int, c: Case, d: Case)
    requires Ok(cfg, now, c)
    requires d == c.(state := d.state, start := d.start, issue := d.issue, report := d.report,
                     buyerDone := d.buyerDone, sellerDone := d.sellerDone)
    requires d.start != c.start ==> c.state == Confirmed && !Released(c)
    requires c.state != Confirmed ==> d.state == c.state
    requires HoldsOk(d)
    ensures Ok(cfg, now, d) && Quiet(c, d)
  {}

  lemma QuietTrans(c: Case, d: Case, e: Case)
    requires Quiet(c, d) && Quiet(d, e)
    ensures Quiet(c, e)
  {}

  lemma CancelKeeps(cfg: Config, now: int, verified: bool, fee: int, c: Case, role: Role, expected: int)
    requires Valid(cfg) && Ok(cfg, now, c) && fee >= 0
    ensures var r := CancelStep(cfg, now, verified, fee, c, role, expected);
      r.Some? ==> Ok(cfg, now, r.value) && Quiet(c, r.value) && r.value.state == Cancelled
  {
    var r := CancelStep(cfg, now, verified, fee, c, role, expected);
    if r.Some? {
      var d := c.(state := Cancelled);
      var reason := if role == Seller then R.SellerCancelled else R.BuyerCancelled;
      BookingColumns(cfg, now, c, d);
      CreateRefundKeeps(cfg, now, d, verified, fee, expected, reason);
      QuietTrans(c, d, r.value);
    }
  }

  lemma SettleKeeps(cfg: Config, now: int, verified: bool, fee: int, c: Case, amount: int)
    requires Valid(cfg) && Ok(cfg, now, c) && fee >= 0 && c.issue.Issue?
    ensures var r := SettleStep(cfg, now, verified, fee, c, amount);
      r.Some? ==> Ok(cfg, now, r.value) && Quiet(c, r.value)
  {
    var d := c.(issue := c.issue.(resolved := true));
    BookingColumns(cfg, now, c, d);
    CreateRefundKeeps(cfg, now, d, verified, fee, amount, R.ProblemUpheld);
    var r := SettleStep(cfg, now, verified, fee, c, amount);
    if r.Some? {
      QuietTrans(c, d, r.value);
    }
  }

  lemma ResolveKeeps(cfg: Config, now: int, verified: bool, fee: int, c: Case, refund: int)
    requires Valid(cfg) && Ok(cfg, now, c) && fee >= 0
    ensures var r := ResolveProblemStep(cfg, now, verified, fee, c, refund);
      r.Some? ==> Ok(cfg, now, r.value) && Quiet(c, r.value)
  {
    var r := ResolveProblemStep(cfg, now, verified, fee, c, refund);
    if r.Some? {
      var d := c.(issue := c.issue.(resolved := true));
      BookingColumns(cfg, now, c, d);
      CreateRefundKeeps(cfg, now, d, verified, fee, refund, R.ProblemUpheld);
      QuietTrans(c, d, r.value);
    }
  }

  lemma SettleNoShowKeeps(cfg: Config, now: int, verified: bool, fee: int, c: Case, absent: Role, accepted: bool)
    requires Valid(cfg) && Ok(cfg, now, c) && fee >= 0 && c.report.Some?
    ensures var r := SettleNoShowStep(cfg, now, verified, fee, c, absent, accepted);
      r.Some? ==> Ok(cfg, now, r.value) && Quiet(c, r.value)
  {
    hide CreateRefund, NewRefund, R.HasLive;
    var r := SettleNoShowStep(cfg, now, verified, fee, c, absent, accepted);
    if r.Some? {
      var d := c.(report := Some(c.report.value.(state := if accepted then Accepted else Rejected)));
      BookingColumns(cfg, now, c, d);
      if accepted && c.state == Confirmed {
        var e := d.(state := NoShow(absent));
        BookingColumns(cfg, now, d, e);
        QuietTrans(c, d, e);
        CreateRefundKeeps(cfg, now, e, verified, fee, c.gross, R.SellerNoShow);
        QuietTrans(c, e, r.value);
      }
    }
  }

  /** Every step on a booking keeps its rules and moves no money by itself. */
  lemma StepKeeps(cfg: Config, now: int, verified: bool, fee: int, c: Case, e: Event)
    requires Valid(cfg) && Ok(cfg, now, c) && fee >= 0
    ensures var r := Step(cfg, now, verified, fee, c, e);
      r.Some? ==> Ok(cfg, now, r.value) && Quiet(c, r.value)
  {
    hide Ok, Quiet, R.HasLive, R.Act, RoomOk, HoldsOk, TimeOk;
    var r := Step(cfg, now, verified, fee, c, e);
    if r.Some? {
      match e
      case Cancel(role, expected) => CancelKeeps(cfg, now, verified, fee, c, role, expected);
      case SettleProblem(part) => SettleKeeps(cfg, now, verified, fee, c, if part.Some? then part.value else c.gross);
      case SettleUnanswered => SettleKeeps(cfg, now, verified, fee, c, c.gross);
      case ResolveProblem(refund) => ResolveKeeps(cfg, now, verified, fee, c, refund);
      case OperatorRefund(refund) => CreateRefundKeeps(cfg, now, c, verified, fee, refund, R.Operator);
      case AcceptOverdueNoShow => SettleNoShowKeeps(cfg, now, verified, fee, c, c.report.value.absent, true);
      case DecideNoShow(verdict) =>
        SettleNoShowKeeps(cfg, now, verified, fee, c,
          if verdict == BuyerAbsent then Buyer else if verdict == SellerAbsent then Seller else c.report.value.absent,
          verdict != BothAttended);
      case RefundAction(i, action) => RefundActionKeeps(cfg, now, c, i, action);
      case _ => BookingStepKeeps(cfg, now, verified, fee, c, e);
    }
  }

  lemma BookingStepKeeps(cfg: Config, now: int, verified: bool, fee: int, c: Case, e: Event)
    requires Valid(cfg) && Ok(cfg, now, c)
    requires e.Reschedule? || e.Complete? || e.ReportProblem? || e.DisagreeWithProblem? || e.ReportNoShow? || e.DisputeNoShow?
    ensures var r := Step(cfg, now, verified, fee, c, e);
      r.Some? ==> Ok(cfg, now, r.value) && Quiet(c, r.value)
  {
    var r := Step(cfg, now, verified, fee, c, e);
    if r.Some? {
      if Released(c) {
        WindowsClosed(cfg, now, c);
      }
      BookingColumns(cfg, now, c, r.value);
    }
  }
}
