/** What happens to a booking after it is made, told over the steps that belong
    together: a report of absence and its day of grace, a problem and the time
    to answer it, a decision and the refund it leaves
    (services/core/cmd/api/bookings.go, noshow.go, automation.go, refunds.go). */
module BookingRules {
  import opened Common
  import opened Policy
  import opened Cases
  import R = Refunds
  import opened CaseRules

  // ---- refunds that are nobody's fault ----

  /** Whether a refund can be made: paid in full, the payment verified, and no
      other refund that has not failed. */
  predicate Refundable(c: Case, verified: bool) {
    c.payment == PaidInFull && verified && forall i | 0 <= i < |c.refunds| :: c.refunds[i].state == R.Failed
  }

  /** One new refund of that amount, split in the proportion of the platform's
      deduction rounded down; the seller's part comes out of the payout unless
      that was released with something to pay. */
  ghost predicate GivesBack(cfg: Config, c: Case, d: Case, amount: int, reason: R.Reason, now: int)
    requires c.gross > 0
  {
    && |d.refunds| == |c.refunds| + 1 && d.refunds[..|c.refunds|] == c.refunds
    && var row := d.refunds[|c.refunds|];
       && row.amount == amount && row.platform == amount * c.deduction / c.gross && row.seller == amount - row.platform
       && row.reason == reason && !row.sent && row.attempts == 0 && row.autoRetries == 0 && row.updatedAt == now
       && row.state == (if cfg.autoRefunds then R.Queued else R.PendingApproval)
       && row.liability == (if c.payout.state in {Processing, Paid, PayoutFailed} then R.OwedBack else R.FromPayout)
  }

  /** createRefund for every reason but the seller's fault. */
  lemma RefundedExactly(cfg: Config, now: int, c: Case, verified: bool, fee: int, amount: int, reason: R.Reason)
    requires Valid(cfg) && PriceOk(cfg, c) && !AtFault(reason) && 0 <= amount <= c.gross
    ensures var r := CreateRefund(cfg, c, verified, fee, amount, reason, now);
      if amount == 0 then r == NoRefund
      else if Refundable(c, verified)
      then r.Created? && r.c == c.(refunds := r.c.refunds) && GivesBack(cfg, c, r.c, amount, reason, now)
      else r == if c.payment == PaidInFull && verified then AlreadyRefunded else NotVerified
  {
    hide RefundShares;
    if amount > 0 {
      ExactBelowLimit(amount, c.gross, c.deduction);
      RefundSharesSplit(amount, c.gross, c.deduction);
      assert CreateRefund(cfg, c, verified, fee, amount, reason, now).Created? ==>
        CreateRefund(cfg, c, verified, fee, amount, reason, now).c.refunds == c.refunds + [NewRefund(cfg, c, fee, amount, reason, now)];
    }
  }

  // ---- a report of absence ----

  /** A party may report the other absent from ten minutes after the start until
      the dispute window after the end closes, once, and not after calling the
      conversation done. For a day the report can be disputed; from then on it
      stands by itself, unless it was disputed. A buyer who did not come is
      refunded nothing. */
  lemma AbsenceIsReported(cfg: Config, t: int, u: int, verified: bool, fee: int, c: Case, reporter: Role)
    ensures var r := Step(cfg, t, verified, fee, c, ReportNoShow(reporter));
      && (r.Some? <==>
            && c.state == Confirmed && c.report.None?
            && c.start + 600 <= t <= c.start + (c.duration + cfg.disputeWindow) * 60
            && !(if reporter == Buyer then c.buyerDone else c.sellerDone))
      && (r.Some? ==>
            var d := r.value;
            var stands := Step(cfg, u, verified, fee, d, AcceptOverdueNoShow);
            var disputed := Step(cfg, u, verified, fee, d, DisputeNoShow);
            && d == c.(report := d.report) && d.report.Some?
            && d.report.value.absent == (if reporter == Buyer then Seller else Buyer)
            && (u < t + 86_400 ==> stands.None? && disputed.Some?)
            && (u >= t + 86_400 ==> disputed.None?)
            && (reporter == Seller ==> (stands.Some? <==> u >= t + 86_400))
            && (reporter == Seller && stands.Some? ==>
                  stands.value.state == NoShow(Buyer) && stands.value.refunds == c.refunds
                  && stands.value.report == Some(d.report.value.(state := Accepted)))
            && (disputed.Some? ==>
                  && disputed.value == d.(report := Some(d.report.value.(state := Disputed)))
                  && forall v :: Step(cfg, v, verified, fee, disputed.value, AcceptOverdueNoShow).None?
                                 && Step(cfg, v, verified, fee, disputed.value, DisputeNoShow).None?))
  {}

  /** An operator decides an open or disputed report: "both attended" rejects it
      and leaves the booking standing, "the buyer was absent" settles it without
      a refund; a decided report is not decided again. */
  lemma AbsenceIsDecided(cfg: Config, now: int, verified: bool, fee: int, c: Case, verdict: Verdict)
    requires c.report.Some?
    ensures var r := Step(cfg, now, verified, fee, c, DecideNoShow(verdict));
      var report := c.report.value;
      && (report.state in {Accepted, Rejected} ==> r.None?)
      && (report.state in {Open, Disputed} ==>
            && (verdict == BothAttended ==> r == Some(c.(report := Some(report.(state := Rejected)))))
            && (verdict == BuyerAbsent ==>
                  r == Some(c.(report := Some(report.(state := Accepted)), state := if c.state == Confirmed then NoShow(Buyer) else c.state))))
  {}

  // ---- a problem ----

  predicate ProblemOpen(c: Case) { c.issue.Issue? && !c.issue.resolved }

  /** A buyer may report a problem until the dispute window after the end
      closes, a seller at any time, and nobody while one is open. */
  lemma ProblemIsReported(cfg: Config, t: int, verified: bool, fee: int, c: Case, reporter: Role)
    ensures var r := Step(cfg, t, verified, fee, c, ReportProblem(reporter));
      && (r.Some? <==>
            && (c.state == Confirmed || c.state == Completed) && !ProblemOpen(c)
            && (reporter == Buyer ==> t <= c.start + (c.duration + cfg.disputeWindow) * 60))
      && (r.Some? ==> r.value == c.(issue := Issue(reporter, t + cfg.responseWindow * 60, false, false)))
  {}

  /** A buyer's problem the seller has not answered: the seller gives back the
      price or a part strictly between nothing and all of it, or disagrees; with
      no answer after the response window all of it is given back. What is given
      back is one refund of that amount, where one can be made. */
  lemma ProblemIsAnswered(cfg: Config, now: int, verified: bool, fee: int, c: Case, part: Option<int>)
    requires Valid(cfg) && PriceOk(cfg, c)
    ensures var awaits := ProblemOpen(c) && c.issue.reporter == Buyer && !c.issue.disputed;
      var settled := Step(cfg, now, verified, fee, c, SettleProblem(part));
      var unanswered := Step(cfg, now, verified, fee, c, SettleUnanswered);
      var disagreed := Step(cfg, now, verified, fee, c, DisagreeWithProblem);
      && (settled.Some? <==> awaits && (part.Some? ==> 0 < part.value < c.gross))
      && (unanswered.Some? <==> awaits && now > c.issue.respondBy)
      && (disagreed.Some? <==> awaits)
      && (disagreed.Some? ==> disagreed.value == c.(issue := c.issue.(disputed := true)))
      && (settled.Some? ==> Settles(cfg, c, settled.value, verified, if part.Some? then part.value else c.gross, now))
      && (unanswered.Some? ==> Settles(cfg, c, unanswered.value, verified, c.gross, now))
  {
    hide CreateRefund, Settles, SettleStep;
    if c.issue.Issue? {
      SettledExactly(cfg, now, c, verified, fee, c.gross);
      if part.Some? && 0 < part.value < c.gross {
        SettledExactly(cfg, now, c, verified, fee, part.value);
      }
    }
  }

  lemma SettledExactly(cfg: Config, now: int, c: Case, verified: bool, fee: int, amount: int)
    requires Valid(cfg) && PriceOk(cfg, c) && 0 < amount <= c.gross && c.issue.Issue?
    ensures var r := SettleStep(cfg, now, verified, fee, c, amount);
      r.Some? && Settles(cfg, c, r.value, verified, amount, now)
  {
    hide CreateRefund;
    RefundedExactly(cfg, now, c.(issue := c.issue.(resolved := true)), verified, fee, amount, R.ProblemUpheld);
  }

  /** The problem is closed, nothing else of the booking changes, and the amount
      is given back where a refund can be made. */
  ghost predicate Settles(cfg: Config, c: Case, d: Case, verified: bool, amount: int, now: int)
    requires c.gross > 0
  {
    && c.issue.Issue? && d == c.(issue := c.issue.(resolved := true), refunds := d.refunds)
    && if Refundable(c, verified) then GivesBack(cfg, c, d, amount, R.ProblemUpheld, now) else d.refunds == c.refunds
  }

  // ---- the operator ----

  /** An operator closes an open problem, whoever reported it, with any refund
      up to the price, or refunds without one; a positive refund must be
      possible, or nothing happens. */
  lemma OperatorDecides(cfg: Config, now: int, verified: bool, fee: int, c: Case, refund: int)
    requires Valid(cfg) && PriceOk(cfg, c)
    ensures var closed := Step(cfg, now, verified, fee, c, ResolveProblem(refund));
      var refunded := Step(cfg, now, verified, fee, c, OperatorRefund(refund));
      && (closed.Some? <==> ProblemOpen(c) && 0 <= refund <= c.gross && (refund > 0 ==> Refundable(c, verified)))
      && (closed.Some? ==>
            && closed.value == c.(issue := c.issue.(resolved := true), refunds := closed.value.refunds)
            && if refund > 0 then GivesBack(cfg, c, closed.value, refund, R.ProblemUpheld, now) else closed.value.refunds == c.refunds)
      && (refunded.Some? <==> 0 < refund <= c.gross && Refundable(c, verified))
      && (refunded.Some? ==>
            && refunded.value == c.(refunds := refunded.value.refunds)
            && GivesBack(cfg, c, refunded.value, refund, R.Operator, now))
  {
    hide CreateRefund;
    if 0 <= refund <= c.gross {
      RefundedExactly(cfg, now, c, verified, fee, refund, R.Operator);
      if c.issue.Issue? {
        RefundedExactly(cfg, now, c.(issue := c.issue.(resolved := true)), verified, fee, refund, R.ProblemUpheld);
      }
    }
  }

  // ---- the end of a conversation ----

  /** Either party may call a booking that stands done once it is over; it is
      completed when both have, in whichever order. */
  lemma CompletedByBoth(cfg: Config, t: int, u: int, verified: bool, fee: int, c: Case, first: Role)
    requires t <= u
    ensures var r := Step(cfg, t, verified, fee, c, Complete(first));
      var second := if first == Buyer then Seller else Buyer;
      && (r.Some? <==> c.state == Confirmed && t >= c.start + c.duration * 60)
      && (r.Some? ==>
            && r.value.buyerDone == (c.buyerDone || first == Buyer) && r.value.sellerDone == (c.sellerDone || first == Seller)
            && r.value.state == (if r.value.buyerDone && r.value.sellerDone then Completed else Confirmed)
            && r.value == c.(state := r.value.state, buyerDone := r.value.buyerDone, sellerDone := r.value.sellerDone))
      && (r.Some? && !c.buyerDone && !c.sellerDone ==>
            var both := Step(cfg, u, verified, fee, r.value, Complete(second));
            both == Some(c.(state := Completed, buyerDone := true, sellerDone := true)))
  {}

  /** Only a booking that stands and has not begun is moved, never into the
      past, and nothing but its start changes. */
  lemma MovedAhead(cfg: Config, now: int, verified: bool, fee: int, c: Case, newStart: int)
    ensures var r := Step(cfg, now, verified, fee, c, Reschedule(newStart));
      r == if c.state == Confirmed && now < c.start && now <= newStart then Some(c.(start := newStart)) else None
  {}
}
