/** What is due is done: exactly when a payout is released, a transfer's
    outcome recorded and a refund finalised
    (services/core/cmd/api/payouts.go, refunds.go). */
module Progress {
  import opened Common
  import opened Policy
  import opened Ledger
  import opened Recovery
  import opened Books
  import C = Cases
  import R = Refunds
  import opened CaseRules
  import opened BooksInvariant
  import opened MoneySteps
  import opened ReleaseSteps
  import opened Runs
  import opened Onward
  import CT = ChargeTheorems
  import MT = MoneyTheorems

  // ---- release: no debt is too large to be read ----

  /** No debt is larger than the dearest conversation. */
  ghost predicate SmallDebts(s: Books) {
    forall x | x in s.debts :: forall i | 0 <= i < |s.debts[x]| :: s.debts[x][i].amount <= MAX_PRICE
  }

  lemma FinalizeSmall(cfg: Config, s: Books, b: nat, i: nat)
    requires Inv(cfg, s) && SmallDebts(s)
    ensures SmallDebts(Finalize(s, b, i))
  {
    hide Agrees, Linked, ProviderOk, SourcesOk, Sound, Post, RefundLines;
    if b < |s.cases| && i < |s.cases[b].refunds| {
      assert Ok(cfg, s.clock, s.cases[b]);
      assert RefundOk(s.cases[b], s.cases[b].refunds[i]);
    }
  }

  lemma ReleaseSmall(cfg: Config, s: Books, b: nat)
    requires Inv(cfg, s) && SmallDebts(s)
    ensures SmallDebts(Release(cfg, s, b))
  {
    hide Agrees, Linked, ProviderOk, SourcesOk, Sound, Recovered, C.OnHold, C.ReleaseAt, ReleaseAmount;
    if b < |s.cases| {
      var c := s.cases[b];
      var amount := c.payout.entitlement - R.LiveShares(c.refunds);
      if amount > 0 {
        ReleaseAmountOutcomes(cfg, s, b, amount);
        var take := Take(DebtsOf(s.debts, c.seller), amount, cfg.recoveryBps);
        if Recovered(s, ReleaseAmount(cfg, s, b, amount), b, amount, take) {
          RecoveredSmall(s, ReleaseAmount(cfg, s, b, amount), b, amount, take);
        }
      }
    }
  }

  lemma RecoveredSmall(s: Books, t: Books, b: nat, amount: int, recovery: int)
    requires b < |s.cases| && Recovered(s, t, b, amount, recovery) && SmallDebts(s)
    requires Bounded(DebtsOf(s.debts, s.cases[b].seller))
    ensures SmallDebts(t)
  {
    hide Post, Repay;
    RepayBounded(DebtsOf(s.debts, s.cases[b].seller), recovery);
  }

  /** Only refunds and releases write debts. */
  lemma OtherDebts(cfg: Config, s: Books, e: Event)
    requires !e.FinalizeRefund? && !e.ReleasePayout?
    ensures Step(cfg, s, e).debts == s.debts
  {
    hide C.Step, Start, WithFee, Verify, Send, Reverse, RetryPayout, ActUnbooked, FinishUnbooked, SaveAccount, OneRow;
    match e
    case VerifyCharge(a, ch, slot) => VerifyAdds(cfg, s, a, ch, slot);
    case OnBooking(b, what) =>
    case SendPayout(b, lookup, readable, reply) => SendRow(s, b, lookup, readable, reply);
    case CheckReversal(b) => ReverseRow(s, b);
    case Retry(b, automatic) => RetryRow(s, b, automatic);
    case _ => OtherTables(cfg, s, e);
  }

  lemma {:induction false} RunSmall(cfg: Config, s: Books, es: seq<Event>)
    requires Inv(cfg, s) && SmallDebts(s)
    ensures SmallDebts(Run(cfg, s, es))
  {
    hide Inv, SmallDebts, Finalize, Release;
    if es != [] {
      var before, e := Run(cfg, s, es[..|es| - 1]), es[|es| - 1];
      RunSmall(cfg, s, es[..|es| - 1]);
      RunKeeps(cfg, s, es[..|es| - 1]);
      StepSmall(cfg, before, e);
    }
  }

  lemma StepSmall(cfg: Config, s: Books, e: Event)
    requires Inv(cfg, s) && SmallDebts(s)
    ensures SmallDebts(Step(cfg, s, e))
  {
    hide Inv, Finalize, Release, Verify, Act, Send, Reverse;
    match e
    case FinalizeRefund(b, i) => FinalizeSmall(cfg, s, b, i);
    case ReleasePayout(b) => ReleaseSmall(cfg, s, b);
    case _ => OtherDebts(cfg, s, e);
  }

  /** The 32-bit read of the open debts succeeds in every reachable state. */
  lemma DebtsAreReadable(cfg: Config, s: Books, seller: int)
    requires Valid(cfg) && Reachable(cfg, s)
    ensures Readable(DebtsOf(s.debts, seller))
  {
    hide Inv;
    var clock, es :| s == Run(cfg, Initial(clock), es);
    InitialInv(cfg, clock);
    RunSmall(cfg, Initial(clock), es);
    RunKeeps(cfg, Initial(clock), es);
    DebtsBounded(cfg, s, seller);
  }

  lemma DebtsBounded(cfg: Config, s: Books, seller: int)
    requires Inv(cfg, s)
    ensures OldestFirst(DebtsOf(s.debts, seller))
  {}

  /** The journal of a recovery is balanced and its source unused. */
  lemma RecoveryPosts(cfg: Config, s: Books, b: nat, recovery: int)
    requires Inv(cfg, s) && b < |s.cases| && s.cases[b].payout.state == C.Scheduled && 0 < recovery <= MAX_INT64
    ensures Post(s.journals, RecoverySource(b), RecoveryLines(s.cases[b].seller, recovery)).Some?
  {
    hide Agrees, Linked, ProviderOk, Sound, RowsOk, Postable;
    UsedSource(s, RecoverySource(b));
    var seller := s.cases[b].seller;
    TwoLinesPost(Line(Payable(seller), Debit, recovery), Line(Owed(seller), Credit, recovery), recovery);
  }

  /** So a release with something to pay is not refused. */
  lemma ReleaseAmountHappens(cfg: Config, s: Books, b: nat, amount: int)
    requires Inv(cfg, s) && b < |s.cases| && s.cases[b].payout.state == C.Scheduled && 0 < amount <= MAX_INT64
    ensures ReleaseAmount(cfg, s, b, amount).cases
         == s.cases[b := s.cases[b].(payout := ReleasedRow(s.cases[b].payout, amount,
              Take(DebtsOf(s.debts, s.cases[b].seller), amount, cfg.recoveryBps), s.clock))]
  {
    hide Inv, Repay, Post, Take, Bounded, RecoveryLines;
    var c := s.cases[b];
    var ds := DebtsOf(s.debts, c.seller);
    var take := Take(ds, amount, cfg.recoveryBps);
    DebtsBounded(cfg, s, c.seller);
    ValidRate(cfg, s);
    TakeExact(ds, amount, cfg.recoveryBps);
    if take > 0 {
      RecoveryPosts(cfg, s, b, take);
    }
    var q := c.payout.(state := C.Processing, amount := amount, recovery := take, updatedAt := s.clock);
    if amount == take {
      assert PayoutLines(q, c.seller, 0) == [];
    }
  }

  lemma ValidRate(cfg: Config, s: Books)
    requires Inv(cfg, s)
    ensures 0 <= cfg.recoveryBps <= 10000
  {}

  /** In every reachable state a scheduled payout leaves "scheduled" if and only
      if no buyer's problem, no report naming the seller and no failed refund
      holds it, the delay after the conversation has passed, the buyer's money
      is in the balance, and there is either nothing left to pay or an account
      that may be used. */
  lemma ReleasedExactlyWhen(cfg: Config, s: Books, b: nat)
    requires Valid(cfg) && Reachable(cfg, s) && b < |s.cases| && s.cases[b].payout.state == C.Scheduled
    ensures var c := s.cases[b];
      var t := Release(cfg, s, b);
      var held :=
        || (c.issue.Issue? && !c.issue.resolved && c.issue.reporter == C.Buyer)
        || (c.report.Some? && c.report.value.absent == C.Seller && c.report.value.state in {C.Open, C.Disputed})
        || (exists i :: 0 <= i < |c.refunds| && c.refunds[i].state == R.Failed && c.refunds[i].liability == R.FromPayout);
      var come := s.clock >= c.start + (c.duration + cfg.payoutDelay) * 60 && s.clock >= c.payout.fundsAt;
      var account := c.seller in s.accounts && s.accounts[c.seller].usableFrom <= s.clock;
      var amount := c.payout.entitlement - MT.TakenOut(c.refunds);
      && |t.cases| == |s.cases|
      && (t.cases[b].payout.state != C.Scheduled <==> !held && come && (amount <= 0 || account))
      && (t.cases[b].payout.state != C.Scheduled ==>
            t.cases[b].payout.state in (if amount > 0 then {C.Processing, C.Paid} else {C.Nothing}))
      && (t.cases[b].payout.state == C.Scheduled ==> t == s)
  {
    hide Reachable, ReleaseAmount, Take, Readable, Agrees, Linked, ProviderOk, SourcesOk, Sound;
    ReachableInv(cfg, s);
    var c := s.cases[b];
    var amount := c.payout.entitlement - R.LiveShares(c.refunds);
    MT.TakenOutIs(c.refunds);
    DebtsAreReadable(cfg, s, c.seller);
    assert Ok(cfg, s.clock, c);
    NonNegativeShares(cfg, s.clock, c);
    if amount > 0 {
      ReleaseAmountHappens(cfg, s, b, amount);
    }
  }

  lemma NonNegativeShares(cfg: Config, now: int, c: C.Case)
    requires Ok(cfg, now, c)
    ensures R.LiveShares(c.refunds) >= 0
  {
    assert forall i | 0 <= i < |c.refunds| :: RefundOk(c, c.refunds[i]);
    SumNonNegative(R.LiveShareOf(), c.refunds);
  }

  // ---- the outcome of a transfer ----

  lemma TwoPairs(side: Side, a: seq<Line>, b: seq<Line>, c: seq<Line>, d: seq<Line>)
    ensures Sum(SideTotal(side), a + b + c + d)
         == Sum(SideTotal(side), a) + Sum(SideTotal(side), b) + Sum(SideTotal(side), c) + Sum(SideTotal(side), d)
  {
    SumConcat(SideTotal(side), a, b);
    SumConcat(SideTotal(side), a + b, c);
    SumConcat(SideTotal(side), a + b + c, d);
  }

  lemma PayoutPostable(p: C.Payout, seller: int, fee: int)
    requires p.amount > p.recovery
    ensures Postable(PayoutLines(p, seller, fee)) <==> p.amount - p.recovery + Max0(fee) <= MAX_INT64
  {
    var net := p.amount - p.recovery;
    var l1, l2 := Line(Payable(seller), Debit, net), Line(Receivable, Credit, net);
    var l3, l4 := Line(FeeExpense, Debit, fee), Line(Receivable, Credit, fee);
    forall side ensures Sum(SideTotal(side), PayoutLines(p, seller, fee)) == net + Max0(fee) {
      TwoPairs(side, When(net > 0, l1), When(net > 0, l2), When(fee > 0, l3), When(fee > 0, l4));
      CT.SideWhen(side, net > 0, l1);
      CT.SideWhen(side, net > 0, l2);
      CT.SideWhen(side, fee > 0, l3);
      CT.SideWhen(side, fee > 0, l4);
    }
    assert Debits(PayoutLines(p, seller, fee)) == net + Max0(fee) == Credits(PayoutLines(p, seller, fee));
  }

  /** However an answer was lost: the next time the provider can be asked, a
      transfer it has is found, nothing is sent again, and its outcome is
      recorded. A delivered one makes the payout paid if and only if amount and
      fee fit the ledger. */
  lemma OutcomeIsRecorded(cfg: Config, s: Books, b: nat, readable: bool, reply: Reply)
    requires Valid(cfg) && Reachable(cfg, s) && b < |s.cases| && s.cases[b].payout.state == C.Processing
    requires Ref(b, s.cases[b].payout.generation) in s.transfers
    ensures var p := s.cases[b].payout;
      var found := s.transfers[Ref(b, p.generation)];
      var t := Send(s, b, true, readable, reply);
      && t.transfers == s.transfers && |t.cases| == |s.cases|
      && match found.status
         case InFlight => t == s
         case Delivered =>
           var fee := if found.fee > 0 then found.fee else 0;
           if p.amount - p.recovery + fee <= MAX_INT64
           then t.cases == s.cases[b := s.cases[b].(payout := p.(state := C.Paid, fees := p.fees + fee, updatedAt := s.clock))]
           else t == s
         case _ => t == s.(cases := s.cases[b := s.cases[b].(payout := p.(state := C.PayoutFailed, updatedAt := s.clock))])
  {
    hide Reachable, Agrees, RowsOk, Linked, Sound, Postable, PayoutLines;
    ReachableInv(cfg, s);
    var p := s.cases[b].payout;
    var ref := Ref(b, p.generation);
    assert TransferLinked(s, ref);
    UsedSource(s, PayoutSource(b, p.generation));
    PayoutPostable(p, s.cases[b].seller, s.transfers[ref].fee);
    SomePayoutLines(p, s.cases[b].seller, s.transfers[ref].fee);
  }

  lemma SomePayoutLines(p: C.Payout, seller: int, fee: int)
    requires p.amount > p.recovery
    ensures PayoutLines(p, seller, fee) != []
  {}

  // ---- a confirmed refund ----

  lemma RefundPostable(r: R.Refund, seller: int)
    requires r.amount > 0 && r.platform >= 0 && r.seller >= 0 && r.platform + r.seller == r.amount
    ensures Postable(RefundLines(r, seller)) <==> r.amount <= MAX_INT64
  {
    var account := if r.liability == R.FromPayout then Payable(seller) else Owed(seller);
    var l1, l2, l3 := Line(Receivable, Credit, r.amount), Line(FeeRevenue, Debit, r.platform), Line(account, Debit, r.seller);
    assert When(true, l1) == [l1];
    assert RefundLines(r, seller) == When(true, l1) + When(r.platform > 0, l2) + When(r.seller > 0, l3) + [];
    forall side ensures Sum(SideTotal(side), RefundLines(r, seller)) == r.amount {
      TwoPairs(side, When(true, l1), When(r.platform > 0, l2), When(r.seller > 0, l3), []);
      CT.SideWhen(side, true, l1);
      CT.SideWhen(side, r.platform > 0, l2);
      CT.SideWhen(side, r.seller > 0, l3);
    }
    assert Debits(RefundLines(r, seller)) == r.amount == Credits(RefundLines(r, seller));
  }

  /** In every reachable state a confirmed refund is recorded, with its journal
      and, after a payout, its debt, if and only if it is not processed yet, no
      other refund of the booking is live, and its amount fits the ledger. */
  lemma FinalizedExactlyWhen(cfg: Config, s: Books, b: nat, i: nat)
    requires Valid(cfg) && Reachable(cfg, s) && b < |s.cases| && i < |s.cases[b].refunds|
    ensures var c := s.cases[b];
      var r := c.refunds[i];
      var t := Finalize(s, b, i);
      var alone := forall k | 0 <= k < |c.refunds| && k != i :: c.refunds[k].state == R.Failed;
      if r.state != R.Processed && alone && r.amount <= MAX_INT64
      then
        && t.cases == s.cases[b := c.(
             refunds := c.refunds[i := r.(state := R.Processed, updatedAt := s.clock)],
             payment := if r.amount >= c.gross then C.FullyRefunded else C.PartiallyRefunded)]
        && t.journals == s.journals + [Journal(RefundSource(b, i), RefundLines(r, c.seller))]
        && Outstanding(DebtsOf(t.debts, c.seller))
           == Outstanding(DebtsOf(s.debts, c.seller)) + (if r.liability == R.OwedBack then r.seller else 0)
      else t == s
  {
    hide Inv, Reachable, R.Finish, Postable, RefundLines, Incurred, RefundOk;
    ReachableInv(cfg, s);
    var c := s.cases[b];
    var r := c.refunds[i];
    FinishExactly(c.refunds, i, s.clock);
    RefundUnposted(cfg, s, b, i);
    RefundPostable(r, c.seller);
    DebtsAfterRefund(s, c.seller, b, i, r, c.seller);
  }

  lemma FinishExactly(rs: seq<R.Refund>, i: nat, now: int)
    requires i < |rs|
    ensures R.Finish(rs, i, now) ==
      if rs[i].state != R.Processed && forall k | 0 <= k < |rs| && k != i :: rs[k].state == R.Failed
      then Some(rs[i := rs[i].(state := R.Processed, updatedAt := now)]) else None
  {}

  /** A refund that is not processed has not been posted. */
  lemma RefundUnposted(cfg: Config, s: Books, b: nat, i: nat)
    requires Inv(cfg, s) && b < |s.cases| && i < |s.cases[b].refunds|
    ensures var r := s.cases[b].refunds[i];
      && r.amount > 0 && r.platform >= 0 && r.seller >= 0 && r.platform + r.seller == r.amount
      && (r.state != R.Processed ==> !Posted(s.journals, RefundSource(b, i)))
      && forall y | y in s.debts :: OldestFirst(s.debts[y])
  {
    hide Agrees, Linked, ProviderOk, Sound;
    assert Ok(cfg, s.clock, s.cases[b]) && RefundOk(s.cases[b], s.cases[b].refunds[i]);
    UsedSource(s, RefundSource(b, i));
  }
}
