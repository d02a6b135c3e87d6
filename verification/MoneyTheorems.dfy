/** The promises of the money lifecycle, for every reachable state and every run. */
module MoneyTheorems {
  import opened Common
  import opened Policy
  import opened Ledger
  import opened Recovery
  import opened Books
  import C = Cases
  import R = Refunds
  import opened CaseRules
  import opened BooksInvariant
  import opened ReleaseSteps
  import opened Runs
  import opened Onward

  // ---- the ledger is the sub-ledger ----

  /** What a booking leaves payable to its seller: the entitlement, less the
      processed refunds charged to the payout, less the payout once it is paid,
      or only the part that went to old debts while it is on its way. */
  function PayableRow(c: C.Case): int {
    c.payout.entitlement - SharesOut(c.refunds)
    - (match c.payout.state
       case Paid => c.payout.amount
       case Processing => c.payout.recovery
       case PayoutFailed => c.payout.recovery
       case _ => 0)
  }

  function SharesOut(rs: seq<R.Refund>): int {
    if rs == [] then 0
    else
      SharesOut(rs[..|rs| - 1])
      + (if rs[|rs| - 1].state == R.Processed && rs[|rs| - 1].liability == R.FromPayout then rs[|rs| - 1].seller else 0)
  }

  /** The same total, computed booking by booking for one seller. */
  function PayableTotal(cases: seq<C.Case>, seller: int): int {
    if cases == [] then 0
    else
      PayableTotal(cases[..|cases| - 1], seller)
      + (if cases[|cases| - 1].seller == seller then PayableRow(cases[|cases| - 1]) else 0)
  }

  /** What refunds that have not failed take out of the payout. */
  function TakenOut(rs: seq<R.Refund>): int {
    if rs == [] then 0
    else
      TakenOut(rs[..|rs| - 1])
      + (if rs[|rs| - 1].state != R.Failed && rs[|rs| - 1].liability == R.FromPayout then rs[|rs| - 1].seller else 0)
  }

  lemma {:induction false} TakenOutIs(rs: seq<R.Refund>)
    ensures TakenOut(rs) == R.LiveShares(rs)
  {
    if rs != [] {
      TakenOutIs(rs[..|rs| - 1]);
    }
  }

  lemma {:induction false} SharesOutIs(rs: seq<R.Refund>)
    ensures SharesOut(rs) == R.ProcessedShares(rs)
  {
    if rs != [] {
      SharesOutIs(rs[..|rs| - 1]);
    }
  }

  lemma {:induction false} PayableTotalIs(cases: seq<C.Case>, seller: int)
    ensures PayableTotal(cases, seller) == Sum(PayableOf(seller), cases)
  {
    if cases != [] {
      PayableTotalIs(cases[..|cases| - 1], seller);
      SharesOutIs(cases[|cases| - 1].refunds);
    }
  }

  /** In every reachable state each seller's payable and receivable accounts and
      the provider account hold exactly what the rows say, every journal is
      balanced with positive lines, and no source was posted twice. */
  lemma LedgerEqualsSubLedger(cfg: Config, s: Books, seller: int)
    requires Valid(cfg) && Reachable(cfg, s)
    ensures -Balance(s.journals, Payable(seller)) == PayableTotal(s.cases, seller)
    ensures Balance(s.journals, Owed(seller)) == Outstanding(DebtsOf(s.debts, seller))
    ensures Balance(s.journals, Receivable) == Sum(HeldOf(), s.cases)
    ensures Sound(s.journals)
  {
    hide Linked, SourcesOk, RowsOk, ProviderOk, Sound;
    ReachableInv(cfg, s);
    assert SellerAgrees(s, seller);
    PayableTotalIs(s.cases, seller);
  }

  // ---- no double payout ----

  /** Of all the references a payout has used, at most one is in flight or
      delivered: the current one. "Paid" means it was delivered, or that
      there was nothing to send, until the provider returns it. */
  lemma NoDoublePayout(cfg: Config, s: Books, b: nat, g: int)
    requires Valid(cfg) && Reachable(cfg, s) && b < |s.cases|
    ensures Ref(b, g) in s.transfers && s.transfers[Ref(b, g)].status in {InFlight, Delivered} ==>
      g == s.cases[b].payout.generation && s.cases[b].payout.state in {C.Processing, C.Paid}
    ensures var p := s.cases[b].payout;
      p.state == C.Paid && p.amount > p.recovery ==>
        Ref(b, p.generation) in s.transfers && s.transfers[Ref(b, p.generation)].status in {Delivered, Returned}
  {
    hide Agrees, RowsOk, Linked, Sound, SourcesOk, Run;
    ReachableInv(cfg, s);
    assert Backed(s, b);
    if Ref(b, g) in s.transfers {
      assert TransferLinked(s, Ref(b, g));
    }
    var ref := Ref(b, s.cases[b].payout.generation);
    if ref in s.transfers {
      assert TransferLinked(s, ref);
    }
  }

  /** The money that is with the seller or on its way there, over all the
      references of one payout up to generation n. */
  ghost function OnItsWay(s: Books, b: nat, n: nat): int
    requires b < |s.cases|
  {
    if n == 0 then 0
    else
      OnItsWay(s, b, n - 1)
      + (if Ref(b, n) in s.transfers && s.transfers[Ref(b, n)].status in {InFlight, Delivered} then s.cases[b].payout.amount - s.cases[b].payout.recovery else 0)
  }

  /** However many sends, lost answers, failures, reversals and retries a run
      holds, a payout never puts more than its net amount on the way. */
  lemma SentAtMostOnce(cfg: Config, s: Books, b: nat, n: nat)
    requires Valid(cfg) && Reachable(cfg, s) && b < |s.cases|
    ensures 0 <= OnItsWay(s, b, n) <= Max0(s.cases[b].payout.amount - s.cases[b].payout.recovery)
    ensures n < s.cases[b].payout.generation ==> OnItsWay(s, b, n) == 0
  {
    hide Reachable;
    if n > 0 {
      SentAtMostOnce(cfg, s, b, n - 1);
      NoDoublePayout(cfg, s, b, n);
      NetIsNatural(cfg, s, b);
      if n > s.cases[b].payout.generation {
        assert !(Ref(b, n) in s.transfers && s.transfers[Ref(b, n)].status in {InFlight, Delivered});
      }
    } else {
      NetIsNatural(cfg, s, b);
    }
  }

  lemma NetIsNatural(cfg: Config, s: Books, b: nat)
    requires Valid(cfg) && Reachable(cfg, s) && b < |s.cases|
    ensures s.cases[b].payout.amount >= s.cases[b].payout.recovery && s.cases[b].payout.generation >= 1
  {
    ReachableInv(cfg, s);
    assert Ok(cfg, s.clock, s.cases[b]);
  }

  /** A transfer the provider took is known for ever after, and one that was
      refused or came back stays that way: its reference is never used again. */
  lemma TransfersAreFinal(cfg: Config, s: Books, es: seq<Event>, ref: Ref)
    requires Inv(cfg, s) && ref in s.transfers
    ensures var t := Run(cfg, s, es);
      && ref in t.transfers
      && (s.transfers[ref].status in {Refused, Returned} ==> t.transfers[ref] == s.transfers[ref])
      && (s.transfers[ref].status == Delivered ==> t.transfers[ref].status in {Delivered, Returned})
  {
    hide Inv, Run;
    RunLater(cfg, s, es);
    assert TransferLater(s.transfers[ref], Run(cfg, s, es).transfers[ref]);
  }

  // ---- never more than the entitlement ----

  lemma WithinEntitlement(cfg: Config, s: Books, b: nat)
    requires Valid(cfg) && Reachable(cfg, s) && b < |s.cases|
    ensures var c := s.cases[b];
      && 0 <= c.payout.amount && c.payout.amount + TakenOut(c.refunds) <= c.payout.entitlement
      && c.payout.entitlement == c.gross - c.deduction
      && (forall i, j | 0 <= i < j < |c.refunds| :: c.refunds[i].state == R.Failed || c.refunds[j].state == R.Failed)
  {
    TakenOutIs(s.cases[b].refunds);
    ReachableInv(cfg, s);
    assert Ok(cfg, s.clock, s.cases[b]);
    NeverMoreThanEntitlement(cfg, s.clock, s.cases[b]);
  }

  // ---- holds ----

  /** An open buyer's problem, or a report naming the seller absent that is
      still open or disputed, finds the payout still scheduled. */
  lemma HoldsAreEffective(cfg: Config, s: Books, b: nat)
    requires Valid(cfg) && Reachable(cfg, s) && b < |s.cases|
    requires var c := s.cases[b];
      || (c.issue.Issue? && !c.issue.resolved && c.issue.reporter == C.Buyer)
      || (c.report.Some? && c.report.value.absent == C.Seller && c.report.value.state in {C.Open, C.Disputed})
    ensures s.cases[b].payout.state == C.Scheduled
    ensures Release(cfg, s, b) == s
  {
    ReachableInv(cfg, s);
    assert Ok(cfg, s.clock, s.cases[b]);
  }

  /** Once the payout has left "scheduled", over every later run: the booking's
      start stays where it is, no hold is ever open again, and no report that
      could hold it is accepted. */
  lemma ReleasedIsSettled(cfg: Config, s: Books, es: seq<Event>, b: nat)
    requires Inv(cfg, s) && b < |s.cases| && Released(s.cases[b])
    ensures var t := Run(cfg, s, es);
      && b < |t.cases| && Released(t.cases[b])
      && t.cases[b].start == s.cases[b].start
      && t.cases[b].payout.amount == s.cases[b].payout.amount && t.cases[b].payout.recovery == s.cases[b].payout.recovery
      && (var c := t.cases[b];
          && !(c.issue.Issue? && !c.issue.resolved && c.issue.reporter == C.Buyer)
          && !(c.report.Some? && c.report.value.absent == C.Seller && c.report.value.state in {C.Open, C.Disputed}))
      && C.ReportProblemStep(cfg, t.clock, t.cases[b], C.Buyer) == None
      && (forall reporter :: C.ReportNoShowStep(cfg, t.clock, t.cases[b], reporter) == None)
  {
    hide Run;
    RunLater(cfg, s, es);
    RunKeeps(cfg, s, es);
    var t := Run(cfg, s, es);
    assert Ok(cfg, t.clock, t.cases[b]) && MovesOn(s.cases[b], t.cases[b]);
    WindowsClosed(cfg, t.clock, t.cases[b]);
  }

  /** Nothing is released before the conversation is over and the delay after it
      has passed, nor before the buyer's money is in the balance. */
  lemma NothingEarly(cfg: Config, s: Books, b: nat)
    requires Valid(cfg) && Reachable(cfg, s) && b < |s.cases| && s.cases[b].payout.state != C.Scheduled
    ensures var c := s.cases[b];
      s.clock >= c.start + (c.duration + cfg.payoutDelay) * 60 && s.clock >= c.payout.fundsAt
  {
    ReachableInv(cfg, s);
    assert Ok(cfg, s.clock, s.cases[b]);
  }

  // ---- debts ----

  /** Debts are repaid exactly and in age order: in every reachable state some
      position separates fully repaid debts from untouched ones. */
  lemma DebtsInOrder(cfg: Config, s: Books, seller: int) returns (k: nat)
    requires Valid(cfg) && Reachable(cfg, s)
    ensures var ds := DebtsOf(s.debts, seller);
      && k <= |ds|
      && (forall i | 0 <= i < |ds| :: 0 <= ds[i].recovered <= ds[i].amount)
      && (forall i | 0 <= i < k :: ds[i].recovered == ds[i].amount)
      && (forall i | k < i < |ds| :: ds[i].recovered == 0)
      && Balance(s.journals, Owed(seller)) == Outstanding(ds) >= 0
  {
    ReachableInv(cfg, s);
    assert SellerAgrees(s, seller);
    OutstandingNonNegative(DebtsOf(s.debts, seller));
    k := OldestFirstShape(DebtsOf(s.debts, seller));
  }

  /** A payout that is released repays exactly the smaller of what the seller
      owes and the floored share of the payout. */
  lemma ReleaseRepaysExactly(cfg: Config, s: Books, t: Books, b: nat)
    requires Valid(cfg) && Reachable(cfg, s) && b < |s.cases| && s.cases[b].payout.state == C.Scheduled
    requires t == Release(cfg, s, b) && b < |t.cases| && Owing(t.cases[b])
    ensures var c := s.cases[b];
      var p := t.cases[b].payout;
      && p.amount == c.payout.entitlement - TakenOut(c.refunds) > 0
      && p.recovery == Min(Outstanding(DebtsOf(s.debts, c.seller)), p.amount * cfg.recoveryBps / 10000)
      && Outstanding(DebtsOf(t.debts, c.seller)) == Outstanding(DebtsOf(s.debts, c.seller)) - p.recovery
      && (p.state == C.Paid <==> p.amount == p.recovery)
  {
    hide Reachable, Agrees, Linked, ProviderOk, SourcesOk, Sound, ReleaseAmount, Recovered;
    ReachableInv(cfg, s);
    var c := s.cases[b];
    assert Ok(cfg, s.clock, c);
    var amount := c.payout.entitlement - R.LiveShares(c.refunds);
    assert ReleaseDue(cfg, s.clock, c);
    TakenOutIs(c.refunds);
    if amount > 0 {
      AmountLeavesRoom(cfg, s.clock, c);
      TakeExact(DebtsOf(s.debts, c.seller), amount, cfg.recoveryBps);
      ReleaseAmountOutcomes(cfg, s, b, amount);
      if Recovered(s, t, b, amount, Take(DebtsOf(s.debts, c.seller), amount, cfg.recoveryBps)) {
        RecoveredRows(s, t, b, amount, Take(DebtsOf(s.debts, c.seller), amount, cfg.recoveryBps));
      }
    }
  }

  lemma RecoveredRows(s: Books, t: Books, b: nat, amount: int, recovery: int)
    requires b < |s.cases| && Recovered(s, t, b, amount, recovery)
    ensures b < |t.cases| && t.cases[b].payout == ReleasedRow(s.cases[b].payout, amount, recovery, s.clock)
    ensures DebtsOf(t.debts, s.cases[b].seller) == Repay(DebtsOf(s.debts, s.cases[b].seller), recovery)
  {}
}
