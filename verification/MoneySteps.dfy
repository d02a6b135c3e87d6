/** The steps that move money keep the invariant: each posts exactly the change
    it makes to the rows, under a source nobody has used. */
module MoneySteps {
  import opened Common
  import opened Policy
  import opened Ledger
  import opened Recovery
  import opened Books
  import C = Cases
  import R = Refunds
  import opened CaseRules
  import opened BooksInvariant

  // ---- finalizeRefund ----

  function Finished(c: C.Case, i: nat, now: int): C.Case
    requires i < |c.refunds|
  {
    c.(refunds := c.refunds[i := c.refunds[i].(state := R.Processed, updatedAt := now)],
       payment := if c.refunds[i].amount >= c.gross then C.FullyRefunded else C.PartiallyRefunded)
  }

  lemma FinishedOk(cfg: Config, now: int, c: C.Case, i: nat)
    requires Ok(cfg, now, c) && R.Finish(c.refunds, i, now).Some?
    ensures var d := Finished(c, i, now);
      && Ok(cfg, now, d) && Follows(c, d) && d.payout == c.payout
      && R.ProcessedShares(d.refunds) == R.ProcessedShares(c.refunds)
           + (if c.refunds[i].liability == R.FromPayout then c.refunds[i].seller else 0)
      && R.ProcessedAmount(d.refunds) == R.ProcessedAmount(c.refunds) + c.refunds[i].amount
      && R.ProcessedPlatform(d.refunds) == R.ProcessedPlatform(c.refunds) + c.refunds[i].platform
  {
    var rs := R.Finish(c.refunds, i, now).value;
    R.FinishKeeps(c.refunds, i, now);
    GrownKeepsRows(c, rs);
    SumUpdate(R.ProcessedShareOf(), c.refunds, i, rs[i]);
    SumUpdate(R.ProcessedAmountOf(), c.refunds, i, rs[i]);
    SumUpdate(R.ProcessedPlatformOf(), c.refunds, i, rs[i]);
  }

  lemma RefundLinesEffect(r: R.Refund, seller: int, a: Account)
    ensures Effect(RefundLines(r, seller), a) ==
      On(a)(Line(Receivable, Credit, r.amount))
      + (if r.platform > 0 then On(a)(Line(FeeRevenue, Debit, r.platform)) else 0)
      + (if r.seller > 0 then On(a)(Line(if r.liability == R.FromPayout then Payable(seller) else Owed(seller), Debit, r.seller)) else 0)
  {
    var l1 := [Line(Receivable, Credit, r.amount)];
    var l2 := When(r.platform > 0, Line(FeeRevenue, Debit, r.platform));
    var sl := Line(if r.liability == R.FromPayout then Payable(seller) else Owed(seller), Debit, r.seller);
    var l3 := When(r.seller > 0, sl);
    EffectFour(l1, l2, l3, [], a);
    assert l1 + l2 + l3 + [] == RefundLines(r, seller);
    EffectOne(l1[0], a);
    EffectWhen(r.platform > 0, Line(FeeRevenue, Debit, r.platform), a);
    EffectWhen(r.seller > 0, sl, a);
  }

  lemma DebtsAfterRefund(s: Books, seller: int, b: nat, i: nat, r: R.Refund, x: int)
    requires forall y | y in s.debts :: OldestFirst(s.debts[y])
    requires r.seller >= 0
    ensures var debts := Incurred(s.debts, seller, b, i, r);
      && OldestFirst(DebtsOf(debts, x))
      && Outstanding(DebtsOf(debts, x)) - Outstanding(DebtsOf(s.debts, x))
           == if x == seller && r.liability == R.OwedBack then r.seller else 0
  {}

  lemma RefundCarries(c: C.Case, d: C.Case, r: R.Refund)
    requires d.seller == c.seller && d.payout == c.payout && d.received == c.received
    requires d.gross == c.gross && d.deduction == c.deduction && d.buyerFee == c.buyerFee
    requires r.seller >= 0 && r.amount > 0 && r.platform >= 0
    requires R.ProcessedShares(d.refunds) == R.ProcessedShares(c.refunds) + (if r.liability == R.FromPayout then r.seller else 0)
    requires R.ProcessedAmount(d.refunds) == R.ProcessedAmount(c.refunds) + r.amount
    requires R.ProcessedPlatform(d.refunds) == R.ProcessedPlatform(c.refunds) + r.platform
    ensures Carries(c, d, RefundLines(r, c.seller))
    ensures forall x :: Effect(RefundLines(r, c.seller), Owed(x)) == (if x == c.seller && r.liability == R.OwedBack then r.seller else 0)
  {
    forall x
      ensures -Effect(RefundLines(r, c.seller), Payable(x)) == PayableOf(x)(d) - PayableOf(x)(c)
      ensures Effect(RefundLines(r, c.seller), Owed(x)) == (if x == c.seller && r.liability == R.OwedBack then r.seller else 0)
    {
      RefundLinesEffect(r, c.seller, Payable(x));
      RefundLinesEffect(r, c.seller, Owed(x));
    }
    RefundLinesEffect(r, c.seller, Receivable);
    RefundLinesEffect(r, c.seller, FeeRevenue);
    RefundLinesEffect(r, c.seller, FeeExpense);
  }

  lemma UsedSource(s: Books, source: Source)
    requires SourcesOk(s)
    ensures Posted(s.journals, source) ==> SourceOk(s, source)
  {}

  /** The common shape of every posting step on one booking: the rows of b
      become d, the change is posted under a source the rows say is unused. */
  lemma PostedMove(cfg: Config, s: Books, t: Books, b: nat, d: C.Case, source: Source, lines: seq<Line>)
    requires Inv(cfg, s) && CaseChange(cfg, s, t, b, d) && t.transfers == s.transfers
    requires forall x | x in t.debts :: OldestFirst(t.debts[x])
    requires Post(s.journals, source, lines) == Some(t.journals)
    requires !SourceOk(s, source) && SourceOk(t, source)
    requires Carries(s.cases[b], d, lines)
    requires forall x :: Effect(lines, Owed(x)) == Outstanding(DebtsOf(t.debts, x)) - Outstanding(DebtsOf(s.debts, x))
    requires forall ref | ref in s.transfers && ref.booking == b :: TransferOk(d.payout, ref.generation, s.transfers[ref])
    requires Backed(t, b)
    ensures Inv(cfg, t)
  {
    UsedSource(s, source);
    RowsKept(cfg, s, t, b, d);
    ProviderKept(cfg, s, t, b, d);
    PostKeepsSound(s.journals, source, lines);
    SourcesGrown(cfg, s, t, b, d, source, lines);
    AgreesPosted(s, t, b, d, source, lines);
  }

  lemma RefsOfKept(cfg: Config, s: Books, b: nat)
    requires Inv(cfg, s) && b < |s.cases|
    ensures forall ref | ref in s.transfers && ref.booking == b :: TransferOk(s.cases[b].payout, ref.generation, s.transfers[ref])
  {}

  lemma FinalizeKeeps(cfg: Config, s: Books, b: nat, i: nat)
    requires Inv(cfg, s)
    ensures Inv(cfg, Finalize(s, b, i))
  {
    var t := Finalize(s, b, i);
    if t != s {
      var c := s.cases[b];
      var r := c.refunds[i];
      var d := Finished(c, i, s.clock);
      assert Ok(cfg, s.clock, c) && RefundOk(c, r);
      FinishedOk(cfg, s.clock, c, i);
      RefundCarries(c, d, r);
      forall x ensures OldestFirst(DebtsOf(t.debts, x))
        && Outstanding(DebtsOf(t.debts, x)) - Outstanding(DebtsOf(s.debts, x)) == Effect(RefundLines(r, c.seller), Owed(x)) {
        DebtsAfterRefund(s, c.seller, b, i, r, x);
      }
      assert forall x | x in t.debts :: t.debts[x] == DebtsOf(t.debts, x);
      RefsOfKept(cfg, s, b);
      assert Backed(s, b);
      PostedMove(cfg, s, t, b, d, RefundSource(b, i), RefundLines(r, c.seller));
    }
  }

  // ---- payout rows ----

  /** Replacing the payout row alone keeps the booking's rules. */
  lemma PayoutRowOk(cfg: Config, now: int, c: C.Case, p: C.Payout)
    requires Ok(cfg, now, c) && PayoutOk(p) && p.entitlement == c.payout.entitlement
    requires p.state != C.Scheduled && p.fundsAt == c.payout.fundsAt
    requires now >= C.Ends(c) + cfg.payoutDelay * C.MINUTE && now >= p.fundsAt
    requires !C.ProblemHolds(c) && !C.NoShowHolds(c)
    requires p.state in {C.Processing, C.Paid, C.PayoutFailed} ==>
      !SellerAtFault(c) && forall i | 0 <= i < |c.refunds| ::
        c.refunds[i].liability == R.FromPayout ==> p.amount + c.refunds[i].seller <= p.entitlement
    ensures var d := c.(payout := p); Ok(cfg, now, d) && Follows(c, d)
  {}

  /** A released payout's row may be replaced by another with the same amount. */
  lemma NextPayoutOk(cfg: Config, now: int, c: C.Case, p: C.Payout)
    requires Ok(cfg, now, c) && PayoutOk(p) && Owing(c)
    requires p == c.payout.(state := p.state, generation := p.generation, fees := p.fees, updatedAt := p.updatedAt)
    requires p.state in {C.Processing, C.Paid, C.PayoutFailed}
    ensures var d := c.(payout := p); Ok(cfg, now, d) && Follows(c, d)
  {}

  lemma PayoutLinesEffect(p: C.Payout, seller: int, fee: int, a: Account)
    ensures var net := p.amount - p.recovery;
      Effect(PayoutLines(p, seller, fee), a) ==
        (if net > 0 then On(a)(Line(Payable(seller), Debit, net)) + On(a)(Line(Receivable, Credit, net)) else 0)
        + (if fee > 0 then On(a)(Line(FeeExpense, Debit, fee)) + On(a)(Line(Receivable, Credit, fee)) else 0)
  {
    var net := p.amount - p.recovery;
    EffectFour(When(net > 0, Line(Payable(seller), Debit, net)), When(net > 0, Line(Receivable, Credit, net)),
      When(fee > 0, Line(FeeExpense, Debit, fee)), When(fee > 0, Line(Receivable, Credit, fee)), a);
    EffectWhen(net > 0, Line(Payable(seller), Debit, net), a);
    EffectWhen(net > 0, Line(Receivable, Credit, net), a);
    EffectWhen(fee > 0, Line(FeeExpense, Debit, fee), a);
    EffectWhen(fee > 0, Line(Receivable, Credit, fee), a);
  }

  /** The tables and provider agree that b's current transfer was delivered, or
      that there is nothing to send. */
  ghost predicate MayBePaid(s: Books, b: nat)
    requires b < |s.cases|
  {
    var p := s.cases[b].payout;
    p.amount > p.recovery ==> Ref(b, p.generation) in s.transfers && s.transfers[Ref(b, p.generation)].status == Delivered
  }

  lemma MarkPaidKeeps(cfg: Config, s: Books, b: nat, fee: int)
    requires Inv(cfg, s) && b < |s.cases| && s.cases[b].payout.state == C.Processing && MayBePaid(s, b)
    ensures var r := MarkPaid(s, b, fee); r.Some? ==> Inv(cfg, r.value)
  {
    var r := MarkPaid(s, b, fee);
    if r.Some? {
      var c := s.cases[b];
      assert Ok(cfg, s.clock, c);
      var d := c.(payout := PaidRow(c.payout, fee, s.clock));
      MarkPaidMoves(cfg, s, r.value, b, d, fee);
    }
  }

  lemma PaidCarries(c: C.Case, d: C.Case, fee: int, now: int)
    requires c.payout.state == C.Processing && c.payout.amount > c.payout.recovery
    requires d == c.(payout := PaidRow(c.payout, fee, now))
    ensures var lines := PayoutLines(c.payout, c.seller, fee);
      Carries(c, d, lines) && forall x :: Effect(lines, Owed(x)) == 0
  {
    hide PayoutLines;
    var lines := PayoutLines(c.payout, c.seller, fee);
    forall x ensures -Effect(lines, Payable(x)) == PayableOf(x)(d) - PayableOf(x)(c) && Effect(lines, Owed(x)) == 0 {
      PayoutLinesEffect(c.payout, c.seller, fee, Payable(x));
      PayoutLinesEffect(c.payout, c.seller, fee, Owed(x));
    }
    PayoutLinesEffect(c.payout, c.seller, fee, Receivable);
    PayoutLinesEffect(c.payout, c.seller, fee, FeeRevenue);
    PayoutLinesEffect(c.payout, c.seller, fee, FeeExpense);
  }

  lemma PaidRefs(cfg: Config, s: Books, b: nat, fee: int)
    requires Inv(cfg, s) && b < |s.cases| && s.cases[b].payout.state == C.Processing && MayBePaid(s, b)
    ensures forall ref | ref in s.transfers && ref.booking == b ::
      TransferOk(PaidRow(s.cases[b].payout, fee, s.clock), ref.generation, s.transfers[ref])
  {}

  lemma MarkPaidMoves(cfg: Config, s: Books, t: Books, b: nat, d: C.Case, fee: int)
    requires Inv(cfg, s) && b < |s.cases| && s.cases[b].payout.state == C.Processing && MayBePaid(s, b)
    requires MarkPaid(s, b, fee) == Some(t) && d == s.cases[b].(payout := PaidRow(s.cases[b].payout, fee, s.clock))
    ensures Inv(cfg, t)
  {
    var c := s.cases[b];
    assert Ok(cfg, s.clock, c);
    NextPayoutOk(cfg, s.clock, c, d.payout);
    PaidCarries(c, d, fee, s.clock);
    PaidRefs(cfg, s, b, fee);
    PostedMove(cfg, s, t, b, d, PayoutSource(b, c.payout.generation), PayoutLines(c.payout, c.seller, fee));
  }

  /** Failing, retrying: the row changes and nothing is posted. */
  lemma UnpostedPayoutKeeps(cfg: Config, s: Books, b: nat, p: C.Payout)
    requires Inv(cfg, s) && b < |s.cases|
    requires var d := s.cases[b].(payout := p); Ok(cfg, s.clock, d) && Follows(s.cases[b], d)
    requires PayoutLater(s.cases[b].payout, p)
    requires PaidOut(p) == PaidOut(s.cases[b].payout) && SentNet(p) == SentNet(s.cases[b].payout) && p.fees == s.cases[b].payout.fees
    requires forall ref | ref in s.transfers && ref.booking == b :: TransferOk(p, ref.generation, s.transfers[ref])
    requires p.state != C.Paid
    ensures Inv(cfg, SetPayout(s, b, p))
  {
    var t := SetPayout(s, b, p);
    var d := s.cases[b].(payout := p);
    assert CaseChange(cfg, s, t, b, d);
    RowsKept(cfg, s, t, b, d);
    SourcesKept(cfg, s, t, b, d);
    AgreesUnposted(s, t, b, d);
    assert forall ref | ref in s.transfers :: TransferLinked(s, ref);
    ProviderKept(cfg, s, t, b, d);
  }

  lemma FailKeeps(cfg: Config, s: Books, b: nat)
    requires Inv(cfg, s) && b < |s.cases| && s.cases[b].payout.state == C.Processing
    requires var ref := Ref(b, s.cases[b].payout.generation); ref in s.transfers ==> Dead(s.transfers[ref])
    ensures Inv(cfg, Fail(s, b))
  {
    var c := s.cases[b];
    var p := c.payout.(state := C.PayoutFailed, updatedAt := s.clock);
    assert Ok(cfg, s.clock, c);
    NextPayoutOk(cfg, s.clock, c, p);
    forall ref | ref in s.transfers && ref.booking == b ensures TransferOk(p, ref.generation, s.transfers[ref]) {
      assert TransferLinked(s, ref);
      if ref.generation == p.generation {
        assert ref == Ref(b, p.generation);
      }
    }
    UnpostedPayoutKeeps(cfg, s, b, p);
  }

  lemma RetryKeeps(cfg: Config, s: Books, b: nat, automatic: bool)
    requires Inv(cfg, s)
    ensures Inv(cfg, RetryPayout(s, b, automatic))
  {
    var t := RetryPayout(s, b, automatic);
    if b < |s.cases| && s.cases[b].payout.state == C.PayoutFailed && t == SetPayout(s, b, Retried(s.cases[b].payout, s.clock)) {
      RetriedKeeps(cfg, s, b);
    } else {
      assert t == s;
    }
  }

  lemma RetriedKeeps(cfg: Config, s: Books, b: nat)
    requires Inv(cfg, s) && b < |s.cases| && s.cases[b].payout.state == C.PayoutFailed
    ensures Inv(cfg, SetPayout(s, b, Retried(s.cases[b].payout, s.clock)))
  {
    var c := s.cases[b];
    assert Ok(cfg, s.clock, c);
    NextPayoutOk(cfg, s.clock, c, Retried(c.payout, s.clock));
    RefsOfKept(cfg, s, b);
    UnpostedPayoutKeeps(cfg, s, b, Retried(c.payout, s.clock));
  }

  lemma ApplyStatusKeeps(cfg: Config, s: Books, b: nat)
    requires Inv(cfg, s) && b < |s.cases| && s.cases[b].payout.state == C.Processing
    requires Ref(b, s.cases[b].payout.generation) in s.transfers
    ensures Inv(cfg, ApplyStatus(s, b, s.transfers[Ref(b, s.cases[b].payout.generation)]))
  {
    var t := s.transfers[Ref(b, s.cases[b].payout.generation)];
    match t.status
    case Delivered => MarkPaidKeeps(cfg, s, b, t.fee);
    case InFlight =>
    case Refused => FailKeeps(cfg, s, b);
    case Returned => FailKeeps(cfg, s, b);
  }

  /** The provider accepts the current reference of a processing payout. */
  lemma AcceptKeeps(cfg: Config, s: Books, b: nat, t: Transfer)
    requires Inv(cfg, s) && b < |s.cases| && s.cases[b].payout.state == C.Processing
    ensures Inv(cfg, s.(transfers := s.transfers[Ref(b, s.cases[b].payout.generation) := t]))
  {
    var ref := Ref(b, s.cases[b].payout.generation);
    var u := s.(transfers := s.transfers[ref := t]);
    assert Ok(cfg, s.clock, s.cases[b]);
    forall r | r in u.transfers ensures TransferLinked(u, r) {
      if r != ref {
        assert TransferLinked(s, r);
      }
    }
    forall k | 0 <= k < |u.cases| ensures Backed(u, k) {
      assert Backed(s, k);
    }
    SameTables(cfg, s, u);
  }

  /** Changing only the provider's side, accounts, exceptions or clock. */
  lemma SameTables(cfg: Config, s: Books, u: Books)
    requires Inv(cfg, s) && u == s.(transfers := u.transfers, accounts := u.accounts, exceptions := u.exceptions, clock := u.clock)
    requires ProviderOk(u) && u.clock >= s.clock
    requires forall k | k in u.exceptions :: UnbookedOk(u.exceptions[k])
    ensures Inv(cfg, u)
  {
    forall b | 0 <= b < |u.cases| ensures Ok(cfg, u.clock, u.cases[b]) && BookedBy(u, b) {
      assert Ok(cfg, s.clock, s.cases[b]) && BookedBy(s, b);
    }
    forall a | a in u.attempts ensures AttemptLinked(u, u.attempts[a], a) {
      assert AttemptLinked(s, s.attempts[a], a);
    }
    SourcesFrame(s, u);
    AgreesFrame(s, u);
  }

  lemma SendKeeps(cfg: Config, s: Books, b: nat, lookup: bool, readable: bool, reply: Reply)
    requires Inv(cfg, s)
    ensures Inv(cfg, Send(s, b, lookup, readable, reply))
  {
    if b < |s.cases| && s.cases[b].payout.state == C.Processing && lookup {
      var ref := Ref(b, s.cases[b].payout.generation);
      if ref in s.transfers {
        ApplyStatusKeeps(cfg, s, b);
      } else if !readable || reply.Rejected? {
        FailKeeps(cfg, s, b);
      } else if reply.AcceptedSilently? || reply.AcceptedSeen? {
        AcceptKeeps(cfg, s, b, reply.t);
        if reply.AcceptedSeen? {
          ApplyStatusKeeps(cfg, s.(transfers := s.transfers[ref := reply.t]), b);
        }
      }
    }
  }

  lemma ProviderMovesKeeps(cfg: Config, s: Books, ref: Ref, t: Transfer)
    requires Inv(cfg, s) && ref in s.transfers && TransferMoves(s.transfers[ref], t)
    ensures Inv(cfg, s.(transfers := s.transfers[ref := t]))
  {
    hide Linked, SourcesOk, Agrees, Sound, Ok, OldestFirst;
    var u := s.(transfers := s.transfers[ref := t]);
    forall r | r in u.transfers ensures TransferLinked(u, r) {
      assert TransferLinked(s, r);
    }
    forall k | 0 <= k < |u.cases| ensures Backed(u, k) {
      assert Backed(s, k);
    }
    SameTables(cfg, s, u);
  }

  // ---- checkPayoutReversal ----

  function ReversalLines(seller: int, net: int): seq<Line> {
    [Line(Receivable, Debit, net), Line(Payable(seller), Credit, net)]
  }

  lemma ReversalCarries(c: C.Case, d: C.Case, now: int)
    requires c.payout.state == C.Paid
    requires d == c.(payout := c.payout.(state := C.PayoutFailed, updatedAt := now))
    ensures var lines := ReversalLines(c.seller, c.payout.amount - c.payout.recovery);
      Carries(c, d, lines) && forall x :: Effect(lines, Owed(x)) == 0
  {
    var net := c.payout.amount - c.payout.recovery;
    var l1, l2 := Line(Receivable, Debit, net), Line(Payable(c.seller), Credit, net);
    forall x ensures -Effect([l1, l2], Payable(x)) == PayableOf(x)(d) - PayableOf(x)(c) && Effect([l1, l2], Owed(x)) == 0 {
      EffectTwo(l1, l2, Payable(x));
      EffectTwo(l1, l2, Owed(x));
    }
    EffectTwo(l1, l2, Receivable);
    EffectTwo(l1, l2, FeeRevenue);
    EffectTwo(l1, l2, FeeExpense);
  }

  lemma ReverseKeeps(cfg: Config, s: Books, b: nat)
    requires Inv(cfg, s)
    ensures Inv(cfg, Reverse(s, b))
  {
    var t := Reverse(s, b);
    if t != s {
      var c := s.cases[b];
      var p := c.payout.(state := C.PayoutFailed, updatedAt := s.clock);
      var d := c.(payout := p);
      var ref := Ref(b, c.payout.generation);
      assert Ok(cfg, s.clock, c) && TransferLinked(s, ref);
      NextPayoutOk(cfg, s.clock, c, p);
      ReversalCarries(c, d, s.clock);
      RefsOfKept(cfg, s, b);
      forall r | r in s.transfers && r.booking == b ensures TransferOk(p, r.generation, s.transfers[r]) {
        if r.generation == p.generation {
          assert r == ref;
        }
      }
      PostedMove(cfg, s, t, b, d, ReversalSource(b, c.payout.generation), ReversalLines(c.seller, c.payout.amount - c.payout.recovery));
    }
  }
}
