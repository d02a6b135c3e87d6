/** Releasing a payout and booking a verified charge keep the invariant. */
module ReleaseSteps {
  import opened Common
  import opened Policy
  import opened Ledger
  import opened Recovery
  import opened Books
  import C = Cases
  import R = Refunds
  import opened CaseRules
  import opened BooksInvariant
  import opened MoneySteps

  // ---- releasePayout ----

  ghost predicate ReleaseDue(cfg: Config, now: int, c: C.Case) {
    c.payout.state == C.Scheduled && !C.OnHold(c) && C.ReleaseAt(cfg, c) <= now
  }

  /** What the released amount leaves: every refund charged to the payout is
      live and paid for, and a seller at fault has nothing to release. */
  lemma AmountLeavesRoom(cfg: Config, now: int, c: C.Case)
    requires Ok(cfg, now, c) && ReleaseDue(cfg, now, c)
    ensures var amount := c.payout.entitlement - R.LiveShares(c.refunds);
      && (forall i | 0 <= i < |c.refunds| ::
            c.refunds[i].liability == R.FromPayout ==> amount + c.refunds[i].seller == c.payout.entitlement)
      && amount <= c.payout.entitlement
      && (SellerAtFault(c) ==> amount == 0)
  {
    forall i | 0 <= i < |c.refunds| && c.refunds[i].liability == R.FromPayout
      ensures R.LiveShares(c.refunds) == c.refunds[i].seller
    {
      assert R.Live(c.refunds[i]);
      R.LiveSharesIs(c.refunds, i);
    }
    SumNonNegative(R.LiveShareOf(), c.refunds) by {
      assert forall i | 0 <= i < |c.refunds| :: RefundOk(c, c.refunds[i]);
    }
  }

  lemma NoRefsYet(cfg: Config, s: Books, b: nat)
    requires Inv(cfg, s) && b < |s.cases| && s.cases[b].payout.state in {C.Scheduled, C.Nothing}
    ensures forall ref | ref in s.transfers :: ref.booking != b
  {}

  lemma NothingKeeps(cfg: Config, s: Books, b: nat)
    requires Inv(cfg, s) && b < |s.cases| && ReleaseDue(cfg, s.clock, s.cases[b])
    ensures Inv(cfg, SetPayout(s, b, s.cases[b].payout.(state := C.Nothing, updatedAt := s.clock)))
  {
    var p := s.cases[b].payout.(state := C.Nothing, updatedAt := s.clock);
    assert Ok(cfg, s.clock, s.cases[b]);
    PayoutRowOk(cfg, s.clock, s.cases[b], p);
    NoRefsYet(cfg, s, b);
    UnpostedPayoutKeeps(cfg, s, b, p);
  }

  /** The row a release ends with: on its way, or paid when all of it went to debts. */
  function ReleasedRow(p: C.Payout, amount: int, recovery: int, now: int): C.Payout {
    var q := p.(state := C.Processing, amount := amount, recovery := recovery, updatedAt := now);
    if amount == recovery then PaidRow(q, 0, now) else q
  }

  lemma ReleasedRowOk(cfg: Config, now: int, c: C.Case, recovery: int)
    requires Ok(cfg, now, c) && ReleaseDue(cfg, now, c)
    requires var amount := c.payout.entitlement - R.LiveShares(c.refunds); 0 < amount && 0 <= recovery <= amount
    ensures var amount := c.payout.entitlement - R.LiveShares(c.refunds);
      var d := c.(payout := ReleasedRow(c.payout, amount, recovery, now));
      Ok(cfg, now, d) && Follows(c, d)
  {
    AmountLeavesRoom(cfg, now, c);
    var amount := c.payout.entitlement - R.LiveShares(c.refunds);
    PayoutRowOk(cfg, now, c, ReleasedRow(c.payout, amount, recovery, now));
  }

  lemma RecoveryCarries(c: C.Case, d: C.Case, amount: int, recovery: int, now: int)
    requires c.payout.state == C.Scheduled && d == c.(payout := ReleasedRow(c.payout, amount, recovery, now))
    requires c.payout.fees == 0 && amount >= recovery
    ensures Carries(c, d, RecoveryLines(c.seller, recovery))
    ensures forall x :: Effect(RecoveryLines(c.seller, recovery), Owed(x)) == (if x == c.seller then -recovery else 0)
  {
    var l1, l2 := Line(Payable(c.seller), Debit, recovery), Line(Owed(c.seller), Credit, recovery);
    forall x
      ensures -Effect([l1, l2], Payable(x)) == PayableOf(x)(d) - PayableOf(x)(c)
      ensures Effect([l1, l2], Owed(x)) == (if x == c.seller then -recovery else 0)
    {
      EffectTwo(l1, l2, Payable(x));
      EffectTwo(l1, l2, Owed(x));
    }
    EffectTwo(l1, l2, Receivable);
    EffectTwo(l1, l2, FeeRevenue);
    EffectTwo(l1, l2, FeeExpense);
  }

  /** The tables after a release that recovers something. */
  ghost predicate Recovered(s: Books, t: Books, b: nat, amount: int, recovery: int)
    requires b < |s.cases|
  {
    var c := s.cases[b];
    && recovery > 0
    && Post(s.journals, RecoverySource(b), RecoveryLines(c.seller, recovery)) == Some(t.journals)
    && t == s.(cases := s.cases[b := c.(payout := ReleasedRow(c.payout, amount, recovery, s.clock))],
               journals := t.journals,
               debts := s.debts[c.seller := Repay(DebtsOf(s.debts, c.seller), recovery)])
  }

  lemma RecoveredKeeps(cfg: Config, s: Books, t: Books, b: nat, amount: int, recovery: int)
    requires Inv(cfg, s) && b < |s.cases| && ReleaseDue(cfg, s.clock, s.cases[b])
    requires amount == s.cases[b].payout.entitlement - R.LiveShares(s.cases[b].refunds) && amount > 0
    requires recovery == Take(DebtsOf(s.debts, s.cases[b].seller), amount, cfg.recoveryBps)
    requires Recovered(s, t, b, amount, recovery)
    ensures Inv(cfg, t)
  {
    hide Linked, SourcesOk, Agrees, Sound, Postable, RecoveryLines;
    var c := s.cases[b];
    var ds := DebtsOf(s.debts, c.seller);
    var d := c.(payout := ReleasedRow(c.payout, amount, recovery, s.clock));
    assert Ok(cfg, s.clock, c);
    AmountLeavesRoom(cfg, s.clock, c);
    TakeExact(ds, amount, cfg.recoveryBps);
    RepayInOrder(ds, recovery);
    ReleasedRowOk(cfg, s.clock, c, recovery);
    RecoveryCarries(c, d, amount, recovery, s.clock);
    NoRefsYet(cfg, s, b);
    PostedMove(cfg, s, t, b, d, RecoverySource(b), RecoveryLines(c.seller, recovery));
  }

  lemma UnrecoveredKeeps(cfg: Config, s: Books, b: nat, amount: int)
    requires Inv(cfg, s) && b < |s.cases| && ReleaseDue(cfg, s.clock, s.cases[b])
    requires amount == s.cases[b].payout.entitlement - R.LiveShares(s.cases[b].refunds) && amount > 0
    ensures Inv(cfg, SetPayout(s, b, ReleasedRow(s.cases[b].payout, amount, 0, s.clock)))
  {
    assert Ok(cfg, s.clock, s.cases[b]);
    ReleasedRowOk(cfg, s.clock, s.cases[b], 0);
    NoRefsYet(cfg, s, b);
    UnpostedPayoutKeeps(cfg, s, b, ReleasedRow(s.cases[b].payout, amount, 0, s.clock));
  }

  /** What a release with something to pay does, besides being refused. */
  lemma ReleaseAmountOutcomes(cfg: Config, s: Books, b: nat, amount: int)
    requires b < |s.cases| && amount > 0
    ensures var t := ReleaseAmount(cfg, s, b, amount);
      var c := s.cases[b];
      var take := Take(DebtsOf(s.debts, c.seller), amount, cfg.recoveryBps);
      t == s || (if take > 0 then Recovered(s, t, b, amount, take)
                 else t == SetPayout(s, b, ReleasedRow(c.payout, amount, 0, s.clock)))
  {
    var c := s.cases[b];
    var recovery := Max0(Take(DebtsOf(s.debts, c.seller), amount, cfg.recoveryBps));
    var q := c.payout.(state := C.Processing, amount := amount, recovery := recovery, updatedAt := s.clock);
    if amount == recovery {
      assert PayoutLines(q, c.seller, 0) == [];
    }
  }

  lemma ReleaseKeeps(cfg: Config, s: Books, b: nat)
    requires Inv(cfg, s)
    ensures Inv(cfg, Release(cfg, s, b))
  {
    hide Inv, ReleaseAmount;
    if b < |s.cases| && ReleaseDue(cfg, s.clock, s.cases[b]) {
      var c := s.cases[b];
      var amount := c.payout.entitlement - R.LiveShares(c.refunds);
      if amount <= 0 {
        NothingKeeps(cfg, s, b);
      } else {
        ReleaseAmountKeeps(cfg, s, b, amount);
      }
    }
  }

  lemma ReleaseAmountKeeps(cfg: Config, s: Books, b: nat, amount: int)
    requires Inv(cfg, s) && b < |s.cases| && ReleaseDue(cfg, s.clock, s.cases[b])
    requires amount == s.cases[b].payout.entitlement - R.LiveShares(s.cases[b].refunds) && amount > 0
    ensures Inv(cfg, ReleaseAmount(cfg, s, b, amount))
  {
    var t := ReleaseAmount(cfg, s, b, amount);
    var take := Take(DebtsOf(s.debts, s.cases[b].seller), amount, cfg.recoveryBps);
    ReleaseAmountOutcomes(cfg, s, b, amount);
    if t == s {
    } else if take > 0 {
      RecoveredKeeps(cfg, s, t, b, amount, take);
    } else {
      UnrecoveredKeeps(cfg, s, b, amount);
    }
  }

  // ---- attempts and exceptions ----

  /** What no transaction changes about an attempt: quote, price, the
      platform's fee, and the booking once there is one. */
  ghost predicate SameDeal(p: Attempt, q: Attempt) {
    && q.quote == p.quote && q.expected - q.buyerFee == p.expected - p.buyerFee
    && q.platformFee == p.platformFee && (p.booking.Some? ==> q.booking == p.booking)
  }

  /** Changing one attempt row without changing the deal. */
  lemma AttemptKeeps(cfg: Config, s: Books, a: int, p: Attempt)
    requires Inv(cfg, s) && AttemptOk(cfg, p)
    requires a in s.attempts ==> SameDeal(s.attempts[a], p) && p.booking == s.attempts[a].booking
    requires a !in s.attempts ==> p.booking.None?
    ensures Inv(cfg, s.(attempts := s.attempts[a := p]))
  {
    hide Agrees, SourcesOk, ProviderOk, Sound, Ok, OldestFirst, UnbookedOk;
    var u := s.(attempts := s.attempts[a := p]);
    forall b | 0 <= b < |u.cases| ensures BookedBy(u, b) {
      assert BookedBy(s, b);
    }
    forall x | x in u.attempts ensures AttemptLinked(u, u.attempts[x], x) {
      assert x in s.attempts ==> AttemptLinked(s, s.attempts[x], x);
    }
    SourcesFrame(s, u);
    AgreesFrame(s, u);
    ProviderFrame(s, u);
  }

  lemma StartKeeps(cfg: Config, s: Books, a: int, quote: int, price: int)
    requires Inv(cfg, s)
    ensures Inv(cfg, Start(cfg, s, a, quote, price))
  {
    if Start(cfg, s, a, quote, price) != s {
      BasisPointsExact(price, cfg.feeBps);
      FeeWithinTwentieth(price, cfg.feeBps);
      AttemptKeeps(cfg, s, a, Attempt(quote, price, 0, BasisPoints(price, cfg.feeBps), AwaitingPayment, None));
    }
  }

  /** At most five percent is at most a twentieth. */
  lemma FeeWithinTwentieth(price: int, bps: int)
    requires price >= 0 && 0 <= bps <= 500
    ensures price * bps / 10000 <= price / 20
  {}

  lemma WithFeeKeeps(cfg: Config, s: Books, a: int, fee: int)
    requires Inv(cfg, s)
    ensures Inv(cfg, WithFee(s, a, fee))
  {
    hide Agrees, SourcesOk, ProviderOk, Sound, Ok, OldestFirst, UnbookedOk, Linked;
    if a in s.attempts && fee >= 0 {
      var p := s.attempts[a];
      AttemptKeeps(cfg, s, a, p.(expected := p.expected - p.buyerFee + fee, buyerFee := fee));
    }
  }

  lemma RecordExceptionKeeps(cfg: Config, s: Books, a: int, kind: Kind, amount: int)
    requires Inv(cfg, s) && a in s.attempts
    ensures Inv(cfg, RecordException(s, a, kind, amount))
  {
    var p := s.attempts[a].(state := Exceptional);
    AttemptKeeps(cfg, s, a, p);
    var s1 := s.(attempts := s.attempts[a := p]);
    var key := ExceptionKey(a, kind);
    if key !in s.exceptions {
      ExceptionRowKeeps(cfg, s1, key, Unbooked(amount, ExceptionOpen, []));
    }
  }

  lemma ReturnUnbookedKeeps(cfg: Config, s: Books, a: int, kind: Kind, amount: int)
    requires Inv(cfg, s)
    ensures Inv(cfg, ReturnUnbooked(cfg, s, a, kind, amount))
  {
    var key := ExceptionKey(a, kind);
    if key in s.exceptions {
      var u := s.exceptions[key];
      var row := UnbookedRefund(cfg, amount, s.clock);
      assert UnbookedOk(u);
      if R.Insert(u.refunds, row).Some? {
        R.InsertKeeps(u.refunds, row);
        ExceptionRowKeeps(cfg, s, key, u.(refunds := u.refunds + [row], state := if u.state == ExceptionOpen then AwaitingProvider else u.state));
      }
    }
  }

  lemma ExceptionRowKeeps(cfg: Config, s: Books, key: ExceptionKey, u: Unbooked)
    requires Inv(cfg, s) && UnbookedOk(u)
    ensures Inv(cfg, s.(exceptions := s.exceptions[key := u]))
  {
    var t := s.(exceptions := s.exceptions[key := u]);
    ProviderFrame(s, t);
    SameTables(cfg, s, t);
  }

  lemma ExceptionedKeeps(cfg: Config, s: Books, a: int, kind: Kind, amount: int)
    requires Inv(cfg, s) && a in s.attempts
    ensures Inv(cfg, Exceptioned(cfg, s, a, kind, amount))
  {
    RecordExceptionKeeps(cfg, s, a, kind, amount);
    ReturnUnbookedKeeps(cfg, RecordException(s, a, kind, amount), a, kind, amount);
  }

  // ---- applyVerifiedCharge: a new booking ----

  lemma {:induction false} QuoteSearch(cases: seq<C.Case>, quote: int)
    ensures var r := BookingForQuote(cases, quote);
      if r.Some? then r.value < |cases| && cases[r.value].quote == quote
      else forall b | 0 <= b < |cases| :: cases[b].quote != quote
  {
    if cases != [] {
      QuoteSearch(cases[..|cases| - 1], quote);
    }
  }

  lemma PaymentLinesEffect(p: Attempt, ch: Charge, seller: int, a: Account)
    ensures var entitlement := p.expected - p.buyerFee - p.platformFee;
      Effect(PaymentLines(p, ch, seller), a) ==
        On(a)(Line(Receivable, Debit, p.expected - ch.fee))
        + (if ch.fee > 0 then On(a)(Line(FeeExpense, Debit, ch.fee)) else 0)
        + (if p.platformFee + p.buyerFee > 0 then On(a)(Line(FeeRevenue, Credit, p.platformFee + p.buyerFee)) else 0)
        + (if entitlement > 0 then On(a)(Line(Payable(seller), Credit, entitlement)) else 0)
  {
    var entitlement := p.expected - p.buyerFee - p.platformFee;
    var l1 := Line(Receivable, Debit, p.expected - ch.fee);
    var l2 := Line(FeeExpense, Debit, ch.fee);
    var l3 := Line(FeeRevenue, Credit, p.platformFee + p.buyerFee);
    var l4 := Line(Payable(seller), Credit, entitlement);
    EffectFour([l1], When(ch.fee > 0, l2), When(p.platformFee + p.buyerFee > 0, l3), When(entitlement > 0, l4), a);
    EffectOne(l1, a);
    EffectWhen(ch.fee > 0, l2, a);
    EffectWhen(p.platformFee + p.buyerFee > 0, l3, a);
    EffectWhen(entitlement > 0, l4, a);
  }

  lemma NewCaseOk(cfg: Config, p: Attempt, a: int, ch: Charge, seller: int, start: int, duration: int, now: int)
    requires Valid(cfg) && AttemptOk(cfg, p) && duration >= 0
    ensures var c := NewCase(cfg, p, a, ch, seller, start, duration, now);
      && Ok(cfg, now, c)
      && OwedToSeller(c) == p.expected - p.buyerFee - p.platformFee
      && HeldAtProvider(c) == p.expected - ch.fee
      && EarnedWith(c) == p.platformFee + p.buyerFee && SpentOn(c) == ch.fee
  {}

  /** The payment journal credits the entitlement to one seller alone. */
  lemma BookedSellerAgrees(cfg: Config, s: Books, t: Books, a: int, ch: Charge, c: C.Case, lines: seq<Line>, x: int)
    requires SellerAgrees(s, x) && a in s.attempts && lines == PaymentLines(s.attempts[a], ch, c.seller)
    requires OwedToSeller(c) == s.attempts[a].expected - s.attempts[a].buyerFee - s.attempts[a].platformFee >= 0
    requires t.cases == s.cases + [c] && t.debts == s.debts
    requires t.journals == s.journals + [Journal(PaymentSource(a), lines)]
    ensures SellerAgrees(t, x)
  {
    hide PaymentLines;
    BalanceAfter(s.journals, PaymentSource(a), lines, Payable(x));
    BalanceAfter(s.journals, PaymentSource(a), lines, Owed(x));
    PaymentLinesEffect(s.attempts[a], ch, c.seller, Payable(x));
    PaymentLinesEffect(s.attempts[a], ch, c.seller, Owed(x));
    SumSnoc(PayableOf(x), s.cases, c);
  }

  /** Nor do the provider's and the platform's own accounts get anything else. */
  lemma BookedTotals(s: Books, t: Books, a: int, ch: Charge, c: C.Case)
    requires Agrees(s) && a in s.attempts && ch.fee >= 0
    requires var p := s.attempts[a];
      p.platformFee + p.buyerFee >= 0 && HeldAtProvider(c) == p.expected - ch.fee
      && EarnedWith(c) == p.platformFee + p.buyerFee && SpentOn(c) == ch.fee
    requires t.cases == s.cases + [c]
    requires t.journals == s.journals + [Journal(PaymentSource(a), PaymentLines(s.attempts[a], ch, c.seller))]
    ensures Balance(t.journals, Receivable) == Sum(HeldOf(), t.cases)
    ensures -Balance(t.journals, FeeRevenue) == Sum(EarnedOf(), t.cases)
    ensures Balance(t.journals, FeeExpense) == Sum(SpentOf(), t.cases)
  {
    hide SellerAgrees, PaymentLines, EarnedWith, HeldAtProvider, SpentOn, Balance;
    var lines := PaymentLines(s.attempts[a], ch, c.seller);
    BalanceAfter(s.journals, PaymentSource(a), lines, Receivable);
    BalanceAfter(s.journals, PaymentSource(a), lines, FeeRevenue);
    BalanceAfter(s.journals, PaymentSource(a), lines, FeeExpense);
    PaymentLinesEffect(s.attempts[a], ch, c.seller, Receivable);
    PaymentLinesEffect(s.attempts[a], ch, c.seller, FeeRevenue);
    PaymentLinesEffect(s.attempts[a], ch, c.seller, FeeExpense);
    SumSnoc(HeldOf(), s.cases, c);
    SumSnoc(EarnedOf(), s.cases, c);
    SumSnoc(SpentOf(), s.cases, c);
  }

  lemma BookedTables(cfg: Config, s: Books, t: Books, a: int, ch: Charge, seller: int, start: int, duration: int)
    requires a in s.attempts && !Posted(s.journals, PaymentSource(a))
    requires Book(cfg, s, a, ch, seller, start, duration) == Some(t)
    ensures t.cases == s.cases + [NewCase(cfg, s.attempts[a], a, ch, seller, start, duration, s.clock)] && t.debts == s.debts
    ensures t.journals == s.journals + [Journal(PaymentSource(a), PaymentLines(s.attempts[a], ch, seller))]
  {
    hide PaymentLines, Postable, Posted, NewCase;
  }

  lemma BookedAgrees(cfg: Config, s: Books, t: Books, a: int, ch: Charge, seller: int, start: int, duration: int)
    requires Agrees(s) && Valid(cfg) && a in s.attempts && AttemptOk(cfg, s.attempts[a]) && duration >= 0 && ch.fee >= 0
    requires Book(cfg, s, a, ch, seller, start, duration) == Some(t) && !Posted(s.journals, PaymentSource(a))
    ensures Agrees(t)
  {
    hide SellerAgrees, PaymentLines, Posted, Book, NewCase, Ok, EarnedWith, HeldAtProvider, SpentOn, OwedToSeller;
    var p := s.attempts[a];
    var c := NewCase(cfg, p, a, ch, seller, start, duration, s.clock);
    NewCaseOk(cfg, p, a, ch, seller, start, duration, s.clock);
    BookedTables(cfg, s, t, a, ch, seller, start, duration);
    NewCaseSeller(cfg, p, a, ch, seller, start, duration, s.clock);
    forall x ensures SellerAgrees(t, x) {
      BookedSellerAgrees(cfg, s, t, a, ch, c, PaymentLines(p, ch, seller), x);
    }
    BookedTotals(s, t, a, ch, c);
  }

  lemma NewCaseSeller(cfg: Config, p: Attempt, a: int, ch: Charge, seller: int, start: int, duration: int, now: int)
    ensures NewCase(cfg, p, a, ch, seller, start, duration, now).seller == seller
  {}

  lemma BookedRows(cfg: Config, s: Books, t: Books, a: int, ch: Charge, seller: int, start: int, duration: int)
    requires Valid(cfg) && RowsOk(cfg, s) && a in s.attempts && duration >= 0
    requires Book(cfg, s, a, ch, seller, start, duration) == Some(t)
    ensures RowsOk(cfg, t)
  {
    NewCaseOk(cfg, s.attempts[a], a, ch, seller, start, duration, s.clock);
  }

  lemma BookedLinked(cfg: Config, s: Books, t: Books, a: int, ch: Charge, seller: int, start: int, duration: int)
    requires Linked(s) && a in s.attempts && s.attempts[a].booking.None?
    requires BookingForQuote(s.cases, s.attempts[a].quote).None?
    requires Book(cfg, s, a, ch, seller, start, duration) == Some(t)
    ensures Linked(t)
  {
    QuoteSearch(s.cases, s.attempts[a].quote);
    forall b | 0 <= b < |t.cases| ensures BookedBy(t, b) {
      if b < |s.cases| {
        assert BookedBy(s, b);
      }
    }
    forall x | x in t.attempts ensures AttemptLinked(t, t.attempts[x], x) {
      assert AttemptLinked(s, s.attempts[x], x);
    }
  }

  lemma BookedProvider(s: Books, t: Books, c: C.Case)
    requires ProviderOk(s) && t.transfers == s.transfers && t.cases == s.cases + [c] && c.payout.state == C.Scheduled
    ensures ProviderOk(t)
  {
    forall b | 0 <= b < |t.cases| ensures Backed(t, b) {
      if b < |s.cases| {
        assert Backed(s, b);
      }
    }
    forall ref | ref in t.transfers ensures TransferLinked(t, ref) {
      assert TransferLinked(s, ref);
    }
  }

  lemma BookedSources(s: Books, t: Books, c: C.Case, a: int, lines: seq<Line>)
    requires SourcesOk(s) && t.cases == s.cases + [c] && t.journals == s.journals + [Journal(PaymentSource(a), lines)]
    requires forall x | x in s.attempts :: x in t.attempts && (s.attempts[x].booking.Some? ==> t.attempts[x].booking.Some?)
    requires a in t.attempts && t.attempts[a].booking.Some?
    ensures SourcesOk(t)
  {}

  lemma BookKeeps(cfg: Config, s: Books, t: Books, a: int, ch: Charge, seller: int, start: int, duration: int)
    requires Inv(cfg, s) && a in s.attempts && s.attempts[a].booking.None? && duration >= 0 && ch.fee >= 0
    requires BookingForQuote(s.cases, s.attempts[a].quote).None?
    requires Book(cfg, s, a, ch, seller, start, duration) == Some(t)
    ensures Inv(cfg, t)
  {
    var p := s.attempts[a];
    var c := NewCase(cfg, p, a, ch, seller, start, duration, s.clock);
    UsedSource(s, PaymentSource(a));
    BookedAgrees(cfg, s, t, a, ch, seller, start, duration);
    BookedRows(cfg, s, t, a, ch, seller, start, duration);
    BookedLinked(cfg, s, t, a, ch, seller, start, duration);
    BookedProvider(s, t, c);
    BookedSources(s, t, c, a, PaymentLines(p, ch, seller));
    PostKeepsSound(s.journals, PaymentSource(a), PaymentLines(p, ch, seller));
  }
}
