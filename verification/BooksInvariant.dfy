/** What holds of the money tables, the ledger and the provider in every
    reachable state, and that every step keeps it. */
module BooksInvariant {
  import opened Common
  import opened Policy
  import opened Ledger
  import opened Recovery
  import opened Books
  import C = Cases
  import R = Refunds
  import opened CaseRules

  // ---- the sub-ledger: what each booking's rows say is owed and held ----

  /** What the payout has taken from the seller's payable so far. */
  function PaidOut(p: C.Payout): int {
    if p.state == C.Paid then p.amount
    else if p.state == C.Processing || p.state == C.PayoutFailed then p.recovery
    else 0
  }

  /** The net amount a paid payout has sent. */
  function SentNet(p: C.Payout): int { if p.state == C.Paid then p.amount - p.recovery else 0 }

  ghost function OwedToSeller(c: C.Case): int {
    c.payout.entitlement - R.ProcessedShares(c.refunds) - PaidOut(c.payout)
  }

  ghost function HeldAtProvider(c: C.Case): int {
    c.received - R.ProcessedAmount(c.refunds) - SentNet(c.payout) - c.payout.fees
  }

  /** What the platform has earned with a booking: its own fee and the buyer's,
      less its part of processed refunds. */
  ghost function EarnedWith(c: C.Case): int { c.deduction + c.buyerFee - R.ProcessedPlatform(c.refunds) }

  /** What a booking has cost: the processor's fee and those of transfers. */
  function SpentOn(c: C.Case): int { c.gross + c.buyerFee - c.received + c.payout.fees }

  ghost function PayableOf(seller: int): C.Case -> int {
    (c: C.Case) => if c.seller == seller then OwedToSeller(c) else 0
  }

  ghost function HeldOf(): C.Case -> int { (c: C.Case) => HeldAtProvider(c) }

  ghost function EarnedOf(): C.Case -> int { (c: C.Case) => EarnedWith(c) }

  ghost function SpentOf(): C.Case -> int { (c: C.Case) => SpentOn(c) }

  /** Ledger equals sub-ledger, on every account there is. */
  ghost predicate SellerAgrees(s: Books, seller: int) {
    && -Balance(s.journals, Payable(seller)) == Sum(PayableOf(seller), s.cases)
    && Balance(s.journals, Owed(seller)) == Outstanding(DebtsOf(s.debts, seller))
  }

  ghost predicate Agrees(s: Books) {
    && (forall seller :: SellerAgrees(s, seller))
    && Balance(s.journals, Receivable) == Sum(HeldOf(), s.cases)
    && -Balance(s.journals, FeeRevenue) == Sum(EarnedOf(), s.cases)
    && Balance(s.journals, FeeExpense) == Sum(SpentOf(), s.cases)
  }

  // ---- the rows themselves and the links between tables ----

  ghost predicate AttemptOk(cfg: Config, p: Attempt) {
    && p.buyerFee >= 0
    && 0 < p.expected - p.buyerFee <= MAX_PRICE
    && 0 <= p.platformFee <= (p.expected - p.buyerFee) / 20
  }

  /** The booking and its attempt name each other and agree on the quote, the
      price and the platform's fee. */
  ghost predicate BookedBy(s: Books, b: nat)
    requires b < |s.cases|
  {
    var a := s.cases[b].attempt;
    && a in s.attempts && s.attempts[a].booking == Some(b) && s.attempts[a].quote == s.cases[b].quote
    && s.attempts[a].expected - s.attempts[a].buyerFee == s.cases[b].gross
    && s.attempts[a].platformFee == s.cases[b].deduction
  }

  ghost predicate AttemptLinked(s: Books, p: Attempt, a: int) {
    p.booking.Some? ==> p.booking.value < |s.cases| && s.cases[p.booking.value].attempt == a
  }

  ghost predicate Linked(s: Books) {
    && (forall b | 0 <= b < |s.cases| :: BookedBy(s, b))
    && (forall a | a in s.attempts :: AttemptLinked(s, s.attempts[a], a))
    && (forall b, d | 0 <= b < d < |s.cases| :: s.cases[b].quote != s.cases[d].quote)
  }

  /** What a payout row says about one of its references at the provider. */
  ghost predicate TransferOk(p: C.Payout, generation: int, t: Transfer) {
    && 1 <= generation <= p.generation
    && p.state in {C.Processing, C.Paid, C.PayoutFailed}
    && p.amount > p.recovery
    && (generation < p.generation || p.state == C.PayoutFailed ==> Dead(t))
    && (generation == p.generation && p.state == C.Paid ==> t.status == Delivered || t.status == Returned)
  }

  ghost predicate TransferLinked(s: Books, ref: Ref)
    requires ref in s.transfers
  {
    ref.booking < |s.cases| && TransferOk(s.cases[ref.booking].payout, ref.generation, s.transfers[ref])
  }

  ghost predicate Backed(s: Books, b: nat)
    requires b < |s.cases|
  {
    var p := s.cases[b].payout;
    p.state == C.Paid && p.amount > p.recovery ==> Ref(b, p.generation) in s.transfers
  }

  ghost predicate ProviderOk(s: Books) {
    && (forall ref | ref in s.transfers :: TransferLinked(s, ref))
    && (forall b | 0 <= b < |s.cases| :: Backed(s, b))
  }

  /** Which rows a posted source speaks about: no source can be posted again. */
  ghost predicate SourceOk(s: Books, source: Source) {
    match source
    case PaymentSource(a) => a in s.attempts && s.attempts[a].booking.Some?
    case RecoverySource(b) => b < |s.cases| && Owing(s.cases[b])
    case PayoutSource(b, g) =>
      b < |s.cases| && (g < s.cases[b].payout.generation
        || (g == s.cases[b].payout.generation && s.cases[b].payout.state in {C.Paid, C.PayoutFailed}))
    case ReversalSource(b, g) =>
      b < |s.cases| && (g < s.cases[b].payout.generation
        || (g == s.cases[b].payout.generation && s.cases[b].payout.state == C.PayoutFailed))
    case RefundSource(b, i) =>
      b < |s.cases| && i < |s.cases[b].refunds| && s.cases[b].refunds[i].state == R.Processed
  }

  ghost predicate SourcesOk(s: Books) {
    forall j | 0 <= j < |s.journals| :: SourceOk(s, s.journals[j].source)
  }

  ghost predicate UnbookedOk(u: Unbooked) { R.OneLive(u.refunds) }

  ghost predicate RowsOk(cfg: Config, s: Books) {
    && (forall b | 0 <= b < |s.cases| :: Ok(cfg, s.clock, s.cases[b]))
    && (forall a | a in s.attempts :: AttemptOk(cfg, s.attempts[a]))
    && (forall x | x in s.debts :: OldestFirst(s.debts[x]))
    && (forall k | k in s.exceptions :: UnbookedOk(s.exceptions[k]))
  }

  ghost predicate Inv(cfg: Config, s: Books) {
    && Valid(cfg)
    && RowsOk(cfg, s)
    && Linked(s)
    && ProviderOk(s)
    && Sound(s.journals)
    && SourcesOk(s)
    && Agrees(s)
  }

  lemma InitialInv(cfg: Config, clock: int)
    requires Valid(cfg)
    ensures Inv(cfg, Initial(clock))
  {}

  // ---- what does not change when a table it does not read changes ----

  lemma AgreesFrame(s: Books, u: Books)
    requires Agrees(s) && u.journals == s.journals && u.cases == s.cases && u.debts == s.debts
    ensures Agrees(u)
  {
    forall x ensures SellerAgrees(u, x) {
      assert SellerAgrees(s, x);
    }
  }

  lemma ProviderFrame(s: Books, u: Books)
    requires ProviderOk(s) && u.cases == s.cases && u.transfers == s.transfers
    ensures ProviderOk(u)
  {
    forall b | 0 <= b < |u.cases| ensures Backed(u, b) {
      assert Backed(s, b);
    }
    forall ref | ref in u.transfers ensures TransferLinked(u, ref) {
      assert TransferLinked(s, ref);
    }
  }

  lemma SourcesFrame(s: Books, u: Books)
    requires SourcesOk(s) && u.journals == s.journals && u.cases == s.cases
    requires forall a | a in s.attempts :: a in u.attempts && (s.attempts[a].booking.Some? ==> u.attempts[a].booking.Some?)
    ensures SourcesOk(u)
  {}

  // ---- effects of lists of lines ----

  lemma EffectWhen(c: bool, line: Line, a: Account)
    ensures Effect(When(c, line), a) == if c then On(a)(line) else 0
  {
    SumSnoc(On(a), [], line);
    assert [] + [line] == [line];
  }

  lemma EffectOne(line: Line, a: Account)
    ensures Effect([line], a) == On(a)(line)
  {
    EffectWhen(true, line, a);
  }

  lemma EffectTwo(l1: Line, l2: Line, a: Account)
    ensures Effect([l1, l2], a) == On(a)(l1) + On(a)(l2)
  {
    EffectOne(l1, a);
    SumSnoc(On(a), [l1], l2);
    assert [l1] + [l2] == [l1, l2];
  }

  lemma EffectFour(p: seq<Line>, q: seq<Line>, r: seq<Line>, t: seq<Line>, a: Account)
    ensures Effect(p + q + r + t, a) == Effect(p, a) + Effect(q, a) + Effect(r, a) + Effect(t, a)
  {
    SumConcat(On(a), p, q);
    SumConcat(On(a), p + q, r);
    SumConcat(On(a), p + q + r, t);
  }

  // ---- one booking's rows change ----

  /** The payout row only moves forward through its states and generations. */
  ghost predicate PayoutLater(p: C.Payout, q: C.Payout) {
    && p.generation <= q.generation
    && (p.state in {C.Processing, C.Paid, C.PayoutFailed} ==> q.state in {C.Processing, C.Paid, C.PayoutFailed})
    && (p.generation == q.generation ==>
          && (p.state in {C.Paid, C.PayoutFailed} ==> q.state in {C.Paid, C.PayoutFailed})
          && (p.state == C.PayoutFailed ==> q.state == C.PayoutFailed))
  }

  /** What changing booking b's rows to d does to the ledger side, if posted
      with the given lines: the lines carry exactly the change of the rows. */
  ghost predicate Carries(c: C.Case, d: C.Case, lines: seq<Line>) {
    && (forall x :: -Effect(lines, Payable(x)) == PayableOf(x)(d) - PayableOf(x)(c))
    && Effect(lines, Receivable) == HeldAtProvider(d) - HeldAtProvider(c)
    && -Effect(lines, FeeRevenue) == EarnedWith(d) - EarnedWith(c)
    && Effect(lines, FeeExpense) == SpentOn(d) - SpentOn(c)
  }

  ghost predicate CaseChange(cfg: Config, s: Books, t: Books, b: nat, d: C.Case) {
    && b < |s.cases| && t == s.(cases := s.cases[b := d], journals := t.journals, debts := t.debts, transfers := t.transfers)
    && Ok(cfg, s.clock, d) && Follows(s.cases[b], d) && PayoutLater(s.cases[b].payout, d.payout)
  }

  lemma RowsKept(cfg: Config, s: Books, t: Books, b: nat, d: C.Case)
    requires Inv(cfg, s) && CaseChange(cfg, s, t, b, d)
    requires forall x | x in t.debts :: OldestFirst(t.debts[x])
    ensures RowsOk(cfg, t) && Linked(t)
  {
    forall k | 0 <= k < |t.cases| ensures BookedBy(t, k) && Ok(cfg, t.clock, t.cases[k]) {
      assert BookedBy(s, k);
    }
    forall a | a in t.attempts ensures AttemptLinked(t, t.attempts[a], a) {
      assert AttemptLinked(s, s.attempts[a], a);
    }
  }

  lemma SourcesKept(cfg: Config, s: Books, t: Books, b: nat, d: C.Case)
    requires SourcesOk(s) && CaseChange(cfg, s, t, b, d) && t.journals == s.journals
    ensures SourcesOk(t)
  {}

  lemma SourcesGrown(cfg: Config, s: Books, t: Books, b: nat, d: C.Case, source: Source, lines: seq<Line>)
    requires SourcesOk(s) && CaseChange(cfg, s, t, b, d)
    requires t.journals == s.journals + [Journal(source, lines)] && SourceOk(t, source)
    ensures SourcesOk(t)
  {}

  lemma SumsAfter(s: Books, t: Books, b: nat, d: C.Case)
    requires b < |s.cases| && t.cases == s.cases[b := d]
    ensures forall x :: Sum(PayableOf(x), t.cases) == Sum(PayableOf(x), s.cases) - PayableOf(x)(s.cases[b]) + PayableOf(x)(d)
    ensures Sum(HeldOf(), t.cases) == Sum(HeldOf(), s.cases) - HeldAtProvider(s.cases[b]) + HeldAtProvider(d)
    ensures Sum(EarnedOf(), t.cases) == Sum(EarnedOf(), s.cases) - EarnedWith(s.cases[b]) + EarnedWith(d)
    ensures Sum(SpentOf(), t.cases) == Sum(SpentOf(), s.cases) - SpentOn(s.cases[b]) + SpentOn(d)
  {
    forall x ensures Sum(PayableOf(x), t.cases) == Sum(PayableOf(x), s.cases) - PayableOf(x)(s.cases[b]) + PayableOf(x)(d) {
      SumUpdate(PayableOf(x), s.cases, b, d);
    }
    SumUpdate(HeldOf(), s.cases, b, d);
    SumUpdate(EarnedOf(), s.cases, b, d);
    SumUpdate(SpentOf(), s.cases, b, d);
  }

  /** The rows change, and nothing is posted. */
  lemma AgreesUnposted(s: Books, t: Books, b: nat, d: C.Case)
    requires Agrees(s) && b < |s.cases| && t.cases == s.cases[b := d]
    requires t.journals == s.journals && t.debts == s.debts
    requires s.cases[b].seller == d.seller
    requires OwedToSeller(s.cases[b]) == OwedToSeller(d) && HeldAtProvider(s.cases[b]) == HeldAtProvider(d)
    requires EarnedWith(s.cases[b]) == EarnedWith(d) && SpentOn(s.cases[b]) == SpentOn(d)
    ensures Agrees(t)
  {
    SumsAfter(s, t, b, d);
    forall x ensures SellerAgrees(t, x) {
      assert SellerAgrees(s, x);
    }
  }

  /** The rows change, and exactly that change is posted. */
  lemma AgreesPosted(s: Books, t: Books, b: nat, d: C.Case, source: Source, lines: seq<Line>)
    requires Agrees(s) && b < |s.cases| && t.cases == s.cases[b := d]
    requires t.journals == s.journals + [Journal(source, lines)]
    requires Carries(s.cases[b], d, lines)
    requires forall x :: Effect(lines, Owed(x)) == Outstanding(DebtsOf(t.debts, x)) - Outstanding(DebtsOf(s.debts, x))
    ensures Agrees(t)
  {
    SumsAfter(s, t, b, d);
    forall x ensures SellerAgrees(t, x) {
      assert SellerAgrees(s, x);
      BalanceAfter(s.journals, source, lines, Payable(x));
      BalanceAfter(s.journals, source, lines, Owed(x));
      assert -Effect(lines, Payable(x)) == PayableOf(x)(d) - PayableOf(x)(s.cases[b]);
      assert Sum(PayableOf(x), t.cases) == Sum(PayableOf(x), s.cases) - PayableOf(x)(s.cases[b]) + PayableOf(x)(d);
    }
    BalanceAfter(s.journals, source, lines, Receivable);
    BalanceAfter(s.journals, source, lines, FeeRevenue);
    BalanceAfter(s.journals, source, lines, FeeExpense);
  }

  /** References of other bookings are untouched when only b's payout changes. */
  lemma ProviderKept(cfg: Config, s: Books, t: Books, b: nat, d: C.Case)
    requires ProviderOk(s) && CaseChange(cfg, s, t, b, d)
    requires forall ref | ref in t.transfers :: ref.booking != b ==> ref in s.transfers && t.transfers[ref] == s.transfers[ref]
    requires forall ref | ref in s.transfers :: ref in t.transfers
    requires forall ref | ref in t.transfers :: ref.booking == b ==> TransferOk(d.payout, ref.generation, t.transfers[ref])
    requires d.payout.state == C.Paid && d.payout.amount > d.payout.recovery ==> Ref(b, d.payout.generation) in t.transfers
    ensures ProviderOk(t)
  {
    forall ref | ref in t.transfers ensures TransferLinked(t, ref) {
      if ref.booking != b {
        assert TransferLinked(s, ref);
      }
    }
    forall k | 0 <= k < |t.cases| ensures Backed(t, k) {
      assert Backed(s, k);
    }
  }

  /** A step on a booking that moves no money. */
  lemma QuietKeeps(cfg: Config, s: Books, b: nat, d: C.Case)
    requires Inv(cfg, s) && b < |s.cases| && Ok(cfg, s.clock, d) && Quiet(s.cases[b], d)
    ensures Inv(cfg, s.(cases := s.cases[b := d]))
  {
    var t := s.(cases := s.cases[b := d]);
    assert CaseChange(cfg, s, t, b, d);
    RowsKept(cfg, s, t, b, d);
    SourcesKept(cfg, s, t, b, d);
    AgreesUnposted(s, t, b, d);
    assert forall ref | ref in s.transfers :: TransferLinked(s, ref);
    assert Backed(s, b);
    ProviderKept(cfg, s, t, b, d);
  }

  lemma ActKeeps(cfg: Config, s: Books, b: nat, e: C.Event)
    requires Inv(cfg, s)
    ensures Inv(cfg, Act(cfg, s, b, e))
  {
    if b < |s.cases| {
      var c := s.cases[b];
      var r := C.Step(cfg, s.clock, Verified(s, c), FeeOf(s, c), c, e);
      assert BookedBy(s, b) && AttemptOk(cfg, s.attempts[c.attempt]);
      StepKeeps(cfg, s.clock, Verified(s, c), FeeOf(s, c), c, e);
      if r.Some? {
        QuietKeeps(cfg, s, b, r.value);
      }
    }
  }
}
