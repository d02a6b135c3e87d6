/** The double-entry ledger as values: journals, posting and balances
    (services/core/cmd/api/ledger.go). */
module Ledger {
  import opened Common

  type SellerId = int
  type AttemptId = int

  /** The account codes the source posts to. */
  datatype Code = ProviderReceivable | ProcessorFeeExpense | PlatformFeeRevenue | SellerPayable | SellerReceivable

  /** An account is identified by its code and, for sellers, its scope. */
  datatype Account = Account(code: Code, scope: Option<SellerId>)

  datatype Side = Debit | Credit

  datatype Line = Line(account: Account, side: Side, amount: int)

  /** The source identity (source_type, source_id) of a journal. A booking is
      known by its row number, a refund by its booking and its number there. */
  datatype Source =
    | PaymentSource(attempt: AttemptId)
    | RecoverySource(booking: nat)
    | PayoutSource(booking: nat, generation: int)
    | ReversalSource(booking: nat, generation: int)
    | RefundSource(booking: nat, refund: nat)

  datatype Journal = Journal(source: Source, lines: seq<Line>)

  const Receivable := Account(ProviderReceivable, None)
  const FeeExpense := Account(ProcessorFeeExpense, None)
  const FeeRevenue := Account(PlatformFeeRevenue, None)

  function Payable(s: SellerId): Account { Account(SellerPayable, Some(s)) }

  function Owed(s: SellerId): Account { Account(SellerReceivable, Some(s)) }

  /** A line that is appended only under a condition. */
  function When(c: bool, line: Line): seq<Line> { if c then [line] else [] }

  ghost function SideTotal(side: Side): Line -> int {
    (l: Line) => if l.side == side then l.amount else 0
  }

  ghost function Debits(lines: seq<Line>): int { Sum(SideTotal(Debit), lines) }

  ghost function Credits(lines: seq<Line>): int { Sum(SideTotal(Credit), lines) }

  /** What postLedgerJournal demands of the lines before it writes anything. */
  ghost predicate Postable(lines: seq<Line>) {
    && |lines| >= 2
    && (forall i | 0 <= i < |lines| :: lines[i].amount > 0)
    && Debits(lines) <= MAX_INT64
    && Credits(lines) <= MAX_INT64
    && Debits(lines) == Credits(lines)
  }

  ghost predicate Posted(journals: seq<Journal>, source: Source) {
    exists j :: 0 <= j < |journals| && journals[j].source == source
  }

  /** Posting under one source identity. A repeat of the same journal changes
      nothing, a different journal under a used identity is refused, and
      refused postings (None) roll the caller's transaction back. */
  ghost function Post(journals: seq<Journal>, source: Source, lines: seq<Line>): (r: Option<seq<Journal>>) {
    if !Postable(lines) then None
    else if Posted(journals, source) then
      if Journal(source, lines) in journals then Some(journals) else None
    else Some(journals + [Journal(source, lines)])
  }

  /** One line's effect on an account, debits positive. */
  ghost function On(a: Account): Line -> int {
    (l: Line) => if l.account != a then 0 else if l.side == Debit then l.amount else -l.amount
  }

  ghost function Effect(lines: seq<Line>, a: Account): int { Sum(On(a), lines) }

  ghost function JournalOn(a: Account): Journal -> int {
    (j: Journal) => Effect(j.lines, a)
  }

  /** The debit balance of an account. */
  ghost function Balance(journals: seq<Journal>, a: Account): int { Sum(JournalOn(a), journals) }

  /** The ledger's own soundness: one journal per source, each of them balanced. */
  ghost predicate Sound(journals: seq<Journal>) {
    && (forall j | 0 <= j < |journals| :: Postable(journals[j].lines))
    && (forall i, j | 0 <= i < j < |journals| :: journals[i].source != journals[j].source)
  }

  /** The same amount on both sides. */
  lemma TwoLinesPost(l1: Line, l2: Line, amount: int)
    requires l1.side == Debit && l2.side == Credit && l1.amount == l2.amount == amount && 0 < amount <= MAX_INT64
    ensures Postable([l1, l2])
  {
    SumSnoc(SideTotal(Debit), [l1], l2);
    SumSnoc(SideTotal(Credit), [l1], l2);
    SumSnoc(SideTotal(Debit), [], l1);
    SumSnoc(SideTotal(Credit), [], l1);
    assert [] + [l1] == [l1] && [l1] + [l2] == [l1, l2];
  }

  lemma PostKeepsSound(journals: seq<Journal>, source: Source, lines: seq<Line>)
    requires Sound(journals)
    ensures var r := Post(journals, source, lines); r.Some? ==> Sound(r.value)
  {}

  /** Posting the same journal again succeeds and changes nothing. */
  lemma PostTwice(journals: seq<Journal>, source: Source, lines: seq<Line>)
    requires Post(journals, source, lines).Some?
    ensures var once := Post(journals, source, lines).value;
      Post(once, source, lines) == Some(once)
      && forall other :: other != lines && Sound(journals) ==> Post(once, source, other) == None
  {
    var once := Post(journals, source, lines).value;
    if Posted(journals, source) {
      var j :| 0 <= j < |journals| && journals[j].source == source;
    } else {
      assert once[|journals|] == Journal(source, lines);
    }
  }

  lemma BalanceAfter(journals: seq<Journal>, source: Source, lines: seq<Line>, a: Account)
    ensures Balance(journals + [Journal(source, lines)], a) == Balance(journals, a) + Effect(lines, a)
  {}

  /** Every account's movements over every journal cancel out: the sum over any
      list of distinct accounts covering the lines is zero. Stated on sides. */
  ghost function SideOfJournal(side: Side): Journal -> int {
    (j: Journal) => Sum(SideTotal(side), j.lines)
  }

  lemma {:induction false} TrialBalance(journals: seq<Journal>)
    requires Sound(journals)
    ensures Sum(SideOfJournal(Debit), journals) == Sum(SideOfJournal(Credit), journals)
  {
    if journals != [] {
      TrialBalance(journals[..|journals| - 1]);
    }
  }
}
