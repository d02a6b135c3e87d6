/** The transactions as the service runs them: tables updated in place, loops
    over rows, and a rollback when a step is refused. Every method does to the
    tables exactly what its step in Books says, and so keeps the invariant. */
module Desk {
  import opened Batch
  import opened Common
  import opened Policy
  import opened Ledger
  import opened Recovery
  import opened Books
  import LT = LedgerTables
  import C = Cases
  import R = Refunds
  import opened BooksInvariant
  import opened MoneySteps
  import opened ReleaseSteps
  import opened RetryPass
  import opened Runs

  /** What the provider tells the caller of a send. */
  datatype SendAnswer = NoAnswer | Refusal | Took(t: Transfer)

  /** The payout provider: a reference it has seen is never paid a second time,
      and a lookup finds every reference it accepted. */
  class Provider {
    var transfers: map<Ref, Transfer>

    constructor ()
      ensures transfers == map[]
    {
      transfers := map[];
    }

    method Find(ref: Ref) returns (t: Option<Transfer>)
      ensures t == if ref in transfers then Some(transfers[ref]) else None
    {
      t := if ref in transfers then Some(transfers[ref]) else None;
    }

    method Send(ref: Ref, reply: Reply) returns (answer: SendAnswer)
      modifies this
      ensures ref in old(transfers) ==> transfers == old(transfers) && answer == Took(transfers[ref])
      ensures ref !in old(transfers) ==>
        match reply
        case NotAccepted => transfers == old(transfers) && answer == NoAnswer
        case Rejected => transfers == old(transfers) && answer == Refusal
        case AcceptedSilently(t) => transfers == old(transfers)[ref := t] && answer == NoAnswer
        case AcceptedSeen(t) => transfers == old(transfers)[ref := t] && answer == Took(t)
    {
      if ref in transfers {
        return Took(transfers[ref]);
      }
      match reply
      case NotAccepted => answer := NoAnswer;
      case Rejected => answer := Refusal;
      case AcceptedSilently(t) =>
        transfers := transfers[ref := t];
        answer := NoAnswer;
      case AcceptedSeen(t) =>
        transfers := transfers[ref := t];
        answer := Took(t);
    }
  }

  /** One turn of the repayment loop. */
  lemma RepayRow(rows: seq<Debt>, i: nat, rest: int)
    requires i < |rows| && rest > 0
    ensures var take := Min(rest, Left(rows[i]));
      var next := rows[i := rows[i].(recovered := rows[i].recovered + take)];
      rows[..i] + Repay(rows[i..], rest) == next[..i + 1] + Repay(next[i + 1..], rest - take)
  {}

  lemma RepayDone(rows: seq<Debt>, i: nat, rest: int)
    requires i <= |rows| && (rest <= 0 || i == |rows|)
    ensures rows[..i] + Repay(rows[i..], rest) == rows
  {}

  /** A seller's debts, and what an amount of payout repays of them. */
  ghost function RecoveryFor(cfg: Config, s: Books, b: nat, amount: int): (seq<Debt>, int)
    requires b < |s.cases| && amount >= 0
  {
    var ds := DebtsOf(s.debts, s.cases[b].seller);
    (ds, Max0(Take(ds, amount, cfg.recoveryBps)))
  }

  lemma ConfigOf(cfg: Config, s: Books)
    requires Inv(cfg, s)
    ensures Policy.Valid(cfg)
  {}

  /** A payout that went entirely to old debts is marked paid without a journal. */
  lemma NothingToSend(s: Books, b: nat)
    requires b < |s.cases| && s.cases[b].payout.amount == s.cases[b].payout.recovery
    ensures MarkPaid(s, b, 0) == Some(SetPayout(s, b, PaidRow(s.cases[b].payout, 0, s.clock)))
  {}

  /** How a release is put together from its recovery and its payout row. */
  lemma ReleaseAmountIs(cfg: Config, s: Books, b: nat, amount: int, t: Books)
    requires b < |s.cases| && amount > 0
    requires var c, (ds, take) := s.cases[b], RecoveryFor(cfg, s, b, amount);
      && (if take > 0 then Post(s.journals, RecoverySource(b), RecoveryLines(c.seller, take)) == Some(t.journals) else t.journals == s.journals)
      && t == s.(journals := t.journals, debts := if take > 0 then s.debts[c.seller := Repay(ds, take)] else s.debts)
    ensures var take := RecoveryFor(cfg, s, b, amount).1;
      ReleaseAmount(cfg, s, b, amount) == SetPayout(t, b, ReleasedRow(s.cases[b].payout, amount, take, s.clock))
  {
    hide Post, Repay, Take;
    var (ds, take) := RecoveryFor(cfg, s, b, amount);
    var u := SetPayout(t, b, s.cases[b].payout.(state := C.Processing, amount := amount, recovery := take, updatedAt := s.clock));
    if amount == take {
      NothingToSend(u, b);
      assert u.cases[b := u.cases[b].(payout := PaidRow(u.cases[b].payout, 0, s.clock))]
        == s.cases[b := s.cases[b].(payout := ReleasedRow(s.cases[b].payout, amount, take, s.clock))];
    }
  }

  /** A release that is refused on the way leaves the tables as they were. */
  lemma ReleaseAmountRefused(cfg: Config, s: Books, b: nat, amount: int)
    requires b < |s.cases| && amount > 0
    requires var take := RecoveryFor(cfg, s, b, amount).1;
      take > 0 && Post(s.journals, RecoverySource(b), RecoveryLines(s.cases[b].seller, take)).None?
    ensures ReleaseAmount(cfg, s, b, amount) == s
  {
    hide Post, Repay, Take;
  }

  /** A failed payout whose seller's account can be used and whose turn has come. */
  predicate RetryDue(s: Books, b: nat) {
    && b < |s.cases| && s.cases[b].payout.state == C.PayoutFailed && AccountUsable(s, s.cases[b].seller)
    && AutoRetryDue(s, s.cases[b].payout, s.accounts[s.cases[b].seller])
  }

  function RetryEvents(ids: seq<nat>): seq<Event> {
    seq(|ids|, i requires 0 <= i < |ids| => Retry(ids[i], true))
  }

  /** An undisputed report whose answering time has passed. */
  predicate ReportDue(s: Books, b: nat) {
    && b < |s.cases| && s.cases[b].report.Some?
    && s.cases[b].report.value.state == C.Open && s.cases[b].report.value.resolvesAt <= s.clock
  }

  /** A buyer's problem the seller has left unanswered for too long. */
  predicate ProblemDue(s: Books, b: nat) {
    b < |s.cases| && C.AwaitsSeller(s.cases[b]) && s.cases[b].issue.respondBy < s.clock
  }

  /** How many rows one pass takes. */
  const BATCH: nat := 20

  /** What the passes order by, for the rows that are due. All problems get the
      same time to answer, so the oldest are those to be answered first. */
  function RetryTime(s: Books, b: nat): Option<int> { if RetryDue(s, b) then Some(s.cases[b].payout.updatedAt) else None }

  function ReportTime(s: Books, b: nat): Option<int> {
    if ReportDue(s, b) then Some(s.cases[b].report.value.resolvesAt) else None
  }

  function ProblemTime(s: Books, b: nat): Option<int> { if ProblemDue(s, b) then Some(s.cases[b].issue.respondBy) else None }

  function RetryTimes(s: Books): seq<Option<int>> { seq(|s.cases|, b requires 0 <= b < |s.cases| => RetryTime(s, b)) }

  function ReportTimes(s: Books): seq<Option<int>> { seq(|s.cases|, b requires 0 <= b < |s.cases| => ReportTime(s, b)) }

  function ProblemTimes(s: Books): seq<Option<int>> { seq(|s.cases|, b requires 0 <= b < |s.cases| => ProblemTime(s, b)) }

  function BatchOf(ids: seq<nat>, what: C.Event): seq<Event> {
    seq(|ids|, i requires 0 <= i < |ids| => OnBooking(ids[i], what))
  }

  lemma RetryAsDue(cfg: Config, s: Books, b: nat)
    requires RetryDue(s, b)
    ensures Step(cfg, s, Retry(b, true)) == SetPayout(s, b, Retried(s.cases[b].payout, s.clock))
  {}

  lemma AcceptAsDue(cfg: Config, s: Books, b: nat)
    requires ReportDue(s, b)
    ensures var c := s.cases[b];
      var r := C.SettleNoShowStep(cfg, s.clock, Verified(s, c), FeeOf(s, c), c, c.report.value.absent, true);
      Step(cfg, s, OnBooking(b, C.AcceptOverdueNoShow)) == if r.None? then s else s.(cases := s.cases[b := r.value])
  {
    hide C.SettleNoShowStep;
  }

  lemma SettleAsDue(cfg: Config, s: Books, b: nat)
    requires ProblemDue(s, b)
    ensures var c := s.cases[b];
      var r := C.SettleStep(cfg, s.clock, Verified(s, c), FeeOf(s, c), c, c.gross);
      Step(cfg, s, OnBooking(b, C.SettleUnanswered)) == if r.None? then s else s.(cases := s.cases[b := r.value])
  {
    hide C.SettleStep;
  }

  /** A first charge whose journal is refused gives the old tables back. */
  lemma FirstChargeRollback(cfg: Config, s: Books, t: Books, a: int, ch: Charge, slot: Slot)
    requires a in t.attempts && |s.cases| == |t.cases|
    ensures var (u, answer) := FirstCharge(cfg, t, t, a, ch, slot);
      && (answer.None? && slot.Free? ==> u == t)
      && FirstCharge(cfg, s, t, a, ch, slot) == if answer.None? && slot.Free? then (s, None) else (u, answer)
  {}

  class Desk {
    const cfg: Config
    const ledger: LT.Tables
    const provider: Provider
    var clock: int
    var attempts: map<int, Attempt>
    var cases: seq<C.Case>
    var debts: map<int, seq<Debt>>
    var accounts: map<int, PayoutAccount>
    var exceptions: map<ExceptionKey, Unbooked>

    ghost function Snapshot(): Books
      reads this, ledger, provider
    {
      Books(clock, attempts, cases, debts, ledger.Journals(), provider.transfers, accounts, exceptions)
    }

    ghost predicate Valid()
      reads this, ledger, provider
    {
      ledger.Valid() && Inv(cfg, Snapshot())
    }

    constructor (cfg: Config, now: int)
      requires Policy.Valid(cfg)
      ensures Valid() && Snapshot() == Initial(now) && this.cfg == cfg
      ensures fresh(ledger) && fresh(provider)
    {
      this.cfg := cfg;
      ledger := new LT.Tables();
      provider := new Provider();
      clock, attempts, cases, debts, accounts, exceptions := now, map[], [], map[], map[], map[];
      new;
      InitialInv(cfg, now);
    }

    // ---- debts ----

    /** applyRecovery: each open debt takes what it can, oldest first. */
    method ApplyRecovery(seller: int, amount: int)
      modifies this`debts
      ensures debts == old(debts)[seller := Repay(DebtsOf(old(debts), seller), amount)]
    {
      hide Repay, Left, Min;
      var rows := DebtsOf(debts, seller);
      ghost var result := Repay(rows, amount);
      assert rows[..0] == [] && rows[0..] == rows;
      var rest := amount;
      var i := 0;
      while i < |rows| && rest > 0
        invariant 0 <= i <= |rows|
        invariant result == rows[..i] + Repay(rows[i..], rest)
        invariant debts == old(debts)
      {
        RepayRow(rows, i, rest);
        var take := Min(rest, Left(rows[i]));
        rows := rows[i := rows[i].(recovered := rows[i].recovered + take)];
        rest := rest - take;
        i := i + 1;
      }
      RepayDone(rows, i, rest);
      debts := debts[seller := rows];
    }

    /** takeRecovery: what an amount of payout repays; None when a debt does
        not fit the 32-bit column it is read into. */
    method TakeRecovery(seller: int, amount: int) returns (take: Option<int>)
      requires amount >= 0 && 0 <= cfg.recoveryBps <= 10000
      modifies this`debts
      ensures var ds := DebtsOf(old(debts), seller);
        if !Readable(ds) then take.None? && debts == old(debts)
        else
          take == Some(Max0(Take(ds, amount, cfg.recoveryBps)))
          && debts == (if take.value > 0 then old(debts)[seller := Repay(ds, take.value)] else old(debts))
    {
      var rows := DebtsOf(debts, seller);
      var owed := 0;
      for i := 0 to |rows|
        invariant owed == Outstanding(rows[..i])
        invariant forall k | 0 <= k < i :: Left(rows[k]) <= MAX_INT32
        invariant debts == old(debts)
      {
        if Left(rows[i]) > MAX_INT32 {
          return None;
        }
        SumSnoc(LeftOf(), rows[..i], rows[i]);
        assert rows[..i] + [rows[i]] == rows[..i + 1];
        owed := owed + Left(rows[i]);
      }
      assert rows[..|rows|] == rows;
      var limit := BasisPoints(amount, cfg.recoveryBps);
      var taken := Min(owed, limit);
      if taken <= 0 {
        return Some(0);
      }
      ApplyRecovery(seller, taken);
      return Some(taken);
    }

    // ---- payouts ----

    /** The lines of a paid payout: net amount, and the transfer's fee. */
    method LinesOfPayout(p: C.Payout, seller: int, fee: int) returns (lines: seq<Line>)
      ensures lines == PayoutLines(p, seller, fee)
    {
      var net := p.amount - p.recovery;
      lines := [];
      if net > 0 {
        lines := lines + [Line(Payable(seller), Debit, net), Line(Receivable, Credit, net)];
      }
      if fee > 0 {
        lines := lines + [Line(FeeExpense, Debit, fee), Line(Receivable, Credit, fee)];
      }
    }

    /** markPayoutPaid: the row first, then the journal; refused together. */
    method MarkPayoutPaid(b: nat, fee: int) returns (ok: bool)
      requires ledger.Valid() && b < |cases|
      modifies this`cases, ledger
      ensures ledger.Valid()
      ensures MarkPaid(old(Snapshot()), b, fee) == if ok then Some(Snapshot()) else None
      ensures !ok ==> Snapshot() == old(Snapshot())
    {
      hide Post, PayoutLines;
      var before := cases;
      var p := cases[b].payout;
      var seller := cases[b].seller;
      cases := cases[b := cases[b].(payout := p.(state := C.Paid, fees := p.fees + Max0(fee), updatedAt := clock))];
      var lines := LinesOfPayout(p, seller, fee);
      if |lines| > 0 {
        var journal := ledger.Record(PayoutSource(b, p.generation), lines);
        if journal.None? {
          cases := before;
          return false;
        }
      }
      return true;
    }

    /** failPayout */
    method FailPayout(b: nat)
      requires b < |cases|
      modifies this`cases
      ensures Snapshot() == Fail(old(Snapshot()), b)
    {
      cases := cases[b := cases[b].(payout := cases[b].payout.(state := C.PayoutFailed, updatedAt := clock))];
    }

    /** payoutHoldSQL: whether anything keeps the payout of a booking back. */
    method Held(c: C.Case) returns (held: bool)
      ensures held <==> C.OnHold(c)
    {
      if c.issue.Issue? && !c.issue.resolved && c.issue.reporter == C.Buyer {
        return true;
      }
      if c.report.Some? && c.report.value.absent == C.Seller && c.report.value.state in {C.Open, C.Disputed} {
        return true;
      }
      for i := 0 to |c.refunds|
        invariant forall k | 0 <= k < i :: !(c.refunds[k].state == R.Failed && c.refunds[k].liability == R.FromPayout)
      {
        if c.refunds[i].state == R.Failed && c.refunds[i].liability == R.FromPayout {
          return true;
        }
      }
      return false;
    }

    /** What refunds that have not failed take out of the payout. */
    method Refunded(rows: seq<R.Refund>) returns (sum: int)
      ensures sum == R.LiveShares(rows)
    {
      sum := 0;
      for i := 0 to |rows|
        invariant sum == R.LiveShares(rows[..i])
      {
        SumSnoc(R.LiveShareOf(), rows[..i], rows[i]);
        assert rows[..i] + [rows[i]] == rows[..i + 1];
        if rows[i].liability == R.FromPayout && rows[i].state != R.Failed {
          sum := sum + rows[i].seller;
        }
      }
      assert rows[..|rows|] == rows;
    }

    /** releasePayout: whether a transfer should be sent now. */
    method ReleasePayout(b: nat) returns (send: bool)
      requires Valid()
      modifies this`cases, this`debts, ledger
      ensures Valid() && Snapshot() == Release(cfg, old(Snapshot()), b)
      ensures send <==> b < |cases| && cases[b].payout.state == C.Processing
    {
      hide Inv, ReleaseAmount, R.LiveShares, C.OnHold, C.ReleaseAt;
      ghost var s := Snapshot();
      ReleaseKeeps(cfg, s, b);
      ConfigOf(cfg, s);
      if b >= |cases| {
        return false;
      }
      var c := cases[b];
      var p := c.payout;
      if p.state != C.Scheduled {
        return p.state == C.Processing;
      }
      var held := Held(c);
      if held || C.ReleaseAt(cfg, c) > clock {
        return false;
      }
      var refunded := Refunded(c.refunds);
      var amount := p.entitlement - refunded;
      if amount <= 0 {
        cases := cases[b := c.(payout := p.(state := C.Nothing, updatedAt := clock))];
        return false;
      }
      if c.seller !in accounts || accounts[c.seller].usableFrom > clock {
        return false;
      }
      send := FixAmount(b, amount);
    }

    /** Repays earlier debts out of a payout and posts that; refused together. */
    method RepayDebts(b: nat, amount: int) returns (recovery: Option<int>)
      requires ledger.Valid() && Policy.Valid(cfg) && b < |cases| && amount > 0
      modifies this`debts, ledger
      ensures ledger.Valid()
      ensures var s := old(Snapshot());
        var (ds, take) := RecoveryFor(cfg, s, b, amount);
        ds == DebtsOf(s.debts, s.cases[b].seller) &&
        if recovery.None? then Snapshot() == s && (!Readable(ds) || (take > 0 && Post(s.journals, RecoverySource(b), RecoveryLines(s.cases[b].seller, take)).None?))
        else
          && Readable(ds) && recovery == Some(take)
          && (take > 0 ==> Post(s.journals, RecoverySource(b), RecoveryLines(s.cases[b].seller, take)) == Some(ledger.Journals()))
          && Snapshot() == s.(journals := ledger.Journals(), debts := if take > 0 then s.debts[s.cases[b].seller := Repay(ds, take)] else s.debts)
          && (take <= 0 ==> ledger.Journals() == s.journals)
    {
      hide Repay, Take, Post, Readable, Max0;
      var seller, before := cases[b].seller, debts;
      recovery := TakeRecovery(seller, amount);
      if recovery.Some? && recovery.value > 0 {
        var journal := ledger.Record(RecoverySource(b), RecoveryLines(seller, recovery.value));
        if journal.None? {
          debts := before;
          return None;
        }
      }
    }

    /** Writes what was released; nothing is sent when all of it was recovered. */
    method WriteRelease(b: nat, amount: int, recovery: int) returns (send: bool)
      requires ledger.Valid() && b < |cases|
      modifies this`cases, ledger
      ensures ledger.Valid() && |cases| == |old(cases)| && (send <==> amount != recovery)
      ensures var s := old(Snapshot());
        Snapshot() == SetPayout(s, b, ReleasedRow(s.cases[b].payout, amount, recovery, s.clock))
    {
      hide PayoutLines, MarkPaid;
      ghost var s := Snapshot();
      var c := cases[b];
      cases := cases[b := c.(payout := c.payout.(state := C.Processing, amount := amount, recovery := recovery, updatedAt := clock))];
      if amount == recovery {
        // Everything went to repaying earlier refunds: nothing to transfer.
        NothingToSend(Snapshot(), b);
        var paid := MarkPayoutPaid(b, 0);
      }
      return amount != recovery;
    }

    /** The rest of releasePayout, once there is something to pay. */
    method FixAmount(b: nat, amount: int) returns (send: bool)
      requires ledger.Valid() && Policy.Valid(cfg) && b < |cases| && cases[b].payout.state == C.Scheduled && amount > 0
      modifies this`cases, this`debts, ledger
      ensures ledger.Valid()
      ensures Snapshot() ==
        if Readable(DebtsOf(old(debts), old(cases)[b].seller)) then ReleaseAmount(cfg, old(Snapshot()), b, amount) else old(Snapshot())
      ensures |cases| == |old(cases)| && (send <==> cases[b].payout.state == C.Processing)
    {
      hide Post, Readable, RecoveryFor, Repay, ReleaseAmount;
      ghost var s := Snapshot();
      var recovery := RepayDebts(b, amount);
      if recovery.None? {
        if Readable(DebtsOf(s.debts, s.cases[b].seller)) {
          ReleaseAmountRefused(cfg, s, b, amount);
        }
        return false;
      }
      ReleaseAmountIs(cfg, s, b, amount, Snapshot());
      send := WriteRelease(b, amount, recovery.value);
    }

    /** applyTransferStatus on a payout that is being sent. */
    method ApplyTransferStatus(b: nat, t: Transfer)
      requires ledger.Valid() && b < |cases|
      modifies this`cases, ledger
      ensures ledger.Valid() && Snapshot() == ApplyStatus(old(Snapshot()), b, t)
    {
      hide MarkPaid;
      match t.status
      case Delivered => var paid := MarkPayoutPaid(b, t.fee);
      case InFlight =>
      case Refused => FailPayout(b);
      case Returned => FailPayout(b);
    }

    /** sendPayout: always look first, so that a transfer sent before a crash or
        a lost answer is adopted and never sent again. */
    method SendPayout(b: nat, lookup: bool, readable: bool, reply: Reply)
      requires Valid()
      modifies this`cases, ledger, provider
      ensures Valid() && Snapshot() == Send(old(Snapshot()), b, lookup, readable, reply)
    {
      hide Inv, ApplyStatus;
      SendKeeps(cfg, Snapshot(), b, lookup, readable, reply);
      if b >= |cases| || cases[b].payout.state != C.Processing || !lookup {
        return;
      }
      var ref := Ref(b, cases[b].payout.generation);
      var found := provider.Find(ref);
      if found.None? {
        if !readable {
          FailPayout(b);
          return;
        }
        var answer := provider.Send(ref, reply);
        match answer
        case NoAnswer => return;
        case Refusal =>
          FailPayout(b);
          return;
        case Took(t) => found := Some(t);
      }
      ApplyTransferStatus(b, found.value);
    }

    /** checkPayoutReversal: a transfer the bank sent back after it was paid. */
    method CheckPayoutReversal(b: nat)
      requires Valid()
      modifies this`cases, ledger
      ensures Valid() && Snapshot() == Reverse(old(Snapshot()), b)
    {
      hide Inv, Post;
      ReverseKeeps(cfg, Snapshot(), b);
      if b >= |cases| || cases[b].payout.state != C.Paid {
        return;
      }
      var p, before := cases[b].payout, cases;
      var found := provider.Find(Ref(b, p.generation));
      if found.None? || (found.value.status != Returned && found.value.status != Refused) {
        return;
      }
      FailPayout(b);
      var net := p.amount - p.recovery;
      if net > 0 {
        var lines := [Line(Receivable, Debit, net), Line(Payable(cases[b].seller), Credit, net)];
        var journal := ledger.Record(ReversalSource(b, p.generation), lines);
        if journal.None? {
          cases := before;
        }
      }
    }

    /** opsRetryPayout */
    method RetryFailedPayout(b: nat)
      requires Valid()
      modifies this`cases
      ensures Valid() && Snapshot() == RetryPayout(old(Snapshot()), b, false)
    {
      hide Inv;
      RetryKeeps(cfg, Snapshot(), b, false);
      if b >= |cases| || cases[b].payout.state != C.PayoutFailed {
        return;
      }
      var seller := cases[b].seller;
      if seller !in accounts || accounts[seller].usableFrom > clock {
        return;
      }
      NextGeneration(b);
    }

    method NextGeneration(b: nat)
      requires b < |cases|
      modifies this`cases
      ensures Snapshot() == SetPayout(old(Snapshot()), b, Retried(old(cases)[b].payout, clock))
    {
      var p := cases[b].payout;
      cases := cases[b := cases[b].(payout := p.(state := C.Processing, generation := p.generation + 1, updatedAt := clock))];
    }

    /** The failed payouts that are due for another try: the twenty least
        recently changed. */
    method DueForRetry() returns (ids: seq<nat>)
      ensures Taken(ids, RetryTimes(Snapshot()), BATCH)
    {
      var due := [];
      for b: nat := 0 to |cases|
        invariant |due| == b && forall d: nat | d < b :: due[d] == RetryTime(Snapshot(), d)
      {
        var p, seller := cases[b].payout, cases[b].seller;
        var time := None;
        if p.state == C.PayoutFailed && seller in accounts && accounts[seller].usableFrom <= clock {
          var changed := accounts[seller].updatedAt > p.updatedAt && p.generation < 20;
          if changed || (p.generation <= 4 && p.updatedAt < clock - PayoutLadder(p.generation)) {
            time := Some(p.updatedAt);
          }
        }
        due := due + [time];
      }
      assert due == RetryTimes(Snapshot());
      ids := TakeOldest(due, BATCH);
    }

    /** autoRetryFailedPayouts: the due payouts, one after the other, each again
        only if it is still failed. */
    method AutoRetryFailedPayouts() returns (ids: seq<nat>)
      requires Valid()
      modifies this`cases
      ensures Valid() && Taken(ids, RetryTimes(old(Snapshot())), BATCH)
      ensures Snapshot() == Run(cfg, old(Snapshot()), RetryEvents(ids))
    {
      hide Inv, Step;
      ghost var s := Snapshot();
      ids := DueForRetry();
      for i := 0 to |ids|
        invariant Snapshot() == s.(cases := cases) && |cases| == |s.cases|
        invariant Snapshot() == Run(cfg, s, RetryEvents(ids)[..i])
        invariant forall b: nat | b < |s.cases| && b !in ids[..i] :: cases[b] == s.cases[b]
      {
        var b := ids[i];
        ghost var t := Snapshot();
        RunNext(cfg, s, RetryEvents(ids), i);
        if cases[b].payout.state == C.PayoutFailed {
          NextGeneration(b);
        }
        RetryAsDue(cfg, t, b);
      }
      assert RetryEvents(ids)[..|ids|] == RetryEvents(ids);
      RunKeeps(cfg, s, RetryEvents(ids));
    }

    // ---- refunds ----

    /** The row createRefund inserts: shares of the clamped amount, the buyer's
        fee on top when a seller at fault gives everything back, and whether
        the seller's share comes out of the payout or is owed. */
    method RefundRow(c: C.Case, amount: int, reason: R.Reason) returns (row: R.Refund)
      ensures row == C.NewRefund(cfg, c, if c.attempt in attempts then attempts[c.attempt].buyerFee else 0, amount, reason, clock)
    {
      var due := if amount > c.gross then c.gross else amount;
      var (platform, seller) := RefundShares(due, c.gross, c.deduction);
      var fee := if c.attempt in attempts then attempts[c.attempt].buyerFee else 0;
      if C.AtFault(reason) && due == c.gross && fee > 0 {
        due := due + fee;
        platform := platform + fee;
      }
      var state := if cfg.autoRefunds then R.Queued else R.PendingApproval;
      var liability := R.OwedBack;
      if c.payout.state == C.Scheduled || c.payout.state == C.Nothing {
        liability := R.FromPayout;
      }
      return R.Refund(due, platform, seller, reason, liability, state, false, 0, 0, clock);
    }

    /** createRefund on a booking's row; a refusal changes nothing. */
    method CreateRefund(b: nat, amount: int, reason: R.Reason) returns (r: C.RefundResult)
      requires b < |cases|
      modifies this`cases
      ensures var s := old(Snapshot());
        var c := s.cases[b];
        && r == C.CreateRefund(cfg, c, Verified(s, c), FeeOf(s, c), amount, reason, s.clock)
        && Snapshot() == (if r.Created? then s.(cases := s.cases[b := r.c]) else s)
        && (r.Created? ==> r.c == c.(refunds := r.c.refunds))
    {
      hide C.NewRefund;
      if amount <= 0 {
        return C.NoRefund;
      }
      var c := cases[b];
      var row := RefundRow(c, amount, reason);
      if c.payment != C.PaidInFull || c.attempt !in attempts || attempts[c.attempt].state != Succeeded {
        return C.NotVerified;
      }
      if R.HasLive(c.refunds) {
        return C.AlreadyRefunded;
      }
      cases := cases[b := c.(refunds := c.refunds + [row])];
      return C.Created(cases[b]);
    }

    /** The journal of a processed refund. The seller's share either reduces the
        payout still held, or becomes a debt recovered from later payouts. */
    method RecordRefund(b: nat, i: nat) returns (ok: bool)
      requires ledger.Valid() && b < |cases| && i < |cases[b].refunds|
      modifies this`debts, ledger
      ensures ledger.Valid()
      ensures var s := old(Snapshot());
        var c := s.cases[b];
        var posted := Post(s.journals, RefundSource(b, i), RefundLines(c.refunds[i], c.seller));
        && ok == posted.Some?
        && Snapshot() == if ok then s.(debts := Incurred(s.debts, c.seller, b, i, c.refunds[i]), journals := posted.value) else s
    {
      hide Post;
      var seller, r, before := cases[b].seller, cases[b].refunds[i], debts;
      var lines := [Line(Receivable, Credit, r.amount)];
      if r.platform > 0 {
        lines := lines + [Line(FeeRevenue, Debit, r.platform)];
      }
      if r.seller > 0 && r.liability == R.FromPayout {
        lines := lines + [Line(Payable(seller), Debit, r.seller)];
      } else if r.seller > 0 {
        lines := lines + [Line(Owed(seller), Debit, r.seller)];
        debts := debts[seller := DebtsOf(debts, seller) + [Debt(b, i, r.seller, 0)]];
      }
      assert lines == RefundLines(r, seller);
      var journal := ledger.Record(RefundSource(b, i), lines);
      if journal.None? {
        debts := before;
      }
      return journal.Some?;
    }

    /** finalizeRefund: the row, the journal and the booking's payment state,
        all or nothing. */
    method FinalizeRefund(b: nat, i: nat)
      requires Valid()
      modifies this`cases, this`debts, ledger
      ensures Valid() && Snapshot() == Finalize(old(Snapshot()), b, i)
    {
      hide Inv, Post, R.OtherLive, RefundLines, Incurred;
      FinalizeKeeps(cfg, Snapshot(), b, i);
      if b >= |cases| || i >= |cases[b].refunds| || cases[b].refunds[i].state == R.Processed || R.OtherLive(cases[b].refunds, i) {
        return;
      }
      var ok := RecordRefund(b, i);
      if ok {
        var c, r := cases[b], cases[b].refunds[i];
        cases := cases[b := c.(refunds := c.refunds[i := r.(state := R.Processed, updatedAt := clock)],
          payment := if r.amount >= c.gross then C.FullyRefunded else C.PartiallyRefunded)];
      }
    }

    /** What one worker or operator action makes of a refund row; None when its
        guard refuses it. */
    method MoveRefund(r: R.Refund, action: R.Action) returns (moved: Option<R.Refund>)
      ensures moved == R.Move(r, action, cfg.autoRefunds, clock)
    {
      match action
      case Advance(answer) =>
        if r.state != R.Queued && r.state != R.Submitted {
          return None;
        }
        var c := r.(attempts := r.attempts + 1);
        // Looked up first; only a queued refund that is unknown is sent.
        var status, rejected := None, false;
        match answer {
          case LookupError(refused) => rejected := refused;
          case Known(found) => status := Some(found);
          case Unknown(send) =>
            if r.state != R.Queued {
              return Some(c.(state := R.Failed));
            }
            match send {
              case SendError(refused) => rejected := refused;
              case SendStatus(sent) => status := Some(sent);
            }
        }
        if status == Some(R.Failure) || (status.None? && (rejected || c.attempts >= R.MAX_ATTEMPTS)) {
          c := c.(state := R.Failed);
        } else if status.Some? {
          c := c.(state := R.Submitted, sent := true);
        }
        return Some(c);
      case Approve =>
        if cfg.autoRefunds && r.state == R.PendingApproval {
          return Some(r.(state := R.Queued));
        }
        return None;
      case Retry =>
        if r.state == R.Failed && !r.sent {
          return Some(r.(state := R.Queued, attempts := 0));
        }
        return None;
      case Record =>
        if r.state == R.PendingApproval || r.state == R.Failed {
          return Some(r.(state := R.Submitted));
        }
        return None;
      case AutoRetry =>
        if r.state == R.Failed && !r.sent && r.autoRetries < 3 && r.updatedAt < clock - R.LadderWait(r.autoRetries) {
          return Some(r.(state := R.Queued, attempts := 0, autoRetries := r.autoRetries + 1));
        }
        return None;
    }

    /** Whether a subject has a live refund besides row i. */
    method AnotherLive(rows: seq<R.Refund>, i: nat) returns (found: bool)
      ensures found <==> R.OtherLive(rows, i)
    {
      for k := 0 to |rows|
        invariant forall j | 0 <= j < k && j != i :: !R.Live(rows[j])
      {
        if k != i && rows[k].state != R.Failed {
          return true;
        }
      }
      return false;
    }

    /** The rows of a subject after an action; the unique index refuses a second
        live one. */
    method MoveRow(rows: seq<R.Refund>, i: nat, action: R.Action) returns (after: Option<seq<R.Refund>>)
      ensures after == R.Act(rows, i, action, cfg.autoRefunds, clock)
    {
      hide R.OtherLive, R.Move;
      if i >= |rows| {
        return None;
      }
      var moved := MoveRefund(rows[i], action);
      if moved.None? {
        return None;
      }
      var another := AnotherLive(rows, i);
      if moved.value.state != R.Failed && another {
        return None;
      }
      return Some(rows[i := moved.value.(updatedAt := clock)]);
    }

    /** One worker or operator action on a refund row of a booking. */
    method ActOnRefund(b: nat, i: nat, action: R.Action)
      requires Valid()
      modifies this`cases
      ensures Valid() && Snapshot() == Act(cfg, old(Snapshot()), b, C.RefundAction(i, action))
    {
      hide Inv, R.Act;
      ActKeeps(cfg, Snapshot(), b, C.RefundAction(i, action));
      if b >= |cases| {
        return;
      }
      var rows := MoveRow(cases[b].refunds, i, action);
      if rows.Some? {
        cases := cases[b := cases[b].(refunds := rows.value)];
      }
    }

    /** The same on a refund of a payment that became no booking. */
    method ActOnUnbookedRefund(key: ExceptionKey, i: nat, action: R.Action)
      requires Valid()
      modifies this`exceptions
      ensures Valid() && Snapshot() == ActUnbooked(cfg, old(Snapshot()), key, i, action)
    {
      hide Inv, R.Act;
      ActUnbookedKeeps(cfg, Snapshot(), key, i, action);
      if key !in exceptions {
        return;
      }
      var u := exceptions[key];
      var rows := MoveRow(u.refunds, i, action);
      if rows.Some? {
        exceptions := exceptions[key := u.(refunds := rows.value)];
      }
    }

    /** Whether the unique index would let all due retries through. */
    method PassAllowed() returns (ok: bool)
      ensures ok <==> PassFits(Snapshot())
    {
      hide R.OneLive, R.RetryAll;
      for b := 0 to |cases|
        invariant forall d | 0 <= d < b :: R.OneLive(R.RetryAll(cases[d].refunds, clock))
      {
        if !R.OneLive(R.RetryAll(cases[b].refunds, clock)) {
          return false;
        }
      }
      if k :| k in exceptions && !R.OneLive(R.RetryAll(exceptions[k].refunds, clock)) {
        return false;
      }
      return true;
    }

    method RequeueDueRefunds()
      modifies this`cases, this`exceptions
      ensures Snapshot() == Pass(old(Snapshot()))
    {
      hide R.RetryAll;
      var n := |cases|;
      for b := 0 to n
        invariant exceptions == old(exceptions) && |cases| == n == |old(cases)|
        invariant forall d | 0 <= d < n :: cases[d] == if d < b then RetriedCase(old(cases)[d], clock) else old(cases)[d]
      {
        cases := cases[b := cases[b].(refunds := R.RetryAll(cases[b].refunds, clock))];
      }
      exceptions := map k | k in exceptions :: exceptions[k].(refunds := R.RetryAll(exceptions[k].refunds, clock));
      ghost var goal := Pass(old(Snapshot()));
      assert cases == goal.cases && exceptions == goal.exceptions;
    }

    /** autoRetryFailures, as far as refunds go: one statement, refused as a whole
        when any booking or payment would have two live refunds. */
    method AutoRetryRefunds() returns (ok: bool)
      requires Valid()
      modifies this`cases, this`exceptions
      ensures Valid() && (ok <==> PassFits(old(Snapshot())))
      ensures Snapshot() == if ok then Pass(old(Snapshot())) else old(Snapshot())
    {
      hide Inv, PassFits, Pass;
      ok := PassAllowed();
      if ok {
        ghost var es := PassIsRun(cfg, Snapshot());
        RequeueDueRefunds();
      }
    }

    // ---- bookings ----

    /** previewCancellation's amount for a booking that can be cancelled. */
    method PreviewRefund(c: C.Case, role: C.Role) returns (refund: int)
      ensures refund == C.CancellationRefund(c, role, clock)
    {
      var percent := 100;
      if role == C.Buyer && c.start - clock < C.DAY {
        percent := 0;
      }
      return c.gross * percent / 100;
    }

    /** applyCancellation: a refund that is refused undoes the cancellation. */
    method ApplyCancellation(b: nat, role: C.Role, refund: int) returns (ok: bool)
      requires b < |cases|
      modifies this`cases
      ensures var s := old(Snapshot());
        var d := s.cases[b].(state := C.Cancelled);
        var reason := if role == C.Seller then R.SellerCancelled else R.BuyerCancelled;
        var r := C.Must(C.CreateRefund(cfg, d, Verified(s, d), FeeOf(s, d), refund, reason, s.clock), d);
        && ok == r.Some?
        && Snapshot() == if ok then s.(cases := s.cases[b := r.value]) else s
    {
      hide C.CreateRefund;
      var before, d := cases, cases[b].(state := C.Cancelled);
      cases := cases[b := d];
      var outcome := CreateRefund(b, refund, if role == C.Seller then R.SellerCancelled else R.BuyerCancelled);
      if outcome.NotVerified? || outcome.AlreadyRefunded? {
        cases := before;
        return false;
      }
      assert outcome.Created? ==> before[b := d][b := outcome.c] == before[b := outcome.c];
      return true;
    }

    /** cancelBooking: the refund must still be the one agreed to. */
    method CancelBooking(b: nat, role: C.Role, expected: int) returns (ok: bool)
      requires Valid()
      modifies this`cases
      ensures Valid() && Snapshot() == Act(cfg, old(Snapshot()), b, C.Cancel(role, expected))
    {
      hide Inv, C.CreateRefund, C.CancellationRefund;
      ActKeeps(cfg, Snapshot(), b, C.Cancel(role, expected));
      if b >= |cases| || cases[b].state != C.Confirmed || cases[b].start <= clock {
        return false;
      }
      var refund := PreviewRefund(cases[b], role);
      if expected != refund {
        return false;
      }
      ok := ApplyCancellation(b, role, refund);
    }

    /** settleNoShow on a report that is still undecided. */
    method SettleNoShow(b: nat, absent: C.Role, accepted: bool) returns (ok: bool)
      requires b < |cases| && cases[b].report.Some?
      modifies this`cases
      ensures var s := old(Snapshot());
        var r := C.SettleNoShowStep(cfg, s.clock, Verified(s, s.cases[b]), FeeOf(s, s.cases[b]), s.cases[b], absent, accepted);
        Snapshot() == if r.None? then s else s.(cases := s.cases[b := r.value])
    {
      hide C.CreateRefund;
      var c, before := cases[b], cases;
      if c.report.value.state == C.Accepted || c.report.value.state == C.Rejected {
        return true;
      }
      var d := c.(report := Some(c.report.value.(state := if accepted then C.Accepted else C.Rejected)));
      if accepted && c.state == C.Confirmed {
        d := d.(state := C.NoShow(absent));
      }
      cases := cases[b := d];
      if accepted && c.state == C.Confirmed && absent == C.Seller {
        // The buyer paid for time they did not get.
        var outcome := CreateRefund(b, c.gross, R.SellerNoShow);
        if outcome.AlreadyRefunded? {
          cases := before;
          return false;
        }
      }
      return true;
    }

    /** reportNoShow, from ten minutes after the start until the dispute window
        after the end has passed. */
    method ReportNoShow(b: nat, reporter: C.Role) returns (ok: bool)
      requires Valid()
      modifies this`cases
      ensures Valid() && Snapshot() == Act(cfg, old(Snapshot()), b, C.ReportNoShow(reporter))
    {
      hide Inv;
      ActKeeps(cfg, Snapshot(), b, C.ReportNoShow(reporter));
      if b >= |cases| || cases[b].state != C.Confirmed {
        return false;
      }
      var c := cases[b];
      if clock < c.start + 10 * C.MINUTE || clock > C.Ends(c) + cfg.disputeWindow * C.MINUTE {
        return false;
      }
      var absent, completed := C.Seller, c.buyerDone;
      if reporter == C.Seller {
        absent, completed := C.Buyer, c.sellerDone;
      }
      if completed || c.report.Some? {
        return false;
      }
      cases := cases[b := c.(report := Some(C.Report(absent, C.Open, clock + C.DAY)))];
      return true;
    }

    /** disputeNoShow: the reported person's answer, in time. */
    method DisputeNoShow(b: nat) returns (ok: bool)
      requires Valid()
      modifies this`cases
      ensures Valid() && Snapshot() == Act(cfg, old(Snapshot()), b, C.DisputeNoShow)
    {
      hide Inv;
      ActKeeps(cfg, Snapshot(), b, C.DisputeNoShow);
      ok := b < |cases| && cases[b].report.Some? && cases[b].report.value.state == C.Open && cases[b].report.value.resolvesAt > clock;
      if ok {
        cases := cases[b := cases[b].(report := Some(cases[b].report.value.(state := C.Disputed)))];
      }
    }

    /** reportBookingIssue: a buyer's report only within the dispute window, and
        never over one that is still open. */
    method ReportProblem(b: nat, reporter: C.Role) returns (ok: bool)
      requires Valid()
      modifies this`cases
      ensures Valid() && Snapshot() == Act(cfg, old(Snapshot()), b, C.ReportProblem(reporter))
    {
      hide Inv;
      ActKeeps(cfg, Snapshot(), b, C.ReportProblem(reporter));
      if b >= |cases| {
        return false;
      }
      var c := cases[b];
      if c.state != C.Confirmed && c.state != C.Completed {
        return false;
      }
      if reporter == C.Buyer && clock > C.Ends(c) + cfg.disputeWindow * C.MINUTE {
        return false;
      }
      if c.issue.Issue? && !c.issue.resolved {
        return false;
      }
      cases := cases[b := c.(issue := C.Issue(reporter, clock + cfg.responseWindow * C.MINUTE, false, false))];
      return true;
    }

    /** The reports nobody disputed in time: the twenty longest overdue. */
    method DueReports() returns (ids: seq<nat>)
      ensures Taken(ids, ReportTimes(Snapshot()), BATCH)
    {
      var due := [];
      for b: nat := 0 to |cases|
        invariant |due| == b && forall d: nat | d < b :: due[d] == ReportTime(Snapshot(), d)
      {
        var report, time := cases[b].report, None;
        if report.Some? && report.value.state == C.Open && report.value.resolvesAt <= clock {
          time := Some(report.value.resolvesAt);
        }
        due := due + [time];
      }
      assert due == ReportTimes(Snapshot());
      ids := TakeOldest(due, BATCH);
    }

    /** resolveNoShows: settles the due reports one after the other, and stops
        at the first that is refused. */
    method ResolveNoShows() returns (done: seq<nat>)
      requires Valid()
      modifies this`cases
      ensures Valid() && exists ids: seq<nat> :: Taken(ids, ReportTimes(old(Snapshot())), BATCH) && done <= ids
      ensures Snapshot() == Run(cfg, old(Snapshot()), BatchOf(done, C.AcceptOverdueNoShow))
    {
      hide Inv, Step, C.SettleNoShowStep;
      ghost var s := Snapshot();
      var ids := DueReports();
      var i, ok := 0, true;
      while i < |ids| && ok
        invariant 0 <= i <= |ids|
        invariant Snapshot() == s.(cases := cases) && |cases| == |s.cases|
        invariant Snapshot() == Run(cfg, s, BatchOf(ids, C.AcceptOverdueNoShow)[..i])
        invariant forall b: nat | b < |s.cases| && b !in ids[..i] :: cases[b] == s.cases[b]
      {
        ghost var t := Snapshot();
        RunNext(cfg, s, BatchOf(ids, C.AcceptOverdueNoShow), i);
        AcceptAsDue(cfg, t, ids[i]);
        ok := SettleNoShow(ids[i], cases[ids[i]].report.value.absent, true);
        i := i + 1;
      }
      done := ids[..i];
      assert BatchOf(ids, C.AcceptOverdueNoShow)[..i] == BatchOf(done, C.AcceptOverdueNoShow);
      RunKeeps(cfg, s, BatchOf(done, C.AcceptOverdueNoShow));
    }

    /** opsResolveNoShow */
    method DecideNoShow(b: nat, verdict: C.Verdict)
      requires Valid()
      modifies this`cases
      ensures Valid() && Snapshot() == Act(cfg, old(Snapshot()), b, C.DecideNoShow(verdict))
    {
      hide Inv, C.SettleNoShowStep;
      ActKeeps(cfg, Snapshot(), b, C.DecideNoShow(verdict));
      if b < |cases| && cases[b].report.Some? {
        match verdict
        case BuyerAbsent => var ok := SettleNoShow(b, C.Buyer, true);
        case SellerAbsent => var ok := SettleNoShow(b, C.Seller, true);
        case BothAttended => var ok := SettleNoShow(b, cases[b].report.value.absent, false);
      }
    }

    /** settleProblem: close the report with a refund, unless one is on its way;
        a booking without a verified payment is closed without one. */
    method SettleProblem(b: nat, amount: int)
      requires b < |cases| && cases[b].issue.Issue?
      modifies this`cases
      ensures var s := old(Snapshot());
        var r := C.SettleStep(cfg, s.clock, Verified(s, s.cases[b]), FeeOf(s, s.cases[b]), s.cases[b], amount);
        Snapshot() == if r.None? then s else s.(cases := s.cases[b := r.value])
    {
      hide C.CreateRefund, R.HasLive;
      var c, before := cases[b], cases;
      cases := cases[b := c.(issue := c.issue.(resolved := true))];
      if amount > 0 && !R.HasLive(c.refunds) {
        var outcome := CreateRefund(b, amount, R.ProblemUpheld);
        if outcome.AlreadyRefunded? {
          cases := before;
        }
      }
    }

    /** respondToProblem: refund in full, refund part, or disagree. */
    method RespondToProblem(b: nat, disagree: bool, part: Option<int>)
      requires Valid()
      modifies this`cases
      ensures Valid()
      ensures Snapshot() == Act(cfg, old(Snapshot()), b, if disagree then C.DisagreeWithProblem else C.SettleProblem(part))
    {
      hide Inv, C.SettleStep;
      ActKeeps(cfg, Snapshot(), b, if disagree then C.DisagreeWithProblem else C.SettleProblem(part));
      if b >= |cases| || !C.AwaitsSeller(cases[b]) {
        return;
      }
      if disagree {
        cases := cases[b := cases[b].(issue := cases[b].issue.(disputed := true))];
        return;
      }
      var amount := cases[b].gross;
      if part.Some? {
        if part.value <= 0 || part.value >= cases[b].gross {
          return;
        }
        amount := part.value;
      }
      SettleProblem(b, amount);
    }

    /** The problems no seller has answered in time: the twenty oldest. */
    method DueProblems() returns (ids: seq<nat>)
      ensures Taken(ids, ProblemTimes(Snapshot()), BATCH)
    {
      var due := [];
      for b: nat := 0 to |cases|
        invariant |due| == b && forall d: nat | d < b :: due[d] == ProblemTime(Snapshot(), d)
      {
        var issue, time := cases[b].issue, None;
        if issue.Issue? && !issue.resolved && issue.reporter == C.Buyer && !issue.disputed && issue.respondBy < clock {
          time := Some(issue.respondBy);
        }
        due := due + [time];
      }
      assert due == ProblemTimes(Snapshot());
      ids := TakeOldest(due, BATCH);
    }

    /** resolveUnansweredProblems: silence refunds the buyer in full; a problem
        that cannot be settled is left for the next pass. */
    method ResolveUnansweredProblems() returns (ids: seq<nat>)
      requires Valid()
      modifies this`cases
      ensures Valid() && Taken(ids, ProblemTimes(old(Snapshot())), BATCH)
      ensures Snapshot() == Run(cfg, old(Snapshot()), BatchOf(ids, C.SettleUnanswered))
    {
      hide Inv, Step, C.SettleStep;
      ghost var s := Snapshot();
      ids := DueProblems();
      for i := 0 to |ids|
        invariant Snapshot() == s.(cases := cases) && |cases| == |s.cases|
        invariant Snapshot() == Run(cfg, s, BatchOf(ids, C.SettleUnanswered)[..i])
        invariant forall b: nat | b < |s.cases| && b !in ids[..i] :: cases[b] == s.cases[b]
      {
        ghost var t := Snapshot();
        RunNext(cfg, s, BatchOf(ids, C.SettleUnanswered), i);
        SettleAsDue(cfg, t, ids[i]);
        SettleProblem(ids[i], cases[ids[i]].gross);
      }
      assert BatchOf(ids, C.SettleUnanswered)[..|ids|] == BatchOf(ids, C.SettleUnanswered);
      RunKeeps(cfg, s, BatchOf(ids, C.SettleUnanswered));
    }

    // ---- verified charges ----

    /** fundsAvailableAt: day by day past the weekend. */
    method FundsAvailableAt(atOnce: bool, paid: int) returns (at: int)
      ensures at == FundsAt(cfg, atOnce, paid)
    {
      at := paid;
      if !atOnce {
        at := paid + cfg.settlementHours * Policy.HOUR;
        while Weekend(at)
          invariant !atOnce && FundsAt(cfg, atOnce, paid) == (if !Weekend(at) then at else if Weekday(at) == 5 then at + 2 * Policy.DAY else at + Policy.DAY)
          decreases if Weekend(at) then 7 - Weekday(at) else 0
        {
          assert (at + Policy.DAY) / Policy.DAY == at / Policy.DAY + 1;
          at := at + Policy.DAY;
        }
      }
    }

    /** recordPaymentException: one row per attempt and kind. */
    method RecordPaymentException(a: int, kind: Kind, amount: int)
      requires a in attempts
      modifies this`attempts, this`exceptions
      ensures Snapshot() == RecordException(old(Snapshot()), a, kind, amount)
    {
      var key := ExceptionKey(a, kind);
      if key !in exceptions {
        exceptions := exceptions[key := Unbooked(amount, ExceptionOpen, [])];
      }
      attempts := attempts[a := attempts[a].(state := Exceptional)];
    }

    /** returnUnbookedPayment: the money of an exception goes straight back. */
    method ReturnUnbookedPayment(a: int, kind: Kind, amount: int)
      modifies this`exceptions
      ensures Snapshot() == ReturnUnbooked(cfg, old(Snapshot()), a, kind, amount)
    {
      hide R.HasLive;
      var key := ExceptionKey(a, kind);
      if kind == SettlementMismatch || amount <= 0 || key !in exceptions {
        return;
      }
      var u := exceptions[key];
      if R.HasLive(u.refunds) {
        return; // already being refunded
      }
      u := u.(refunds := u.refunds + [UnbookedRefund(cfg, amount, clock)]);
      if u.state == ExceptionOpen {
        u := u.(state := AwaitingProvider);
      }
      exceptions := exceptions[key := u];
    }

    method RaiseException(a: int, kind: Kind, amount: int)
      requires a in attempts
      modifies this`attempts, this`exceptions
      ensures Snapshot() == Exceptioned(cfg, old(Snapshot()), a, kind, amount)
    {
      RecordPaymentException(a, kind, amount);
      ReturnUnbookedPayment(a, kind, amount);
    }

    /** finalizeExceptionRefund: resolved, and the ledger is not touched. */
    method FinalizeExceptionRefund(key: ExceptionKey, i: nat)
      requires Valid()
      modifies this`exceptions
      ensures Valid() && Snapshot() == FinishUnbooked(old(Snapshot()), key, i)
    {
      hide Inv;
      FinishUnbookedKeeps(cfg, Snapshot(), key, i);
      if key !in exceptions {
        return;
      }
      var u := exceptions[key];
      if i >= |u.refunds| || u.refunds[i].state == R.Processed {
        return;
      }
      var another := AnotherLive(u.refunds, i);
      if another {
        return;
      }
      var rows := u.refunds[i := u.refunds[i].(state := R.Processed, updatedAt := clock)];
      exceptions := exceptions[key := u.(refunds := rows, state := Resolved)];
    }

    /** bookingIDForQuote */
    method FindBooking(quote: int) returns (b: Option<nat>)
      ensures b == BookingForQuote(cases, quote)
    {
      var i := |cases|;
      assert cases[..i] == cases;
      while i > 0
        invariant 0 <= i <= |cases|
        invariant BookingForQuote(cases, quote) == BookingForQuote(cases[..i], quote)
      {
        i := i - 1;
        assert cases[..i + 1][..i] == cases[..i];
        if cases[i].quote == quote {
          return Some(i);
        }
      }
      return None;
    }

    /** The journal of a verified payment. */
    method RecordPayment(a: int, ch: Charge, seller: int) returns (ok: bool)
      requires ledger.Valid() && a in attempts
      modifies ledger
      ensures ledger.Valid()
      ensures Post(old(ledger.Journals()), PaymentSource(a), PaymentLines(attempts[a], ch, seller))
        == if ok then Some(ledger.Journals()) else None
      ensures !ok ==> ledger.Journals() == old(ledger.Journals())
    {
      hide Post;
      var p := attempts[a];
      var price := p.expected - p.buyerFee;
      var lines := [Line(Receivable, Debit, p.expected - ch.fee)];
      if ch.fee > 0 {
        lines := lines + [Line(FeeExpense, Debit, ch.fee)];
      }
      if p.platformFee + p.buyerFee > 0 {
        lines := lines + [Line(FeeRevenue, Credit, p.platformFee + p.buyerFee)];
      }
      if price - p.platformFee > 0 {
        lines := lines + [Line(Payable(seller), Credit, price - p.platformFee)];
      }
      assert lines == PaymentLines(p, ch, seller);
      var journal := ledger.Record(PaymentSource(a), lines);
      return journal.Some?;
    }

    /** The paid booking with its held payout and its journal, or nothing. */
    method CreatePaidBooking(a: int, ch: Charge, seller: int, start: int, duration: nat) returns (ok: bool)
      requires ledger.Valid() && a in attempts
      modifies this`attempts, this`cases, ledger
      ensures ledger.Valid()
      ensures var s := old(Snapshot());
        var booked := Book(cfg, s, a, ch, seller, start, duration);
        ok == booked.Some? && Snapshot() == if ok then booked.value else s
    {
      hide Post, FundsAt, PaymentLines;
      ok := RecordPayment(a, ch, seller);
      if ok {
        var p := attempts[a];
        var price := p.expected - p.buyerFee;
        var fundsAt := FundsAvailableAt(ch.atOnce, clock);
        var payout := C.Payout(C.Scheduled, price - p.platformFee, 0, 0, 1, 0, fundsAt, clock);
        var row := C.Case(p.quote, a, seller, start, duration, price, p.platformFee, p.expected - ch.fee, p.buyerFee,
          C.Confirmed, C.PaidInFull, C.NoIssue, false, false, None, payout, []);
        attempts := attempts[a := p.(state := Succeeded, booking := Some(|cases|))];
        cases := cases + [row];
      }
    }

    /** The end of applyVerifiedCharge: no booking for the quote exists yet. */
    method TakeSlot(a: int, ch: Charge, slot: Slot) returns (booking: Option<nat>)
      requires ledger.Valid() && a in attempts
      modifies this`attempts, this`exceptions, this`cases, ledger
      ensures ledger.Valid()
      ensures var s := old(Snapshot()); (Snapshot(), booking) == FirstCharge(cfg, s, s, a, ch, slot)
    {
      hide Book, Exceptioned;
      booking := None;
      match slot
      case SlotTaken => RaiseException(a, PaymentWithoutSlot, attempts[a].expected);
      case SellerUnavailable => RaiseException(a, PaymentWithoutSlot, attempts[a].expected);
      case OfferClosed => RaiseException(a, OfferConflict, attempts[a].expected);
      case Free(seller, start, duration) =>
        var id := |cases|;
        var ok := CreatePaidBooking(a, ch, seller, start, duration);
        if ok {
          booking := Some(id);
        }
    }

    /** A charge that matches its attempt: record what the buyer really paid,
        then a duplicate, a repeat, or the first payment of the quote. */
    method AcceptVerifiedCharge(a: int, ch: Charge, slot: Slot) returns (booking: Option<nat>)
      requires ledger.Valid() && a in attempts
      modifies this`attempts, this`exceptions, this`cases, ledger
      ensures ledger.Valid() && (Snapshot(), booking) == AcceptCharge(cfg, old(Snapshot()), a, ch, slot)
    {
      hide FirstCharge, BookingForQuote, Exceptioned;
      var before := attempts;
      var p := attempts[a];
      assert attempts == attempts[a := p];
      if !(ch.amount == p.expected && p.buyerFee > 0) && ch.fee != p.buyerFee {
        attempts := attempts[a := p.(expected := p.expected - p.buyerFee + ch.fee, buyerFee := ch.fee)];
      }
      assert Snapshot() == old(Snapshot()).(attempts := before[a := Repriced(p, ch)]);
      var existing := FindBooking(p.quote);
      if existing.None? {
        ghost var t := Snapshot();
        booking := TakeSlot(a, ch, slot);
        FirstChargeRollback(cfg, old(Snapshot()), t, a, ch, slot);
        if booking.None? && slot.Free? {
          attempts := before;
          assert Snapshot() == old(Snapshot());
        }
      } else if p.booking.None? {
        RaiseException(a, DuplicateCharge, ch.amount);
        booking := None;
      } else {
        attempts := attempts[a := attempts[a].(state := Succeeded)];
        booking := existing;
      }
    }

    /** applyVerifiedCharge */
    method ApplyVerifiedCharge(a: int, ch: Charge, slot: Slot) returns (booking: Option<nat>)
      requires Valid()
      modifies this`attempts, this`exceptions, this`cases, ledger
      ensures Valid() && (Snapshot(), booking) == Verify(cfg, old(Snapshot()), a, ch, slot)
    {
      hide Inv, AcceptCharge, Exceptioned, RecordException, AmountOk;
      VerifyKeeps(cfg, Snapshot(), a, ch, slot);
      if a !in attempts || !SnapshotOk(attempts[a]) {
        return None;
      }
      var p := attempts[a];
      booking := None;
      if ch.status != R.Success {
        if p.state != Succeeded && p.state != Exceptional {
          attempts := attempts[a := p.(state := if ch.status == R.Pending then StillPending else NotPaid)];
        }
      } else if !ch.sameReference || !ch.sameCurrency || !AmountOk(p, ch) {
        var kind := if !ch.sameCurrency then WrongCurrency else WrongAmount;
        if ch.sameReference && ch.amount > 0 {
          RaiseException(a, kind, ch.amount);
        } else {
          RecordPaymentException(a, kind, ch.amount);
        }
      } else if ch.fee < 0 {
        RaiseException(a, SettlementMismatch, ch.fee);
      } else {
        booking := AcceptVerifiedCharge(a, ch, slot);
      }
    }
  }
}
