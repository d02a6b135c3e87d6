/** The refund rows of one subject (a booking, or a payment that could not
    become one), and how each row moves (services/core/cmd/api/refunds.go,
    automation.go, unbooked.go, services/core/internal/store/refunds.sql.go). */
module Refunds {
  import opened Common

  datatype Reason = BuyerCancelled | SellerCancelled | SellerNoShow | Operator | ProblemUpheld | UnbookedPayment

  datatype State = PendingApproval | Queued | Submitted | Processed | Failed

  /** Whether the seller's share comes out of the held payout or is owed back. */
  datatype Liability = FromPayout | OwedBack

  datatype Refund = Refund(
    amount: int, platform: int, seller: int, reason: Reason, liability: Liability,
    state: State, sent: bool, attempts: int, autoRetries: int, updatedAt: int)

  datatype Status = Success | Failure | Pending

  datatype SendReply = SendError(rejected: bool) | SendStatus(status: Status)

  /** What the provider answered about a refund reference in one attempt. */
  datatype Answer = LookupError(rejected: bool) | Unknown(send: SendReply) | Known(status: Status)

  datatype Action = Advance(answer: Answer) | Approve | Retry | Record | AutoRetry

  const MAX_ATTEMPTS := 8
  const HOUR := 3600

  predicate Live(r: Refund) { r.state != Failed }

  predicate HasLive(rs: seq<Refund>) { exists i :: 0 <= i < |rs| && Live(rs[i]) }

  predicate OtherLive(rs: seq<Refund>, i: nat) { exists k :: 0 <= k < |rs| && k != i && Live(rs[k]) }

  /** The unique index on refunds that are not failed. */
  predicate OneLive(rs: seq<Refund>) {
    forall i, j | 0 <= i < j < |rs| :: !(Live(rs[i]) && Live(rs[j]))
  }

  predicate FailedFromPayout(rs: seq<Refund>) {
    exists i :: 0 <= i < |rs| && rs[i].state == Failed && rs[i].liability == FromPayout
  }

  function AfterError(r: Refund, rejected: bool): Refund {
    if rejected || r.attempts >= MAX_ATTEMPTS then r.(state := Failed) else r
  }

  function AfterStatus(r: Refund, status: Status): Refund {
    if status == Failure then r.(state := Failed) else r.(state := Submitted, sent := true)
  }

  /** advanceRefund on a claimed row (claiming counts the attempt). */
  function Advanced(r: Refund, answer: Answer): Refund {
    var c := r.(attempts := r.attempts + 1);
    match answer
    case LookupError(rejected) => AfterError(c, rejected)
    case Known(status) => AfterStatus(c, status)
    case Unknown(send) =>
      if r.state != Queued then c.(state := Failed)
      else match send
        case SendError(rejected) => AfterError(c, rejected)
        case SendStatus(status) => AfterStatus(c, status)
  }

  function LadderWait(autoRetries: int): int {
    if autoRetries == 0 then HOUR else if autoRetries == 1 then 6 * HOUR else 24 * HOUR
  }

  function Requeued(r: Refund): Refund { r.(state := Queued, attempts := 0) }

  /** A failed refund the provider never accepted, whose next automatic try has come. */
  predicate RetryDue(r: Refund, now: int) {
    r.state == Failed && !r.sent && r.autoRetries < 3 && r.updatedAt < now - LadderWait(r.autoRetries)
  }

  /** One worker or operator action on a row; None when its guard refuses it. */
  function Move(r: Refund, action: Action, autoRefunds: bool, now: int): Option<Refund> {
    match action
    case Advance(answer) =>
      if r.state == Queued || r.state == Submitted then Some(Advanced(r, answer)) else None
    case Approve =>
      if autoRefunds && r.state == PendingApproval then Some(r.(state := Queued)) else None
    case Retry =>
      if r.state == Failed && !r.sent then Some(Requeued(r)) else None
    case Record =>
      if r.state == PendingApproval || r.state == Failed then Some(r.(state := Submitted)) else None
    case AutoRetry =>
      if RetryDue(r, now) then Some(Requeued(r).(autoRetries := r.autoRetries + 1)) else None
  }

  /** The same on the table: a failed row comes back to life only while the
      subject has no other live refund. */
  function Act(rs: seq<Refund>, i: nat, action: Action, autoRefunds: bool, now: int): Option<seq<Refund>> {
    if i >= |rs| then None
    else
      var moved := Move(rs[i], action, autoRefunds, now);
      if moved.None? || (Live(moved.value) && OtherLive(rs, i)) then None
      else Some(rs[i := moved.value.(updatedAt := now)])
  }

  /** The automatic tries of one subject, as the one statement over the whole
      table makes them: every row that is due, whatever else is live. */
  function RetryAll(rs: seq<Refund>, now: int): (r: seq<Refund>)
    ensures |r| == |rs|
  {
    seq(|rs|, i requires 0 <= i < |rs| =>
      if RetryDue(rs[i], now) then Requeued(rs[i]).(autoRetries := rs[i].autoRetries + 1, updatedAt := now) else rs[i])
  }

  /** finalizeRefund's row: everything but a processed row becomes processed. */
  function Finish(rs: seq<Refund>, i: nat, now: int): Option<seq<Refund>> {
    if i >= |rs| || rs[i].state == Processed || OtherLive(rs, i) then None
    else Some(rs[i := rs[i].(state := Processed, updatedAt := now)])
  }

  /** Inserting a new (live) refund. */
  function Insert(rs: seq<Refund>, r: Refund): Option<seq<Refund>> {
    if HasLive(rs) then None else Some(rs + [r])
  }

  /** What no action ever changes about a row. */
  ghost predicate SameRefund(a: Refund, b: Refund) {
    && a.amount == b.amount && a.platform == b.platform && a.seller == b.seller
    && a.reason == b.reason && a.liability == b.liability
    && (a.state == Processed ==> b.state == Processed)
  }

  ghost predicate Grown(rs: seq<Refund>, rs': seq<Refund>) {
    && |rs| <= |rs'|
    && (forall i | 0 <= i < |rs| :: SameRefund(rs[i], rs'[i]))
  }

  lemma ActKeeps(rs: seq<Refund>, i: nat, action: Action, autoRefunds: bool, now: int)
    requires OneLive(rs) && Act(rs, i, action, autoRefunds, now).Some?
    ensures var rs' := Act(rs, i, action, autoRefunds, now).value;
      && OneLive(rs') && Grown(rs, rs') && |rs'| == |rs|
      && rs[i].state != Processed && rs'[i].state != Processed
  {}

  lemma FinishKeeps(rs: seq<Refund>, i: nat, now: int)
    requires OneLive(rs) && Finish(rs, i, now).Some?
    ensures var rs' := Finish(rs, i, now).value; OneLive(rs') && Grown(rs, rs') && |rs'| == |rs|
  {}

  lemma InsertKeeps(rs: seq<Refund>, r: Refund)
    requires OneLive(rs) && Insert(rs, r).Some?
    ensures OneLive(rs + [r]) && Grown(rs, rs + [r])
  {}

  // The sums the payout and the ledger depend on.

  ghost function LiveShareOf(): Refund -> int {
    (r: Refund) => if Live(r) && r.liability == FromPayout then r.seller else 0
  }

  ghost function ProcessedShareOf(): Refund -> int {
    (r: Refund) => if r.state == Processed && r.liability == FromPayout then r.seller else 0
  }

  ghost function ProcessedAmountOf(): Refund -> int {
    (r: Refund) => if r.state == Processed then r.amount else 0
  }

  ghost function ProcessedPlatformOf(): Refund -> int {
    (r: Refund) => if r.state == Processed then r.platform else 0
  }

  /** Seller shares of the refunds that come out of the payout and are not failed. */
  ghost function LiveShares(rs: seq<Refund>): int { Sum(LiveShareOf(), rs) }

  ghost function ProcessedShares(rs: seq<Refund>): int { Sum(ProcessedShareOf(), rs) }

  ghost function ProcessedAmount(rs: seq<Refund>): int { Sum(ProcessedAmountOf(), rs) }

  ghost function ProcessedPlatform(rs: seq<Refund>): int { Sum(ProcessedPlatformOf(), rs) }

  lemma {:induction false} AllFailedIsZero(rs: seq<Refund>)
    requires !HasLive(rs)
    ensures LiveShares(rs) == 0 && ProcessedShares(rs) == 0 && ProcessedAmount(rs) == 0
  {
    if rs != [] {
      assert !Live(rs[|rs| - 1]);
      var init := rs[..|rs| - 1];
      assert forall k | 0 <= k < |init| :: init[k] == rs[k];
      AllFailedIsZero(init);
    }
  }

  /** With one live row at most, the sum over live shares is that row's share. */
  lemma {:induction false} LiveSharesIs(rs: seq<Refund>, i: nat)
    requires OneLive(rs) && i < |rs| && Live(rs[i])
    ensures LiveShares(rs) == LiveShareOf()(rs[i])
  {
    var last := |rs| - 1;
    var init := rs[..last];
    if i == last {
      assert forall k | 0 <= k < |init| :: init[k] == rs[k];
      assert !HasLive(init);
      AllFailedIsZero(init);
    } else {
      assert !Live(rs[last]);
      LiveSharesIs(init, i);
    }
  }

  /** Live shares never exceed a bound that every from-payout share respects. */
  lemma LiveSharesAtMost(rs: seq<Refund>, bound: int)
    requires OneLive(rs) && bound >= 0
    requires forall i | 0 <= i < |rs| :: rs[i].liability == FromPayout ==> rs[i].seller <= bound
    ensures LiveShares(rs) <= bound
  {
    if HasLive(rs) {
      var i :| 0 <= i < |rs| && Live(rs[i]);
      LiveSharesIs(rs, i);
    } else {
      AllFailedIsZero(rs);
    }
  }
}
