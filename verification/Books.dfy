/** The money tables together with the payout provider's side, and each source
    transaction as one step on them (services/core/cmd/api/payment_processing.go,
    payouts.go, refunds.go, unbooked.go). */
module Books {
  import opened Common
  import opened Policy
  import opened Ledger
  import opened Recovery
  import C = Cases
  import R = Refunds

  datatype AttemptState = AwaitingPayment | StillPending | NotPaid | Succeeded | Exceptional

  /** A payment_attempts row: expected includes the buyer's fee. */
  datatype Attempt = Attempt(
    quote: int, expected: int, buyerFee: int, platformFee: int, state: AttemptState, booking: Option<nat>)

  /** A transfer at the provider. Refused never reached the seller; Returned
      did and came back. Both are final. */
  datatype TransferStatus = InFlight | Delivered | Refused | Returned

  datatype Transfer = Transfer(status: TransferStatus, fee: int)

  /** A payout reference: wmt-payout-<booking>, with -g<generation> from 2 on. */
  datatype Ref = Ref(booking: nat, generation: int)

  datatype PayoutAccount = PayoutAccount(usableFrom: int, updatedAt: int)

  datatype Kind = WrongAmount | WrongCurrency | SettlementMismatch | PaymentWithoutSlot | DuplicateCharge | OfferConflict

  datatype ExceptionState = ExceptionOpen | AwaitingProvider | Resolved

  datatype ExceptionKey = ExceptionKey(attempt: int, kind: Kind)

  /** A payment_exceptions row and the refunds of that payment. */
  datatype Unbooked = Unbooked(amount: int, state: ExceptionState, refunds: seq<R.Refund>)

  datatype Books = Books(
    clock: int,
    attempts: map<int, Attempt>,
    cases: seq<C.Case>,
    debts: map<int, seq<Debt>>,
    journals: seq<Journal>,
    transfers: map<Ref, Transfer>,
    accounts: map<int, PayoutAccount>,
    exceptions: map<ExceptionKey, Unbooked>)

  function DebtsOf(debts: map<int, seq<Debt>>, seller: int): seq<Debt> {
    if seller in debts then debts[seller] else []
  }

  function Max0(x: int): int { if x > 0 then x else 0 }

  // ---- verified charges ----

  datatype Charge = Charge(
    status: R.Status, sameReference: bool, sameCurrency: bool, amount: int, fee: int, atOnce: bool)

  /** What the seller's diary says about the time the quote holds. */
  datatype Slot = Free(seller: int, start: int, duration: nat) | SlotTaken | SellerUnavailable | OfferClosed

  predicate SnapshotOk(p: Attempt) {
    p.buyerFee >= 0 && p.expected - p.buyerFee > 0 && 0 <= p.platformFee <= p.expected - p.buyerFee
  }

  predicate AmountOk(p: Attempt, ch: Charge) {
    var price := p.expected - p.buyerFee;
    ch.amount == p.expected || ch.amount == price || (ch.fee > 0 && ch.amount == price + ch.fee)
  }

  predicate Accepted(p: Attempt, ch: Charge) {
    ch.status == R.Success && ch.sameReference && ch.sameCurrency && AmountOk(p, ch) && ch.fee >= 0
  }

  /** The buyer's fee as the processor reports it, price unchanged. */
  function Repriced(p: Attempt, ch: Charge): Attempt {
    if !(ch.amount == p.expected && p.buyerFee > 0) && ch.fee != p.buyerFee
    then p.(expected := p.expected - p.buyerFee + ch.fee, buyerFee := ch.fee)
    else p
  }

  function BookingForQuote(cases: seq<C.Case>, quote: int): Option<nat> {
    if cases == [] then None
    else if cases[|cases| - 1].quote == quote then Some(|cases| - 1)
    else BookingForQuote(cases[..|cases| - 1], quote)
  }

  /** recordPaymentException. */
  function RecordException(s: Books, a: int, kind: Kind, amount: int): Books
    requires a in s.attempts
  {
    var key := ExceptionKey(a, kind);
    s.(attempts := s.attempts[a := s.attempts[a].(state := Exceptional)],
       exceptions := if key in s.exceptions then s.exceptions else s.exceptions[key := Unbooked(amount, ExceptionOpen, [])])
  }

  function UnbookedRefund(cfg: Config, amount: int, now: int): R.Refund {
    R.Refund(amount, amount, 0, R.UnbookedPayment, R.FromPayout, if cfg.autoRefunds then R.Queued else R.PendingApproval, false, 0, 0, now)
  }

  /** returnUnbookedPayment: the money of an exception goes straight back, once. */
  function ReturnUnbooked(cfg: Config, s: Books, a: int, kind: Kind, amount: int): Books {
    var key := ExceptionKey(a, kind);
    if kind == SettlementMismatch || amount <= 0 || key !in s.exceptions then s
    else
      var u := s.exceptions[key];
      var rs := R.Insert(u.refunds, UnbookedRefund(cfg, amount, s.clock));
      if rs.None? then s
      else s.(exceptions := s.exceptions[key :=
        u.(refunds := rs.value, state := if u.state == ExceptionOpen then AwaitingProvider else u.state)])
  }

  function Exceptioned(cfg: Config, s: Books, a: int, kind: Kind, amount: int): Books
    requires a in s.attempts
  {
    ReturnUnbooked(cfg, RecordException(s, a, kind, amount), a, kind, amount)
  }

  function PaymentLines(p: Attempt, ch: Charge, seller: int): seq<Line> {
    var entitlement := p.expected - p.buyerFee - p.platformFee;
    [Line(Receivable, Debit, p.expected - ch.fee)]
    + When(ch.fee > 0, Line(FeeExpense, Debit, ch.fee))
    + When(p.platformFee + p.buyerFee > 0, Line(FeeRevenue, Credit, p.platformFee + p.buyerFee))
    + When(entitlement > 0, Line(Payable(seller), Credit, entitlement))
  }

  function NewCase(cfg: Config, p: Attempt, a: int, ch: Charge, seller: int, start: int, duration: int, now: int): C.Case {
    var price := p.expected - p.buyerFee;
    C.Case(p.quote, a, seller, start, duration, price, p.platformFee, p.expected - ch.fee, p.buyerFee,
      C.Confirmed, C.PaidInFull, C.NoIssue, false, false, None,
      C.Payout(C.Scheduled, price - p.platformFee, 0, 0, 1, 0, FundsAt(cfg, ch.atOnce, now), now), [])
  }

  ghost function Book(cfg: Config, s: Books, a: int, ch: Charge, seller: int, start: int, duration: int): Option<Books>
    requires a in s.attempts
  {
    var p := s.attempts[a];
    var posted := Post(s.journals, PaymentSource(a), PaymentLines(p, ch, seller));
    if posted.None? then None
    else Some(s.(
      attempts := s.attempts[a := p.(state := Succeeded, booking := Some(|s.cases|))],
      cases := s.cases + [NewCase(cfg, p, a, ch, seller, start, duration, s.clock)],
      journals := posted.value))
  }

  /** applyVerifiedCharge: the new tables and the booking it answers with. An
      error rolls back, leaving the tables as they were. */
  ghost function Verify(cfg: Config, s: Books, a: int, ch: Charge, slot: Slot): (Books, Option<nat>) {
    if a !in s.attempts || !SnapshotOk(s.attempts[a]) then (s, None)
    else
      var p := s.attempts[a];
      if ch.status != R.Success then
        if p.state in {Succeeded, Exceptional} then (s, None)
        else (s.(attempts := s.attempts[a := p.(state := if ch.status == R.Pending then StillPending else NotPaid)]), None)
      else if !ch.sameReference || !ch.sameCurrency || !AmountOk(p, ch) then
        var kind := if !ch.sameCurrency then WrongCurrency else WrongAmount;
        if ch.sameReference && ch.amount > 0 then (Exceptioned(cfg, s, a, kind, ch.amount), None)
        else (RecordException(s, a, kind, ch.amount), None)
      else if ch.fee < 0 then (Exceptioned(cfg, s, a, SettlementMismatch, ch.fee), None)
      else AcceptCharge(cfg, s, a, ch, slot)
  }

  /** A charge that matches its attempt: a second one for the quote, a repeat
      of the one that booked it, or the first. */
  ghost function AcceptCharge(cfg: Config, s: Books, a: int, ch: Charge, slot: Slot): (Books, Option<nat>)
    requires a in s.attempts
  {
    var q := Repriced(s.attempts[a], ch);
    var t := s.(attempts := s.attempts[a := q]);
    var existing := BookingForQuote(s.cases, q.quote);
    if existing.None? then FirstCharge(cfg, s, t, a, ch, slot)
    else if q.booking.None? then (Exceptioned(cfg, t, a, DuplicateCharge, ch.amount), None)
    else (t.(attempts := t.attempts[a := q.(state := Succeeded)]), existing)
  }

  /** t is s with the attempt repriced; an error rolls back to s. */
  ghost function FirstCharge(cfg: Config, s: Books, t: Books, a: int, ch: Charge, slot: Slot): (Books, Option<nat>)
    requires a in t.attempts
  {
    match slot
    case Free(seller, start, duration) =>
      var booked := Book(cfg, t, a, ch, seller, start, duration);
      if booked.None? then (s, None) else (booked.value, Some(|s.cases|))
    case OfferClosed => (Exceptioned(cfg, t, a, OfferConflict, t.attempts[a].expected), None)
    case _ => (Exceptioned(cfg, t, a, PaymentWithoutSlot, t.attempts[a].expected), None)
  }

  // ---- refunds of bookings ----

  function RefundLines(r: R.Refund, seller: int): seq<Line> {
    [Line(Receivable, Credit, r.amount)]
    + When(r.platform > 0, Line(FeeRevenue, Debit, r.platform))
    + When(r.seller > 0, Line(if r.liability == R.FromPayout then Payable(seller) else Owed(seller), Debit, r.seller))
  }

  function Incurred(debts: map<int, seq<Debt>>, seller: int, b: nat, i: nat, r: R.Refund): map<int, seq<Debt>> {
    if r.seller > 0 && r.liability == R.OwedBack
    then debts[seller := DebtsOf(debts, seller) + [Debt(b, i, r.seller, 0)]] else debts
  }

  /** finalizeRefund for a booking's refund. */
  ghost function Finalize(s: Books, b: nat, i: nat): Books {
    if b >= |s.cases| then s
    else
      var c := s.cases[b];
      var rs := R.Finish(c.refunds, i, s.clock);
      if rs.None? then s
      else
        var r := c.refunds[i];
        var posted := Post(s.journals, RefundSource(b, i), RefundLines(r, c.seller));
        if posted.None? then s
        else s.(
          cases := s.cases[b := c.(refunds := rs.value,
            payment := if r.amount >= c.gross then C.FullyRefunded else C.PartiallyRefunded)],
          debts := Incurred(s.debts, c.seller, b, i, r),
          journals := posted.value)
  }

  // ---- payouts ----

  function SetPayout(s: Books, b: nat, p: C.Payout): Books
    requires b < |s.cases|
  {
    s.(cases := s.cases[b := s.cases[b].(payout := p)])
  }

  function PayoutLines(p: C.Payout, seller: int, fee: int): seq<Line> {
    var net := p.amount - p.recovery;
    When(net > 0, Line(Payable(seller), Debit, net)) + When(net > 0, Line(Receivable, Credit, net))
    + When(fee > 0, Line(FeeExpense, Debit, fee)) + When(fee > 0, Line(Receivable, Credit, fee))
  }

  function PaidRow(p: C.Payout, fee: int, now: int): C.Payout {
    p.(state := C.Paid, fees := p.fees + Max0(fee), updatedAt := now)
  }

  /** markPayoutPaid, with the fee the provider reports. */
  ghost function MarkPaid(s: Books, b: nat, fee: int): Option<Books>
    requires b < |s.cases|
  {
    var c := s.cases[b];
    var p := c.payout;
    var lines := PayoutLines(p, c.seller, fee);
    var posted := if lines == [] then Some(s.journals) else Post(s.journals, PayoutSource(b, p.generation), lines);
    if posted.None? then None
    else Some(SetPayout(s, b, PaidRow(p, fee, s.clock)).(journals := posted.value))
  }

  function RecoveryLines(seller: int, recovery: int): seq<Line> {
    [Line(Payable(seller), Debit, recovery), Line(Owed(seller), Credit, recovery)]
  }

  /** Whether the seller has a payout account past its safety hold. */
  predicate AccountUsable(s: Books, seller: int) {
    seller in s.accounts && s.accounts[seller].usableFrom <= s.clock
  }

  /** releasePayout. */
  ghost function Release(cfg: Config, s: Books, b: nat): Books {
    if b >= |s.cases| then s
    else
      var c := s.cases[b];
      var p := c.payout;
      if p.state != C.Scheduled || C.OnHold(c) || C.ReleaseAt(cfg, c) > s.clock then s
      else
        var amount := p.entitlement - R.LiveShares(c.refunds);
        if amount <= 0 then SetPayout(s, b, p.(state := C.Nothing, updatedAt := s.clock))
        else if !AccountUsable(s, c.seller) || !Readable(DebtsOf(s.debts, c.seller)) then s
        else ReleaseAmount(cfg, s, b, amount)
  }

  ghost function ReleaseAmount(cfg: Config, s: Books, b: nat, amount: int): Books
    requires b < |s.cases| && amount > 0
  {
    var c := s.cases[b];
    var ds := DebtsOf(s.debts, c.seller);
    var recovery := Max0(Take(ds, amount, cfg.recoveryBps));
    var posted := if recovery > 0 then Post(s.journals, RecoverySource(b), RecoveryLines(c.seller, recovery)) else Some(s.journals);
    if posted.None? then s
    else
      var t := SetPayout(s, b, c.payout.(state := C.Processing, amount := amount, recovery := recovery, updatedAt := s.clock)).(
        journals := posted.value,
        debts := if recovery > 0 then s.debts[c.seller := Repay(ds, recovery)] else s.debts);
      if amount != recovery then t
      else
        var paid := MarkPaid(t, b, 0);
        if paid.Some? then paid.value else s
  }

  /** failPayout. */
  function Fail(s: Books, b: nat): Books
    requires b < |s.cases|
  {
    SetPayout(s, b, s.cases[b].payout.(state := C.PayoutFailed, updatedAt := s.clock))
  }

  /** applyTransferStatus on a processing payout. */
  ghost function ApplyStatus(s: Books, b: nat, t: Transfer): Books
    requires b < |s.cases|
  {
    match t.status
    case Delivered => var paid := MarkPaid(s, b, t.fee); if paid.Some? then paid.value else s
    case InFlight => s
    case _ => Fail(s, b)
  }

  /** What came of asking the provider to send: nothing was accepted (funds
      still settling, or no answer), it was rejected, or it was accepted, with
      the answer seen or lost on the way back. */
  datatype Reply = NotAccepted | Rejected | AcceptedSilently(t: Transfer) | AcceptedSeen(t: Transfer)

  /** sendPayout: look the reference up first, adopt what is found, otherwise
      send. lookup tells whether the provider could be reached, readable
      whether the sealed bank account could be opened. */
  ghost function Send(s: Books, b: nat, lookup: bool, readable: bool, reply: Reply): Books {
    if b >= |s.cases| || s.cases[b].payout.state != C.Processing || !lookup then s
    else
      var ref := Ref(b, s.cases[b].payout.generation);
      if ref in s.transfers then ApplyStatus(s, b, s.transfers[ref])
      else if !readable then Fail(s, b)
      else match reply
        case NotAccepted => s
        case Rejected => Fail(s, b)
        case AcceptedSilently(t) => s.(transfers := s.transfers[ref := t])
        case AcceptedSeen(t) => ApplyStatus(s.(transfers := s.transfers[ref := t]), b, t)
  }

  predicate Dead(t: Transfer) { t.status == Refused || t.status == Returned }

  /** checkPayoutReversal. */
  ghost function Reverse(s: Books, b: nat): Books {
    if b >= |s.cases| || s.cases[b].payout.state != C.Paid then s
    else
      var c := s.cases[b];
      var ref := Ref(b, c.payout.generation);
      if ref !in s.transfers || !Dead(s.transfers[ref]) then s
      else
        var net := c.payout.amount - c.payout.recovery;
        var lines := [Line(Receivable, Debit, net), Line(Payable(c.seller), Credit, net)];
        var posted := if net > 0 then Post(s.journals, ReversalSource(b, c.payout.generation), lines) else Some(s.journals);
        if posted.None? then s else Fail(s, b).(journals := posted.value)
  }

  function PayoutLadder(generation: int): int {
    if generation == 1 then 2 * R.HOUR else if generation == 2 then 12 * R.HOUR
    else if generation == 3 then 24 * R.HOUR else 48 * R.HOUR
  }

  predicate AutoRetryDue(s: Books, p: C.Payout, account: PayoutAccount) {
    || (account.updatedAt > p.updatedAt && p.generation < 20)
    || (p.generation <= 4 && p.updatedAt < s.clock - PayoutLadder(p.generation))
  }

  function Retried(p: C.Payout, now: int): C.Payout {
    p.(state := C.Processing, generation := p.generation + 1, updatedAt := now)
  }

  /** opsRetryPayout and autoRetryFailedPayouts: a new generation, a new reference. */
  function RetryPayout(s: Books, b: nat, automatic: bool): Books {
    if b >= |s.cases| || s.cases[b].payout.state != C.PayoutFailed || !AccountUsable(s, s.cases[b].seller) then s
    else
      var p := s.cases[b].payout;
      if automatic && !AutoRetryDue(s, p, s.accounts[s.cases[b].seller]) then s
      else SetPayout(s, b, Retried(p, s.clock))
  }

  /** setPayoutAccount: a different account waits a day before it is used. */
  function SaveAccount(s: Books, seller: int, different: bool): Books {
    var usable :=
      if seller !in s.accounts then s.clock
      else if different then s.clock + C.DAY else s.accounts[seller].usableFrom;
    s.(accounts := s.accounts[seller := PayoutAccount(usable, s.clock)])
  }

  /** What the provider may do to a transfer it accepted. */
  predicate TransferMoves(t: Transfer, u: Transfer) {
    || (t.status == InFlight && u.status in {Delivered, Refused})
    || (t.status == Delivered && u.status == Returned && t.fee == u.fee)
  }

  // ---- the run ----

  datatype Event =
    | Tick(to: int)
    | StartAttempt(attempt: int, quote: int, price: int)
    | QuoteFee(attempt: int, fee: int)
    | VerifyCharge(attempt: int, charge: Charge, slot: Slot)
    | OnBooking(booking: nat, what: C.Event)
    | FinalizeRefund(booking: nat, refund: nat)
    | ReleasePayout(booking: nat)
    | SendPayout(booking: nat, lookup: bool, readable: bool, reply: Reply)
    | CheckReversal(booking: nat)
    | Retry(booking: nat, automatic: bool)
    | ProviderMoves(ref: Ref, t: Transfer)
    | SavePayoutAccount(seller: int, different: bool)
    | UnbookedAction(key: ExceptionKey, row: nat, action: R.Action)
    | FinalizeUnbooked(key: ExceptionKey, row: nat)
    | ResolveException(key: ExceptionKey)

  /** initializeQuoteCheckout: a new attempt for the price of a quote, fee still
      unknown. No quote costs more than MAX_PRICE. */
  function Start(cfg: Config, s: Books, a: int, quote: int, price: int): Books {
    if a in s.attempts || price <= 0 || price > MAX_PRICE || price < cfg.minCharge || price > cfg.maxCharge then s
    else s.(attempts := s.attempts[a := Attempt(quote, price, 0, BasisPoints(price, cfg.feeBps), AwaitingPayment, None)])
  }

  /** The transfer account shows price plus fee, the fee being bounded. */
  function WithFee(s: Books, a: int, fee: int): Books {
    if a !in s.attempts || fee < 0 then s
    else
      var p := s.attempts[a];
      if fee > (p.expected - p.buyerFee) * 1000 / 10000 + 10000 then s else
      s.(attempts := s.attempts[a := p.(expected := p.expected - p.buyerFee + fee, buyerFee := fee)])
  }

  predicate Verified(s: Books, c: C.Case) { c.attempt in s.attempts && s.attempts[c.attempt].state == Succeeded }

  function FeeOf(s: Books, c: C.Case): int { if c.attempt in s.attempts then s.attempts[c.attempt].buyerFee else 0 }

  function Act(cfg: Config, s: Books, b: nat, e: C.Event): Books {
    if b >= |s.cases| then s
    else
      var c := s.cases[b];
      var r := C.Step(cfg, s.clock, Verified(s, c), FeeOf(s, c), c, e);
      if r.None? then s else s.(cases := s.cases[b := r.value])
  }

  function ActUnbooked(cfg: Config, s: Books, key: ExceptionKey, i: nat, action: R.Action): Books {
    if key !in s.exceptions then s
    else
      var u := s.exceptions[key];
      var rs := R.Act(u.refunds, i, action, cfg.autoRefunds, s.clock);
      if rs.None? then s else s.(exceptions := s.exceptions[key := u.(refunds := rs.value)])
  }

  /** finalizeExceptionRefund: resolved, and the ledger is not touched. */
  function FinishUnbooked(s: Books, key: ExceptionKey, i: nat): Books {
    if key !in s.exceptions then s
    else
      var u := s.exceptions[key];
      var rs := R.Finish(u.refunds, i, s.clock);
      if rs.None? then s else s.(exceptions := s.exceptions[key := u.(refunds := rs.value, state := Resolved)])
  }

  ghost function Step(cfg: Config, s: Books, e: Event): Books {
    match e
    case Tick(to) => if to < s.clock then s else s.(clock := to)
    case StartAttempt(a, quote, price) => Start(cfg, s, a, quote, price)
    case QuoteFee(a, fee) => WithFee(s, a, fee)
    case VerifyCharge(a, ch, slot) => Verify(cfg, s, a, ch, slot).0
    case OnBooking(b, what) => Act(cfg, s, b, what)
    case FinalizeRefund(b, i) => Finalize(s, b, i)
    case ReleasePayout(b) => Release(cfg, s, b)
    case SendPayout(b, lookup, readable, reply) => Send(s, b, lookup, readable, reply)
    case CheckReversal(b) => Reverse(s, b)
    case Retry(b, automatic) => RetryPayout(s, b, automatic)
    case ProviderMoves(ref, t) =>
      if ref in s.transfers && TransferMoves(s.transfers[ref], t) then s.(transfers := s.transfers[ref := t]) else s
    case SavePayoutAccount(seller, different) => SaveAccount(s, seller, different)
    case UnbookedAction(key, i, action) => ActUnbooked(cfg, s, key, i, action)
    case FinalizeUnbooked(key, i) => FinishUnbooked(s, key, i)
    case ResolveException(key) =>
      if key in s.exceptions then s.(exceptions := s.exceptions[key := s.exceptions[key].(state := Resolved)]) else s
  }

  ghost function Run(cfg: Config, s: Books, es: seq<Event>): Books {
    if es == [] then s else Step(cfg, Run(cfg, s, es[..|es| - 1]), es[|es| - 1])
  }

  function Initial(clock: int): Books { Books(clock, map[], [], map[], [], map[], map[], map[]) }
}
