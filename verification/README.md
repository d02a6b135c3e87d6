# WantMyTime core: money, time and text, verified

WantMyTime sells short paid conversations. A buyer picks a free time or agrees
a price with the seller, pays, and the money is held until the conversation is
over; then it goes to the seller's bank account, less refunds and less what the
seller owes from earlier ones. This project models the Go service
`services/core` and proves what its tables, its ledger and its wire formats
keep over every run. `dafny verify dfyconfig.toml` checks all of it.

## How it is built

- **Money.** `Cases` is one booking with its payout, refunds and no-show
  report; `Books` is all bookings with payment attempts, debts, journals,
  exceptions, payout accounts and the payout provider's transfers. Each source
  transaction is one step. `Desk` is the service as it runs: a class whose
  methods update the tables in place, with the source's loops and rollbacks,
  and each `ensures` equates the new tables with the step applied to the old
  ones, so everything proved about steps and runs holds of the class.
  `LedgerTables` does the same for journal, account and entry rows.
  `Batch` is ORDER BY with LIMIT, `RetryPass` the one statement that retries
  all failed refunds.
- **The money invariant** (`BooksInvariant`, kept by `MoneySteps`,
  `ReleaseSteps`, `Runs`; what only ever moves forward is in `Onward`) ties
  rows, ledger and provider together: which journal sources have been posted
  says which rows have reached which state, so no posting ever meets its own
  source again and every posting carries exactly the change of the rows. From
  it follow `MoneyTheorems` (what is always so), `Progress`
  (what is due is done), `FeeTheorem`, `ChargeTheorems`,
  `DoubleReturn` and `FaultTheorems`.
- **Laws in columns.** A lemma called `...Exactly` states when an operation is
  accepted and what it leaves behind in the tables' columns and in numbers,
  without the functions that define the step: `Answers` for payments,
  `PayoutRules` and `Progress` for payouts, `BookingRules` and `FaultTheorems`
  for what happens to a booking, `RefundRuns` for one refund over any run,
  `Passes` for the rows a worker pass takes,
  `OfferRules`, `SlotRules`, `QuoteRules` and `LiveHolds` for offers and
  reserved time.
- **Time.** `Offers` and `Diary` are the rules for negotiations, quotes,
  holds and reservations; `Calendar` updates them in place; `World` joins them
  with the money tables, `WorldRuns` proves the promises that need all three,
  `LiveHolds` that a running hold is safe from others, and `HoldCap` how many
  holds a buyer can have. `Availability` is the slot list
  against the independent check.
- **Text and counters.** `CalendarText`, `CalendarEvent`, `Resp`,
  `RateLimiter`, `Outbox`, `Amounts` and `References` are small loops with an
  exact meaning, each proved against a specification function whose properties
  (round trips, bounds) are then proved for all inputs.

A state is *reachable* when some run from empty tables leads to it. Lemmas
stated from `Inv` hold from every reachable state, since `Runs.ReachableInv`
and `WorldRuns.ReachableInv` prove it there. Money is in minor units, times are
seconds; a payout the source calls "cancelled" is `Nothing` here.

Assumed: a transaction is atomic; the database refuses a second refund of a
booking that is not failed and overlapping active reservations of a seller
(both are guards of the steps); and the payout provider never pays a reference
twice and finds every reference it accepted, while its answers may be lost and
its transfers may fail late or come back.

## What the proofs found

- `settleNoShow` (services/core/cmd/api/noshow.go:190-201) tolerates "no
  verified payment". When a later provider answer has marked the booked attempt
  as an exception, a seller found absent is still paid. The promise holds if
  and only if the attempt is still a success when the report is accepted
  (`FaultTheorems.SellerNoShowExactly`); `FaultTheorems.SellerAtFaultCanBePaid`
  is a run that ends with the transfer in flight.
- `foldICSLine` never ends on some text that is not valid UTF-8;
  `CalendarText.FoldEndsExactly` says on which.
- `refundShares` multiplies in int64 and is right exactly while one product
  fits (`Policy.RefundSharesExactIff`). No price that can be quoted comes near
  the limit (`Policy.ExactBelowLimit`, `World.FixedPrice`).
- `expectedProcessorCost` saturates before it applies the cap, so a configured
  cap is ignored once the uncapped cost leaves int64
  (`Policy.ProcessorCostExact`, `Policy.CapCanBeIgnored`).
- A charge is refused by the ledger, again at every retry, exactly when the
  buyer paid a total that includes a transfer fee and the processor kept at
  least that total, or when the total leaves int64
  (`ChargeTheorems.BooksExactlyWhen`,
  `ChargeTheorems.FeeReachesTotalExactlyWhen`,
  `ChargeTheorems.BookingCanBeRefused`).
- One payment can be booked and sent back: `applyVerifiedCharge` looks neither
  at an attempt's exceptions before it books nor at its booking before it
  records an exception. `DoubleReturn.BothExactlyWhen` gives the exact guard
  over every run, `DoubleReturn.BothCanHappen` a run for each way.
- The cap of three holds a buyer is broken by one step only: a late payment that
  gets its time back and is then not booked, because the seller is unavailable
  or the offer closed, keeps the reclaimed hold. `HoldCap.StepHolds` is the law
  of a step, `HoldCap.CapOverRuns` that of a run, and
  `HoldCap.CapCanBeExceeded` reaches four.
- The automatic retries of failed refunds stop for everybody, and with them
  those of payment events and emails later in the same pass, as long as one
  booking has a due failed refund beside a live one
  (`RetryPass.StandsInTheWay`, `RetryPass.SecondRefundStandsInTheWay`).
- A limiter lets through up to twice its limit around the end of a window, and
  no more (`RateLimiter.TwiceIsReached`, `RateLimiter.AtMostTwiceTheLimit`).
- `releasePayout` reads each open debt into 32 bits and fails on a larger one;
  no debt ever is, as long as no conversation costs more than the highest price
  that can be asked (`Progress.DebtsAreReadable`).

## Model

| member | source | states |
|---|---|---|
| `Policy.BasisPointsExact` | services/core/cmd/api/checkout.go:61-75 | platform fee and recovery cap: for every int64 amount and every rate up to 10000, the quotient-and-remainder form never wraps and equals the floor of the exact share |
| `Policy.ProcessorCostExact` | services/core/cmd/api/checkout.go:77-91 | the processor cost is min(cap, share rounded up + fixed part), and the largest int64 once the uncapped cost does not fit, which comes before the cap |
| `Policy.CapCanBeIgnored` | services/core/cmd/api/checkout.go:77-91 | a cost too large for int64 that is reported as the largest int64 against a cap of 200000 |
| `Policy.RefundSharesSplit` | services/core/cmd/api/policy.go:42-49 | any refund up to the price splits into a platform share (the floored proportion, at most the deduction) and a seller share (at most the entitlement) that add up to it; the whole price splits into exactly deduction and entitlement |
| `Policy.RefundSharesExactIff` | services/core/cmd/api/policy.go:42-49 | for every int64 price the platform share is the floored proportion if and only if the one product formed fits in an int64 |
| `Policy.RefundSharesCanWrap` | services/core/cmd/api/policy.go:42-49 | one price, above any that can be quoted, whose refund shares come out wrong |
| `Policy.ExactBelowLimit` | services/core/cmd/api/policy.go:42-49 | below 135.8 million major units with a fee of at most five percent the product always fits |
| `Policy.ConfiguredDelays` | services/core/cmd/api/payout_provider.go:248-270 | the configured dispute window, payout delay and recovery cap for any environment; the payout delay leaves at least half an hour after the dispute window |
| `Policy.FundsOnWorkingDay` | services/core/cmd/api/payment_processing.go:387-401 | a card payment is in the balance after the settlement wait, moved by no, one or two whole days to the first day from Monday to Friday; a bank transfer at once |
| `Desk.Desk.FundsAvailableAt` | services/core/cmd/api/payment_processing.go:387-401 | the day-by-day loop computes that time, and the moment of payment for a bank transfer |
| `References.ReferencesDiffer` | services/core/cmd/api/payouts.go:40-46 | two transfer references are equal only for the same booking and the same generation |
| `Ledger.PostKeepsSound` | services/core/cmd/api/ledger.go:26-90 | posting keeps the ledger sound: one journal a source, each balanced with positive lines and totals within int64 |
| `Ledger.PostTwice` | services/core/cmd/api/ledger.go:26-90 | posting the same journal again succeeds and changes nothing; another journal under a used source is refused |
| `Ledger.TrialBalance` | services/core/cmd/api/ledger.go:26-90 | over any sound ledger, all debits equal all credits |
| `LedgerTables.Tables.Balanced` | services/core/cmd/api/ledger.go:26-50 | the checking loop, with its early exits on overflow, accepts exactly the postable lists of lines |
| `LedgerTables.Tables.AccountId` | services/core/internal/store/ledger.sql.go:12-49 | insert-if-absent gives every account identity exactly one row |
| `LedgerTables.Tables.FindJournal` | services/core/internal/store/ledger.sql.go:101-120 | finds the journal stored under a source, or there is none |
| `LedgerTables.Tables.Record` | services/core/cmd/api/ledger.go:26-90 | writing journal, account and entry rows is exactly the posting of a value-level journal; a refusal leaves all three tables unchanged |
| `LedgerTables.BalanceFromEntries` | services/core/internal/store/ledger.sql.go:51-99 | adding up an account's rows of the entry table gives its balance over all journals |
| `Recovery.RepayExact` | services/core/cmd/api/refunds.go:206-225 | a repayment within the debt lowers what is owed by exactly its amount |
| `Recovery.RepayBounded` | services/core/cmd/api/refunds.go:206-225 | no debt is over-repaid, loses a repayment or changes size |
| `Recovery.RepayInOrder` | services/core/cmd/api/refunds.go:206-225 | repaying keeps the oldest-first order: whatever has received anything has nothing older left open |
| `Recovery.TakeExact` | services/core/cmd/api/payouts.go:206-221 | a payout repays exactly min(owed, floor(amount x cap / 10000)), never more than itself |
| `Recovery.IncurKeepsOrder` | services/core/cmd/api/refunds.go:181-187 | a new debt is the youngest and untouched |
| `Recovery.OldestFirstShape` | services/core/cmd/api/refunds.go:206-225 | in that order some position separates fully repaid debts from untouched ones |
| `Desk.Desk.ApplyRecovery` | services/core/cmd/api/refunds.go:206-225 | the loop over the open debts hands the amount out oldest first, other sellers untouched |
| `Desk.Desk.TakeRecovery` | services/core/cmd/api/payouts.go:206-221 | sums the open debts, caps the share and applies it; a debt too large for its 32-bit column makes it fail without a change |
| `CaseRules.NewRefundOk` | services/core/cmd/api/refunds.go:21-66 | a new refund's shares fit the booking; for a seller's fault at the full price it is price plus buyer's fee, with the whole entitlement charged to the seller, and it comes out of the payout exactly while that is unreleased |
| `CaseRules.CreateRefundKeeps` | services/core/cmd/api/refunds.go:21-66 | inserting a refund keeps at most one live refund and all the booking's rules |
| `CaseRules.StepKeeps` | services/core/cmd/api/bookings.go:578-652 | every step on a booking (cancel, move, complete, report, dispute, settle, refund actions) keeps its rules and moves no money by itself |
| `CaseRules.NeverMoreThanEntitlement` | services/core/cmd/api/payouts.go:137-151 | the released amount plus the live refunds charged to the payout never exceeds the entitlement |
| `CaseRules.WindowsClosed` | services/core/cmd/api/payout_provider.go:248-260 | a released payout means the problem and no-show windows are past |
| `BookingRules.RefundedExactly` | services/core/cmd/api/refunds.go:21-66 | a refund nobody is at fault for: made if and only if the booking is paid in full, its payment verified and no other refund stands; one row of exactly that amount, the platform's part in the proportion of its deduction rounded down, out of the payout until that is released with something to pay |
| `BookingRules.AbsenceIsReported` | services/core/cmd/api/noshow.go:28-210 | over report, dispute and settlement: who may report, from ten minutes after the start until the dispute window after the end closes; disputed only within the next day, standing by itself only after it and only undisputed; an absent buyer gets nothing back |
| `BookingRules.AbsenceIsDecided` | services/core/cmd/api/noshow.go:162-280 | an operator's verdict closes an open or disputed report once, and rejects it or settles the booking |
| `BookingRules.ProblemIsReported` | services/core/cmd/api/bookings.go:578-652 | a buyer reports a problem until the dispute window after the end closes, a seller at any time, nobody while one is open |
| `BookingRules.ProblemIsAnswered` | services/core/cmd/api/automation.go:34-205 | a buyer's problem is settled by the seller with the price or a part strictly below it, disagreed with, or settled in full once the response window is past, each if and only if it is unanswered; closing it leaves one refund of that amount exactly where one can be made |
| `BookingRules.OperatorDecides` | services/core/cmd/api/ops.go:203-277 | an operator closes a problem with any refund up to the price, or refunds without one; a refund that cannot be made leaves everything as it was |
| `BookingRules.CompletedByBoth` | services/core/cmd/api/bookings.go:719-772 | each side may call the booking done after its end; it is completed when both have, in either order |
| `BookingRules.MovedAhead` | services/core/cmd/api/bookings.go:390-466 | only a standing booking that has not begun is moved, never into the past |
| `Desk.Desk.RefundRow` | services/core/cmd/api/refunds.go:21-66 | the row that is inserted: clamped amount, shares, fee for a seller's fault, liability, first state |
| `Desk.Desk.CreateRefund` | services/core/cmd/api/refunds.go:21-66 | all four outcomes (nothing to refund, not verified, already refunded, created), and the table after each |
| `Desk.Desk.ActOnRefund` | services/core/cmd/api/refunds.go:94-141 | one worker or operator action on a booking's refund row: the row moves as its guards say, or nothing changes, and a second live refund is refused |
| `Desk.Desk.MoveRefund` | services/core/cmd/api/refunds.go:94-141 | what one action makes of a row: look up first, send only a queued refund that is unknown, fail on rejection or the eighth attempt; approve, retry and record under their guards |
| `Desk.Desk.ActOnUnbookedRefund` | services/core/cmd/api/unbooked.go:76-142 | the same for the refund of a payment that became no booking |
| `Desk.Desk.AutoRetryRefunds` | services/core/cmd/api/automation.go:218-234 | the automatic retries of all failed refunds are one statement: all due rows, or none when any subject would get two live refunds |
| `RefundRuns.AdvancedExactly` | services/core/cmd/api/refunds.go:94-140 | one worker step for every answer: what fails, what is submitted for good, and that the eighth error ends it |
| `RefundRuns.AutoRetriedExactly` | services/core/cmd/api/automation.go:207-223 | an automatic retry comes 1, 6 and 24 hours after the failure, never a fourth time and never for a refund the provider accepted |
| `RefundRuns.OperatedExactly` | services/core/cmd/api/refunds.go:278-340 | which rows an operator approves, puts back or records by hand |
| `RefundRuns.FewSends` | services/core/cmd/api/refunds.go:94-140 | over every run of actions a refund is sent at most 8 x (1 + times it was put back), of which at most three are automatic |
| `RefundRuns.AcceptedIsNeverResent` | services/core/cmd/api/refunds.go:88-140 | once the provider has accepted a refund, no run of actions ever sends it again |
| `RetryPass.PassIsRun` | services/core/cmd/api/automation.go:218-234 | a pass that goes through is a run of single retries, so it keeps the money invariant and everything proved of runs |
| `RetryPass.StandsInTheWay` | services/core/cmd/api/automation.go:218-234 | a subject stands in the way of the whole pass if and only if a refund of it is due and another one is live or due |
| `RetryPass.SecondRefundStandsInTheWay` | services/core/cmd/api/automation.go:218-234 | a booking that comes to it: its refund is rejected, a second one is made, an hour passes |
| `Desk.Desk.PreviewRefund` | services/core/cmd/api/cancellation.go:29-53 | the previewed amount: all of it for the seller, all or nothing by the day rule for the buyer |
| `Desk.Desk.ApplyCancellation` | services/core/cmd/api/cancellation.go:153-189 | cancels and refunds together; a refused refund undoes the cancellation |
| `Desk.Desk.CancelBooking` | services/core/cmd/api/cancellation.go:98-150 | only a standing future booking, and only at the refund the caller agreed to |
| `Desk.Desk.ReportNoShow` | services/core/cmd/api/noshow.go:28-99 | one report a booking, from ten minutes after the start to the end of the dispute window |
| `Desk.Desk.DisputeNoShow` | services/core/cmd/api/noshow.go:102-131 | an answer in time turns an open report into a disputed one |
| `Desk.Desk.SettleNoShow` | services/core/cmd/api/noshow.go:162-210 | settles a report; an accepted one on a standing booking marks the absence and refunds the buyer if the seller was away, tolerating only "no verified payment" |
| `Desk.Desk.DueReports` | services/core/cmd/api/noshow.go:134-158 | the undisputed overdue reports, longest overdue first, at most twenty; one is left behind only for twenty older ones |
| `Desk.Desk.ResolveNoShows` | services/core/cmd/api/noshow.go:134-158 | a batch is a run of single acceptances of the oldest due reports, up to the first refusal |
| `Passes.ReportsTakenExactly` | services/core/cmd/api/noshow.go:134-160 | in columns: a pass takes at most twenty undisputed reports whose day is over, none twice, and leaves one behind only for twenty no younger ones |
| `Desk.Desk.DecideNoShow` | services/core/cmd/api/noshow.go:240-280 | an operator's verdict |
| `Desk.Desk.ReportProblem` | services/core/cmd/api/bookings.go:578-652 | a buyer's report only within the dispute window, and none while another is open |
| `Desk.Desk.SettleProblem` | services/core/cmd/api/automation.go:128-161 | closes the report and refunds unless a live refund exists |
| `Desk.Desk.RespondToProblem` | services/core/cmd/api/automation.go:34-123 | the seller refunds all, part, or disagrees |
| `Desk.Desk.DueProblems` | services/core/cmd/api/automation.go:165-205 | the unanswered overdue problems, oldest first, at most twenty; one is left behind only for twenty older ones |
| `Desk.Desk.ResolveUnansweredProblems` | services/core/cmd/api/automation.go:165-205 | a batch is a run of full refunds of the oldest due problems |
| `Passes.ProblemsTakenExactly` | services/core/cmd/api/automation.go:165-205 | the same of buyers' problems not answered in time |
| `Desk.Desk.ApplyVerifiedCharge` | services/core/cmd/api/payment_processing.go:141-363 | the whole transaction in place: tables and answer are those of the specified step, and an error leaves the tables as they were |
| `Desk.Desk.AcceptVerifiedCharge` | services/core/cmd/api/payment_processing.go:193-280 | reprices the attempt, then answers with the quote's booking, records a duplicate, or goes on to book |
| `Desk.Desk.TakeSlot` | services/core/cmd/api/payment_processing.go:266-338 | books the secured time, or records why it could not |
| `Desk.Desk.CreatePaidBooking` | services/core/internal/store/payments.sql.go:96-116 | booking, held payout and journal, or none of them |
| `Desk.Desk.RecordPayment` | services/core/cmd/api/payment_processing.go:345-358 | the payment journal |
| `Desk.Desk.FindBooking` | services/core/internal/store/payments.sql.go:43-52 | the booking of a quote, if any |
| `Desk.Desk.RecordPaymentException` | services/core/cmd/api/payment_processing.go:132-137 | marks the attempt and keeps one exception row an attempt and kind |
| `Desk.Desk.ReturnUnbookedPayment` | services/core/cmd/api/unbooked.go:76-108 | money that cannot become a booking goes back once |
| `Desk.Desk.FinalizeExceptionRefund` | services/core/cmd/api/unbooked.go:119-142 | the exception is resolved and the ledger not touched |
| `ChargeTheorems.PaymentPostable` | services/core/cmd/api/payment_processing.go:345-358 | the payment journal is balanced with positive lines if and only if the processor's fee is below the total (and the total fits in an int64) |
| `ChargeTheorems.BooksExactlyWhen` | services/core/cmd/api/payment_processing.go:141-363 | a first accepted charge for a free slot becomes a booking under exactly that condition; otherwise everything rolls back |
| `ChargeTheorems.FeeReachesTotalExactlyWhen` | services/core/cmd/api/payment_processing.go:193-252 | the fee reaches the total if and only if the buyer paid exactly a total that includes a transfer fee and the processor kept at least that |
| `ChargeTheorems.BookingCanBeRefused` | services/core/cmd/api/payment_processing.go:345-358 | a reachable state with such a charge for a free slot: nothing is booked and nothing changes |
| `Answers.OpenedExactly` | services/core/cmd/api/checkout.go:148-316 | an attempt is opened once, within the limits, for the price of its quote, with the platform's share of it rounded down |
| `Answers.FeeAddedExactly` | services/core/cmd/api/checkout.go:100-113 | the transfer fee on top is at most a tenth of the price plus 10 000, replaces the last one and leaves the price alone |
| `Answers.MatchesExactly` | services/core/cmd/api/payment_processing.go:150-225 | in numbers: the amounts that match are the price, the total asked for, and the price plus a positive fee; the total then recorded, with the price unchanged |
| `Answers.ExceptionRow` | services/core/cmd/api/unbooked.go:76-108 | the exception's row: the amount first recorded, and awaiting the provider once a refund was made |
| `Answers.FirstChargeExactly` | services/core/cmd/api/payment_processing.go:141-363 | a first success for a free slot books if and only if one of those amounts came in and the fee is below the total, which fits an int64: the booking's row column by column; any other positive amount leaves no booking and one live refund of exactly that amount |
| `Answers.NothingBelowThePrice` | services/core/cmd/api/payment_processing.go:192-225 | no first charge below the price ever books, whatever the provider says |
| `Answers.OtherAnswersExactly` | services/core/cmd/api/payment_processing.go:141-340 | every other answer: not a success, wrong currency, wrong reference, negative fee, second charge of a quote, the same charge again, no slot; what is sent back, and how much |
| `ChargeTheorems.PriceNeverChanges` | services/core/cmd/api/payment_processing.go:193-252 | over every run an attempt keeps its quote, its price and its booking, although total and buyer's fee may be rewritten |
| `ChargeTheorems.OneBookingPerQuote` | services/core/cmd/api/payment_processing.go:266-280 | in every reachable state a quote has at most one booking, made by one attempt at that attempt's price |
| `ChargeTheorems.BookedQuoteIsClosed` | services/core/cmd/api/payment_processing.go:266-280 | once a quote is booked, no answer for any of its attempts changes a booking, payout, booking refund, debt, journal or transfer |
| `ChargeTheorems.AnswerSettles` | services/core/cmd/api/payment_processing.go:193-252 | an answer that yields a booking leaves the attempt in a form the same answer no longer changes |
| `ChargeTheorems.ReverificationIsIdempotent` | services/core/cmd/api/payment_processing.go:141-363 | the same answer at any later time, whatever else has happened to other attempts and rows, returns that booking and changes nothing at all |
| `DoubleReturn.VerifyBoth` | services/core/cmd/api/payment_processing.go:141-363 | verifying makes an attempt both booked and refunded as unbooked if and only if a booked one is answered with another amount or currency, or a returned one is accepted again with its time free and a fee below the total |
| `DoubleReturn.BothExactlyWhen` | services/core/cmd/api/payment_processing.go:141-363 | over every run, an attempt is both if and only if some answer of the run met that guard |
| `DoubleReturn.LateThenBooked` | services/core/cmd/api/unbooked.go:76-108 | any first accepted charge that finds no time and is answered again when it is free ends up both |
| `DoubleReturn.BothCanHappen` | services/core/cmd/api/payment_processing.go:141-363 | two reachable states in which one payment is booked and refunded, one for each way |
| `Desk.Provider.Find` | services/core/cmd/api/payout_provider.go:18-29 | a lookup finds every reference that was accepted |
| `Desk.Provider.Send` | services/core/cmd/api/payout_provider.go:18-29 | a known reference is never paid again; the answer may be lost |
| `Desk.Desk.Held` | services/core/cmd/api/payouts.go:29-33 | whether an open problem, an unsettled no-show report or a failed refund keeps the payout back |
| `Desk.Desk.Refunded` | services/core/cmd/api/payouts.go:147-151 | the sum of the live refund shares that come out of the payout |
| `Desk.Desk.ReleasePayout` | services/core/cmd/api/payouts.go:123-202 | the whole transaction in place, and a transfer is due exactly when the payout is then processing |
| `Desk.Desk.RepayDebts` | services/core/cmd/api/payouts.go:181-190 | recovery and its journal together, or neither |
| `Desk.Desk.FixAmount` | services/core/cmd/api/payouts.go:160-202 | amount and recovery are written once; a payout that went to old debts entirely is paid at once |
| `Desk.Desk.SendPayout` | services/core/cmd/api/payouts.go:224-262 | look up first, adopt what is found, otherwise send; lost answers included |
| `Desk.Desk.FailPayout` | services/core/cmd/api/payouts.go:268-275 | only the state changes |
| `Desk.Desk.ApplyTransferStatus` | services/core/cmd/api/payouts.go:284-308 | delivered pays, refused or returned fails, in flight waits |
| `Desk.Desk.MarkPayoutPaid` | services/core/cmd/api/payouts.go:311-340 | row and journal together, or neither |
| `Desk.Desk.CheckPayoutReversal` | services/core/cmd/api/payouts.go:345-383 | a paid payout whose transfer came back fails again, with the opposite journal |
| `Desk.Desk.DueForRetry` | services/core/cmd/api/payouts.go:390-439 | the failed payouts that are due, least recently changed first, at most twenty; one is left behind only for twenty older ones |
| `Desk.Desk.AutoRetryFailedPayouts` | services/core/cmd/api/payouts.go:390-439 | a batch is a run of single retries of the oldest due payouts |
| `Passes.PayoutsTakenExactly` | services/core/cmd/api/payouts.go:390-396 | the same of failed payouts whose account was saved since or whose wait is over |
| `Desk.Desk.RetryFailedPayout` | services/core/cmd/api/payouts.go:868-918 | an operator's retry takes a new generation, and only with a usable account |
| `Desk.Desk.RecordRefund` | services/core/cmd/api/refunds.go:170-190 | the refund journal, and a debt when the seller had been paid; together or neither |
| `Desk.Desk.FinalizeRefund` | services/core/cmd/api/refunds.go:146-202 | row, journal, debt and the booking's payment state together, or nothing |
| `MoneySteps.SendKeeps` | services/core/cmd/api/payouts.go:224-308 | sending, with crashes and lost answers, keeps the whole money invariant |
| `MoneySteps.MarkPaidKeeps` | services/core/cmd/api/payouts.go:311-340 | recording a payout as paid keeps it |
| `MoneySteps.ReverseKeeps` | services/core/cmd/api/payouts.go:345-383 | recording a reversal keeps it |
| `MoneySteps.RetryKeeps` | services/core/cmd/api/payouts.go:390-439 | a retry keeps it |
| `MoneySteps.FinalizeKeeps` | services/core/cmd/api/refunds.go:146-202 | finalising a refund keeps it |
| `MoneySteps.ProviderMovesKeeps` | services/core/cmd/api/payout_provider.go:18-29 | whatever the provider does to an accepted transfer keeps it |
| `ReleaseSteps.ReleaseKeeps` | services/core/cmd/api/payouts.go:123-202 | a release keeps it |
| `ReleaseSteps.AmountLeavesRoom` | services/core/cmd/api/payouts.go:147-159 | the fixed amount leaves room for every refund already charged to the payout, failed ones that may come back included |
| `ReleaseSteps.BookKeeps` | services/core/cmd/api/payment_processing.go:288-358 | a new booking with its held payout and journal keeps it |
| `BooksInvariant.ActKeeps` | services/core/cmd/api/automation.go:34-161 | every step on a booking keeps it |
| `Runs.VerifyKeeps` | services/core/cmd/api/payment_processing.go:141-363 | verifying any charge with any answer keeps it |
| `Runs.StepKeeps` | services/core/cmd/api/payment_processing.go:141-363 | every step of the money tables and of the provider keeps it |
| `Runs.RunKeeps` | services/core/cmd/api/payouts.go:123-202 | every run keeps it |
| `Runs.ReachableInv` | services/core/cmd/api/payouts.go:123-202 | so every reachable state has it |
| `Onward.StepLater` | services/core/cmd/api/payouts.go:123-202 | no step undoes a release, changes a released amount, a final booking state or a booking's terms |
| `Onward.RunLater` | services/core/cmd/api/payouts.go:123-202 | no run does |
| `Onward.StepTransfers` | services/core/cmd/api/payout_provider.go:18-29 | no step forgets a transfer or revives one that was refused or came back |
| `Onward.VerifyAdds` | services/core/cmd/api/payment_processing.go:141-363 | verifying a charge only adds bookings and journals |
| `MoneyTheorems.LedgerEqualsSubLedger` | services/core/cmd/api/ledger.go:26-90 | in every reachable state each seller's payable is the sum over bookings of entitlement, less processed payable refunds, less the payout if paid or only its recovery while on its way or failed; the receivable is the outstanding debt; the provider account is what the rows say; every journal is balanced and no source posted twice |
| `FeeTheorem.RunFees` | services/core/cmd/api/payouts.go:311-340 | over every run the fees of each payout are those of the transfers recorded as paid |
| `FeeTheorem.ProviderAccountHolds` | services/core/cmd/api/payouts.go:311-340 | in every reachable state the provider account is booked receipts net of processor fees, less processed refunds, less currently paid net payouts, less the fee of every transfer ever completed |
| `FeeTheorem.RevenueAndExpense` | services/core/cmd/api/payment_processing.go:341-358 | in every reachable state the revenue account is the platform's and buyers' fees of all bookings less the platform's part of processed refunds, and the expense account what charges and completed transfers have cost |
| `MoneyTheorems.NoDoublePayout` | services/core/cmd/api/payouts.go:224-308 | in every reachable state only a payout's current reference can be in flight or delivered; "paid" means it was delivered (until it comes back) or nothing needed sending |
| `MoneyTheorems.SentAtMostOnce` | services/core/cmd/api/payouts.go:390-439 | over all generations together, at most the net amount is with the seller or on its way |
| `MoneyTheorems.TransfersAreFinal` | services/core/cmd/api/payout_provider.go:18-29 | over every run an accepted transfer stays known and a refused or returned one stays so |
| `MoneyTheorems.WithinEntitlement` | services/core/cmd/api/payouts.go:137-151 | in every reachable state the released amount plus live payable refunds is at most the entitlement |
| `MoneyTheorems.HoldsAreEffective` | services/core/cmd/api/payouts.go:29-38 | an open buyer's problem, or an open or disputed report naming the seller, finds the payout scheduled and a release changes nothing |
| `MoneyTheorems.ReleasedIsSettled` | services/core/cmd/api/bookings.go:613-627 | after a release, over every later run: the start never moves, amount and recovery stand, no hold is open and no report that could hold the payout is accepted |
| `MoneyTheorems.NothingEarly` | services/core/cmd/api/payouts.go:35-38 | in every reachable state a payout that has left "scheduled" did so after end plus delay and after the buyer's money was in the balance |
| `MoneyTheorems.DebtsInOrder` | services/core/cmd/api/refunds.go:206-225 | in every reachable state debts in age order are repaid ones, at most one partly repaid, then untouched ones, and the receivable account is their sum |
| `Progress.ReleasedExactlyWhen` | services/core/cmd/api/payouts.go:123-202 | in every reachable state a scheduled payout leaves "scheduled" if and only if nothing holds it, the delay after the end has passed, the buyer's money is in the balance, and there is nothing left to pay or an account that may be used; it is then owed exactly when something is left, and otherwise nothing changes |
| `Progress.DebtsAreReadable` | services/core/cmd/api/payouts.go:206-221 | in every reachable state each open debt fits the 32 bits it is read into |
| `Progress.ReleaseAmountHappens` | services/core/cmd/api/payouts.go:181-202 | a release with something to pay is not refused: the recovery journal is balanced and its source unused |
| `Progress.PayoutPostable` | services/core/cmd/api/payouts.go:311-340 | the payout journal is balanced with positive lines if and only if net amount and fee together fit an int64 |
| `Progress.OutcomeIsRecorded` | services/core/cmd/api/payouts.go:224-308 | whatever answer was lost, the next look at the provider finds the transfer, sends nothing again and records the outcome: delivered pays (if and only if the journal fits), refused or returned fails, in flight changes nothing |
| `PayoutRules.SentExactly` | services/core/cmd/api/payouts.go:224-308 | in every reachable state, sending a reference the provider does not know, answer by answer: nothing, failed, accepted unseen, or accepted with its outcome recorded |
| `PayoutRules.RetriedExactly` | services/core/cmd/api/payouts.go:384-440 | a failed payout goes out under the next reference if and only if the account may be used and an operator says so, an account was saved since, or 2, 12, 24 and 48 hours have passed since the first four failures |
| `PayoutRules.SavedExactly` | services/core/cmd/api/payouts.go:700-725 | a first account may be used at once, the same again as before, a different one after a day |
| `PayoutRules.ReversedExactly` | services/core/cmd/api/payouts.go:345-383 | a paid payout whose transfer came back fails, and its net amount is the seller's again in the ledger; otherwise nothing changes |
| `PayoutRules.OutsideExactly` | services/core/cmd/api/payout_provider.go:17-56 | what is assumed of the outside: time goes on, an accepted transfer is delivered or refused once, a delivered one may come back |
| `Progress.RefundPostable` | services/core/cmd/api/refunds.go:170-190 | the refund journal is balanced with positive lines if and only if the amount fits an int64 |
| `Progress.FinalizedExactlyWhen` | services/core/cmd/api/refunds.go:146-202 | in every reachable state a confirmed refund is recorded with exactly its journal and debt if and only if it is not processed, no other refund of the booking is live and its amount fits an int64; otherwise nothing changes |
| `MoneyTheorems.ReleaseRepaysExactly` | services/core/cmd/api/payouts.go:181-190 | a release fixes entitlement less live refunds, and repays exactly min(owed, floor(amount x cap / 10000)) |
| `FaultTheorems.CancelStepExactly` | services/core/cmd/api/cancellation.go:153-189 | a seller's cancellation is accepted if and only if the booking stands, lies ahead, is paid and verified without a live refund, and the agreed refund is the price |
| `FaultTheorems.SellerCancellation` | services/core/cmd/api/cancellation.go:98-189 | then price and buyer's fee are refunded in full out of the held payout; otherwise nothing changes |
| `FaultTheorems.BuyerStepExactly` | services/core/cmd/api/policy.go:24-34 | a buyer's cancellation is accepted if and only if the booking stands, lies ahead, the agreed refund is the price from 24 hours ahead and nothing later, and a positive one can be made |
| `FaultTheorems.BuyerCancellation` | services/core/cmd/api/cancellation.go:98-189 | then there is exactly one new refund of the price, split into deduction and entitlement, or none when nothing is due; otherwise nothing changes |
| `FaultTheorems.AbsentStepExactly` | services/core/cmd/api/noshow.go:162-210 | the same of one settlement: the full refund if and only if the payment still counts as verified |
| `FaultTheorems.SellerNoShowExactly` | services/core/cmd/api/noshow.go:190-201 | accepting a report that names the seller absent on a standing paid booking leaves that full refund if and only if the attempt is still marked as a success |
| `FaultTheorems.SellerAtFaultIsNeverPaid` | services/core/cmd/api/payouts.go:147-159 | once such a refund is recorded, over every later run it stays at its amount, the payout is "scheduled" or has nothing to pay, and no transfer exists for the booking |
| `FaultTheorems.SellerAtFaultCanBePaid` | services/core/cmd/api/noshow.go:190-201 | a reachable state in which the refusal was swallowed: seller absent, no refund, transfer in flight |
| `Offers.RespondKeeps` | services/core/cmd/api/offers.go:229-330 | every answer keeps an offer well-formed: one or two versions, the first the buyer's, the second the seller's |
| `Offers.AcceptedByTheOther` | services/core/cmd/api/offers.go:267-323 | an offer becomes agreed if and only if the side that did not set the latest amount accepts that version in time, at that amount |
| `Offers.OneCounter` | services/core/cmd/api/offers.go:267-323 | the only new version is the seller's one counteroffer |
| `OfferRules.MadeExactly` | services/core/cmd/api/offers.go:16-134 | offers are for 15, 30 or 60 minutes and 100 to 100 000 000, open for three days |
| `OfferRules.WithdrawnExactly` | services/core/cmd/api/offers.go:229-330 | a withdrawal is taken if and only if the offer is unexpired, the version current, and it is a counteroffer or the buyer's own first offer; then only the state changes |
| `OfferRules.DeclinedExactly` | services/core/cmd/api/offers.go:229-330 | a refusal is taken if and only if it comes in time from the side that did not name the current price; then only the state changes |
| `OfferRules.AgreedExactly` | services/core/cmd/api/offers.go:229-330 | the same of an acceptance, which opens a day for paying |
| `OfferRules.CounteredExactly` | services/core/cmd/api/offers.go:229-330 | only the seller counters, once, within the limits |
| `OfferRules.EndedStaysEnded` | services/core/cmd/api/offers.go:229-330 | over every run an offer withdrawn, declined or lapsed before an agreement keeps its row exactly, takes no further answer, and is never quoted, agreed or booked |
| `Diary.CreateQuoteKeeps` | services/core/cmd/api/quotes.go:35-204 | holding a time keeps the diary: active reservations of a seller never overlap, a held unexpired quote has an active hold with its expiry |
| `Diary.CreateOfferQuoteKeeps` | services/core/cmd/api/quotes.go:206-393 | so does holding a time for an agreed offer |
| `Diary.AtMostThreeHolds` | services/core/cmd/api/holds.go:15-34 | right after createQuote held a time its buyer has between one and three holds, and no other buyer more than before |
| `Diary.AtMostThreeOfferHolds` | services/core/cmd/api/quotes.go:206-393 | the same right after createOfferQuote held a time |
| `HoldCap.PayHolds` | services/core/cmd/api/unbooked.go:29-71 | verifying a charge gives a buyer exactly one hold more if it is a late payment of theirs that gets its time back and is then not booked (seller unavailable, or offer no longer payable), and otherwise none |
| `HoldCap.StepHolds` | services/core/cmd/api/holds.go:15-34 | every other step of the service leaves a buyer at most at three holds, or at most where they were |
| `HoldCap.RunHolds` | services/core/cmd/api/holds.go:15-34 | over every run a buyer has at most three holds plus one for each such payment |
| `HoldCap.CapOverRuns` | services/core/cmd/api/holds.go:15-34 | from empty tables, a run without such a payment keeps every buyer at three |
| `HoldCap.CapCanBeExceeded` | services/core/cmd/api/payment_processing.go:288-338 | a reachable state in which a buyer has four holds |
| `Diary.ExtendKeeps` | services/core/cmd/api/holds.go:51-73 | a hold can be extended if and only if its quote is held and unexpired, and the diary is kept |
| `Diary.ClaimKeeps` | services/core/cmd/api/unbooked.go:29-71 | securing a paid time, late ones included, touches only that quote; when it is ours it has an active hold on its own start |
| `Diary.ConfirmKeeps` | services/core/internal/store/payments.sql.go:54-67 | turning the hold into a booking keeps the diary |
| `Diary.MoveKeeps` | services/core/cmd/api/bookings.go:435-466 | moving a booking keeps the diary and changes nobody else's booking |
| `LiveHolds.TimeHeldExactly` | services/core/cmd/api/quotes.go:35-204 | a time is held if and only if the buyer has at most two other running holds and everything reserved in it is a lapsed hold or the buyer's own unpaid one; the new rows column by column |
| `LiveHolds.OfferTimeHeldExactly` | services/core/cmd/api/quotes.go:206-393 | the same for an agreed offer that holds no time yet |
| `QuoteRules.RowsWhenHeld` | services/core/internal/store/holds.sql.go:76-115 | when a time is taken, every other row: the buyer's own unpaid holds with the seller end, the seller's overdue quotes expire, lapsed holds in the time are let go, nothing else changes |
| `QuoteRules.RowsWhenOfferHeld` | services/core/cmd/api/quotes.go:318-370 | the same when it is taken for an agreed offer, whose own overdue quotes give their times up |
| `QuoteRules.QuotedExactly` | services/core/cmd/api/quotes.go:35-204 | createQuote in the whole service: for which durations, prices and times, and the price it asks; otherwise nothing changes |
| `QuoteRules.OfferQuotedExactly` | services/core/cmd/api/quotes.go:206-393 | createOfferQuote: an agreement past its window only lapses; within it the time is held at the agreed amount and the window lasts at least as long as the hold |
| `QuoteRules.KeptExactly` | services/core/cmd/api/holds.go:51-73 | keeping a hold longer moves quote, reservation and the agreement's window together, or nothing |
| `QuoteRules.SeenExactly` | services/core/cmd/api/offers.go:184-228 | looking at an offer lapses an agreement past its window and nothing else |
| `QuoteRules.PaidExactly` | services/core/cmd/api/payment_processing.go:226-363 | a first payment in the whole service: when it books the quoted time, sells the quote and converts the offer; when it goes back, why, and that a time brought back then stays held; and when nothing changes |
| `QuoteRules.RescheduledExactly` | services/core/cmd/api/bookings.go:390-466 | moving a booking in the whole service: for which bookings and times it goes through; booking and reservation then move together, otherwise nothing does |
| `QuoteRules.OneRowExactly` | services/core/cmd/api/quotes.go:395-457 | making or answering an offer and looking at a quote change that one row and no other |
| `LiveHolds.QuoteSpares` | services/core/internal/store/holds.sql.go:97-115 | holding a time leaves every running hold exactly as it is, but the caller's own with that seller for which no payment was begun |
| `LiveHolds.OfferQuoteSpares` | services/core/internal/store/holds.sql.go:97-115 | so does holding a time for an offer |
| `LiveHolds.MoveSpares` | services/core/internal/store/holds.sql.go:97-115 | moving a booking leaves every running hold exactly as it is |
| `LiveHolds.HeldTimeIsRefused` | services/core/cmd/api/quotes.go:170-192 | a time another buyer holds is refused |
| `LiveHolds.HoldsLast` | services/core/cmd/api/holds.go:15-73 | over every run of the service a running hold ends only by its own expiry, its buyer's other time with that seller, or its own booking |
| `SlotRules.SecuredExactly` | services/core/cmd/api/unbooked.go:29-71 | in columns: when a paid time is secured, when a lapsed hold comes back (unsold, more than five minutes ahead, still valid, nobody else there), and why a booking may not be made |
| `SlotRules.ConfirmedExactly` | services/core/internal/store/payments.sql.go:54-67 | a secured time that is booked is sold and the booking's own |
| `SlotRules.ExtendedExactly` | services/core/cmd/api/holds.go:51-73 | a running hold is made to last longer, never shorter, quote and reservation alike |
| `SlotRules.ViewedExactly` | services/core/cmd/api/quotes.go:395-457 | looking at an overdue quote expires it and gives its time up |
| `SlotRules.MovedExactly` | services/core/cmd/api/bookings.go:435-466 | a booking moves if and only if only lapsed holds lie in the new time; which rows change, and how |
| `Calendar.Calendar.ReleaseExpiredHolds` | services/core/internal/store/holds.sql.go:97-115 | exactly the lapsed holds of the seller in the range are let go |
| `Calendar.Calendar.ReleaseUnpaidHolds` | services/core/internal/store/holds.sql.go:76-95 | exactly the buyer's other holds with the seller for which no payment was begun |
| `Calendar.Calendar.CountActiveHolds` | services/core/internal/store/holds.sql.go:13-23 | counts the buyer's running holds |
| `Calendar.Calendar.ClaimHoldCapacity` | services/core/cmd/api/holds.go:26-34 | a new time replaces the buyer's old one, and fewer than three others may be held |
| `Calendar.Calendar.HoldTime` | services/core/cmd/api/quotes.go:35-204 | the transaction in place; a refusal changes nothing, and a success leaves the buyer with at most three holds |
| `Calendar.Calendar.HoldOfferTime` | services/core/cmd/api/quotes.go:206-393 | the same for an agreed offer, whose paying window is extended with it |
| `Calendar.Calendar.ExtendCheckoutHold` | services/core/cmd/api/holds.go:51-73 | quote, reservation and agreement are extended together, or nothing is |
| `Calendar.Calendar.ReclaimLateSlot` | services/core/cmd/api/unbooked.go:29-71 | the hold comes back if and only if the time lies ahead, is still valid and collides with nobody |
| `Calendar.Calendar.SecureTime` | services/core/cmd/api/payment_processing.go:288-338 | what applyVerifiedCharge does to the diary, with the reason when the time is not secured |
| `Calendar.Calendar.RespondToOffer` | services/core/cmd/api/offers.go:229-330 | the answer in place; a refused one changes nothing but an overdue offer's lapse |
| `Calendar.Calendar.MoveBooking` | services/core/cmd/api/bookings.go:435-466 | lapsed holds give way, then the booking's reservation moves, or nothing changes |
| `World.FixedPrice` | services/core/cmd/api/profiles.go:353 | the nearest minor unit to its part of the base price, halves up; every price that can be quoted lies between one and 200 million minor units |
| `WorldRuns.StepKeeps` | services/core/cmd/api/quotes.go:170-192 | every step of the whole service keeps money tables, diary and offers and the links between them |
| `WorldRuns.RunKeeps` | services/core/cmd/api/payment_processing.go:288-338 | every run does |
| `WorldRuns.BooksAreReachable` | services/core/cmd/api/payment_processing.go:288-338 | the money tables of every reachable state of the service are reachable on their own, so all theorems about them hold there |
| `WorldRuns.ConfirmedNeverOverlap` | services/core/cmd/api/quotes.go:170-192 | in every reachable state the sessions of two confirmed bookings of a seller do not overlap, nor do their active reservations, each of which starts with its booking and covers it |
| `WorldRuns.ConfirmedIsReserved` | services/core/internal/store/payments.sql.go:54-67 | in every reachable state a confirmed booking has its own active reservation, starting at its start and covering its length |
| `WorldRuns.HeldMeansHeld` | services/core/internal/store/holds.sql.go:40-66 | in every reachable state a held unexpired quote has an active hold with its expiry, starting at its start and covering its length |
| `WorldRuns.AgreedPriceIsPaidOnce` | services/core/cmd/api/payment_processing.go:288-338 | in every reachable state a booking costs what its quote says, and one from an offer the latest of at most two versions of an offer that was agreed, converted and names that booking |
| `WorldRuns.OneBookingPerOffer` | services/core/internal/store/payments.sql.go:69-85 | at most one booking ever comes from an offer |
| `WorldRuns.CancellingFreesTheTime` | services/core/cmd/api/cancellation.go:153-189 | an accepted cancellation gives up exactly the booking's own time, a refused one changes nothing at all |
| `WorldRuns.AgreementsStand` | services/core/cmd/api/offers.go:267-323 | over every run versions are only added, none after an agreement, and a booking of an offer stays |
| `Availability.AcceptHours` | services/core/cmd/api/availability.go:143-155 | sorting and comparing neighbours accepts hours if and only if they are aligned and no two overlap |
| `Availability.LocalInstants` | services/core/cmd/api/availability.go:487-499 | at a constant offset the search around a wall time finds its one instant |
| `Availability.ValidScheduledTime` | services/core/cmd/api/availability.go:513-598 | accepts exactly the quarter-hour starts inside the hours that meet no busy time |
| `Availability.ValidExactly` | services/core/cmd/api/availability.go:513-598 | in seconds: on the local quarter hour, the whole session inside one of the day's hours, touching a busy time at most |
| `Availability.SellerDaySlots` | services/core/cmd/api/availability.go:387-485 | lists exactly the starts of the date within notice and horizon that the checker accepts and no reservation meets, each once |
| `Availability.EnumeratorIsChecker` | services/core/cmd/api/availability.go:387-598 | the same agreement between the enumeration and the checker, both directions |
| `Availability.NoStartTwice` | services/core/cmd/api/availability.go:387-485 | no start is listed twice |
| `CalendarText.FoldLine` | services/core/cmd/api/mail.go:262-278 | the folding loop ends and writes the pieces of the line, for every line that can be folded |
| `CalendarText.FoldEndsExactly` | services/core/cmd/api/mail.go:262-278 | the loop ends if and only if no 74 octets without a character start follow a character start (75 follow the first octet) |
| `CalendarText.FoldCanJam` | services/core/cmd/api/mail.go:262-278 | a line, not valid UTF-8, on which the loop never ends |
| `CalendarText.Utf8Flows` | services/core/cmd/api/mail.go:262-280 | every valid UTF-8 line can be folded |
| `CalendarText.PiecesFit` | services/core/cmd/api/mail.go:262-278 | the pieces joined are the line; the first has at most 75 octets, the others at most 75 with their leading space |
| `CalendarText.PiecesAreFull` | services/core/cmd/api/mail.go:262-278 | no piece ends early: 75 octets first and 74 after, unless a character would be split, and then right before it |
| `CalendarText.PiecesKeepCharacters` | services/core/cmd/api/mail.go:262-280 | no character is split |
| `CalendarText.FoldThenUnfold` | services/core/cmd/api/mail.go:262-278 | unfolding by section 3.1 of RFC 5545 restores the line, whatever follows |
| `CalendarText.FoldedIsShort` | services/core/cmd/api/mail.go:262-278 | no physical line has more than 75 octets |
| `CalendarText.EscapeThenUnescape` | services/core/cmd/api/mail.go:223-224 | escaped TEXT has no CR or LF and unescapes, by section 3.3.11 of RFC 5545, to the original with line breaks as LF |
| `CalendarText.EscapeIsText` | services/core/cmd/api/mail.go:223-224 | escaped text is a TEXT value of section 3.3.11 of RFC 5545: no bare comma, semicolon or line break, and every backslash starts one of the pairs |
| `CalendarText.EscapeKeepsUtf8` | services/core/cmd/api/mail.go:223-224 | escaping keeps valid UTF-8 valid |
| `CalendarEvent.ContentLines` | services/core/cmd/api/mail.go:223-253 | the appended lines of an event, optional ones included |
| `CalendarEvent.ICS` | services/core/cmd/api/mail.go:223-259 | the attachment is those lines folded one after the other |
| `CalendarEvent.LinesSay` | services/core/cmd/api/mail.go:223-253 | line by line: start and end under their names, cancelled exactly for a cancelled event, the optional lines, and the alarm exactly for an event that stands |
| `CalendarEvent.EventReadsBack` | services/core/cmd/api/mail.go:223-278 | for any valid text: short physical lines, unfolding gives exactly the event's lines, summary and description unescape to the originals up to line breaks |
| `Resp.EncodeCommand` | services/core/cmd/api/redis.go:127-138 | the builder loop writes the array of bulk strings |
| `Resp.GetIsWritten` | services/core/cmd/api/redis.go:127-138 | a short command, octet by octet |
| `Resp.Reader.ReadLine` | services/core/cmd/api/redis.go:140-150 | reads up to a line feed, or loses an unfinished line |
| `Resp.Reader.ReadText` | services/core/cmd/api/redis.go:140-194 | reads a bulk string's text and the two octets after it |
| `Resp.Reader.ReadList` | services/core/cmd/api/redis.go:140-194 | reads the items of an array, nil kept, any other failure passed on |
| `Resp.Reader.ReadReply` | services/core/cmd/api/redis.go:140-194 | the stateful reader consumes the stream exactly as specified |
| `Resp.CommandReadsBack` | services/core/cmd/api/redis.go:127-194 | an encoded command reads back as its arguments with the rest of the stream untouched, exactly when it has at most 1024 arguments of at most 1 MiB; line breaks in arguments included |
| `Resp.ReplyReadsBack` | services/core/cmd/api/redis.go:140-194 | any nested reply within the limits reads back as written |
| `RateLimiter.Limiter.Sweep` | services/core/cmd/api/ratelimit.go:92-113 | deletes exactly the windows that are over |
| `RateLimiter.Limiter.AllowLocal` | services/core/cmd/api/ratelimit.go:92-113 | answer, windows and sweep time are the specified ones |
| `RateLimiter.SweepIsInvisible` | services/core/cmd/api/ratelimit.go:92-113 | with time that never goes back, the sweep changes no answer of any run |
| `RateLimiter.DecidedByHistory` | services/core/cmd/api/ratelimit.go:92-113 | a request is refused if and only if the limit was let through in the key's last window and that window is still open; otherwise it counts there or opens a new one |
| `RateLimiter.AtMostTwiceTheLimit` | services/core/cmd/api/ratelimit.go:92-113 | over any run, at most 2 x limit requests of a key get through in any closed interval of one window's length |
| `RateLimiter.TwiceIsReached` | services/core/cmd/api/ratelimit.go:92-113 | a run that reaches that bound |
| `Outbox.StepCounts` | services/core/internal/store/notifications.sql.go:48-59 | each claim uses up exactly one of the deliveries left, nothing else does, and retries and attempts grow lexicographically |
| `Outbox.WorkIsBounded` | services/core/cmd/api/automation.go:208-234 | no run claims a row more than 8 x (1 + 3) times, and the row itself counts its claims exactly |
| `Outbox.FinalStays` | services/core/internal/store/notifications.sql.go:189-220 | a sent or cancelled row is never claimed or changed again |
| `Outbox.DeliveredExactly` | services/core/internal/store/notifications.sql.go:48-59 | when a row is claimed, and that a failed attempt waits 1, 2, 4 minutes and so on up to an hour, the eighth ending it |
| `Outbox.EndedExactly` | services/core/internal/store/notifications.sql.go:179-220 | from which states a row is sent, called off, forgotten or out of attempts |
| `Outbox.AutoRetriedExactly` | services/core/cmd/api/automation.go:207-231 | a failed email goes back 1, 6 and 24 hours after it was last due, and no more |
| `Batch.TakeOldest` | services/core/internal/store/notifications.sql.go:48-59 | ORDER BY a time with LIMIT: the batch is due rows, oldest first, and whatever is left behind is younger than all of a full batch |
| `Outbox.Table.ClaimDue` | services/core/internal/store/notifications.sql.go:48-59 | claims the longest due rows, at most the limit, only claimable ones; one is left behind only for older ones |
| `Outbox.Table.MarkFailed` | services/core/internal/store/notifications.sql.go:199-205 | the next attempt waits longer, the last one fails |
| `Outbox.Table.FailExhausted` | services/core/internal/store/notifications.sql.go:179-182 | rows out of attempts fail, the others stay |
| `Outbox.Table.AutoRetryFailures` | services/core/cmd/api/automation.go:218-234 | failed rows whose wait is over go back with their attempts reset, at most three times |
| `Amounts.ParseMajor` | services/core/cmd/api/kora.go:168-205 | the digit scan computes the specified value or error for every input |
| `Amounts.ReadsNearest` | services/core/cmd/api/kora.go:168-205 | any plain decimal whose whole part is at most 2^52 reads as its nearest minor unit, halves up, however many fraction digits |
| `Amounts.SignedOrRefused` | services/core/cmd/api/kora.go:168-205 | a minus sign negates that value, and anything but digits after the dot is refused |
| `Amounts.AmountRoundTrip` | services/core/cmd/api/kora.go:141-205 | a written amount reads back as itself if and only if its whole part is at most 2^52 |

## Left out

- One currency: amounts of different currencies never mix here; a charge in another currency is an exception, as in the source.
- Identities: uuids are row numbers, a journal's SHA-256 digest is taken to tell different lines apart.
- Isolation and constraints of Postgres: transactions are atomic steps, constraints are guards.
- Looking up, sending and recording one payout is one step, with crashes and lost answers inside it; two workers sending the same payout at once are not modelled, nor is the row claim that prevents it.
- Batches: choosing the due rows and settling them is one step without other transactions in between; rows another worker has locked are not skipped.
- Worker timing of refunds and payouts (next_attempt_at, claim times, batch sizes of the senders): a step may happen at any time its guards allow.
- `payout.fees` adds up the fees of all completed transfers, where the table keeps the last one; FeeTheorem ties it to the transfers themselves.
- Provider answers with a status outside the normalised ones.
- int64 wrap-around is modelled where the source computes shares, costs and amounts; the sum of a seller's open debts and the repriced total are not wrapped.
- Daylight-saving days: a date has one UTC offset. A window edge inside a skipped hour makes the slot list and the check differ.
- Times are whole seconds, and settlement weekends are those of UTC where the source takes the weekday of the server's time zone.
- Reschedule requests and their expiry: only the accepted move is a step.
- Refunds marked "not required" by the local payment simulator, and the simulator itself: no money moves.
- Negative amounts in majorAmount, which no caller passes.
- The automatic ladder of provider events: the same as that of emails. The three statements of one pass are separate here; in the source the later two are not reached when the one over refunds fails.
- The shared limiter in Redis, which counts the same way outside this process.
- Connections, deadlines and pipelining of the Redis client.
- Refreshing a seller's outside calendar: its busy times are given.
- HTTP decoding, sessions, permissions, audit rows, emails' wording and push messages.
- The clients for the payment provider, calendars, storage, mail and web push, and all cryptography.
- Dashboards, funnels, privacy export, reconciliation files and the web pages: wide, but easy.
