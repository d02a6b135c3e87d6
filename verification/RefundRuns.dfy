/** How often a refund is sent over any run of worker and operator actions on
    the refunds of one payment (services/core/cmd/api/refunds.go, automation.go). */
module RefundRuns {
  import opened Common
  import opened Refunds

  /** One action on a row, the end of one, or a new refund. */
  datatype Deed =
    | Acts(row: nat, action: Action, autoRefunds: bool, now: int)
    | Finishes(row: nat, now: int)
    | Inserts(r: Refund)

  /** A row as it is inserted. */
  predicate Fresh(r: Refund) {
    && (r.state == PendingApproval || r.state == Queued)
    && !r.sent && r.attempts == 0 && r.autoRetries == 0
  }

  function Attempted(rs: seq<Refund>, d: Deed): Option<seq<Refund>> {
    match d
    case Acts(i, action, autoRefunds, now) => Act(rs, i, action, autoRefunds, now)
    case Finishes(i, now) => Finish(rs, i, now)
    case Inserts(r) => if Fresh(r) then Insert(rs, r) else None
  }

  /** A refused action leaves the table as it was. */
  function Done(rs: seq<Refund>, d: Deed): seq<Refund> {
    var t := Attempted(rs, d);
    if t.Some? then t.value else rs
  }

  function Run(rs: seq<Refund>, ds: seq<Deed>): seq<Refund> {
    if ds == [] then rs else Done(Run(rs, ds[..|ds| - 1]), ds[|ds| - 1])
  }

  /** The worker asks the provider to send row i: the provider does not know it
      and it is still queued. */
  predicate Sends(rs: seq<Refund>, i: nat, d: Deed) {
    && d.Acts? && d.row == i && i < |rs| && rs[i].state == Queued
    && d.action.Advance? && d.action.answer.Unknown?
  }

  function SendsOf(rs: seq<Refund>, i: nat, ds: seq<Deed>): nat {
    if ds == [] then 0
    else SendsOf(rs, i, ds[..|ds| - 1]) + (if Sends(Run(rs, ds[..|ds| - 1]), i, ds[|ds| - 1]) then 1 else 0)
  }

  /** How often an operator put row i back in the queue. */
  function RetriesOf(rs: seq<Refund>, i: nat, ds: seq<Deed>): nat {
    if ds == [] then 0
    else
      var d := ds[|ds| - 1];
      RetriesOf(rs, i, ds[..|ds| - 1])
      + (if d.Acts? && d.row == i && d.action == Retry && Attempted(Run(rs, ds[..|ds| - 1]), d).Some? then 1 else 0)
  }

  /** One worker step, answer by answer: a refund the provider reports failed,
      or has lost after taking it, fails; one it has is submitted for good; and
      an error ends it when final or the eighth. */
  lemma AdvancedExactly(r: Refund, answer: Answer, autoRefunds: bool, now: int)
    ensures var moved := Move(r, Advance(answer), autoRefunds, now);
      && (moved.Some? <==> r.state == Queued || r.state == Submitted)
      && (moved.Some? ==>
            var sending := r.state == Queued && answer.Unknown?;
            var lost := r.state == Submitted && answer.Unknown?;
            var error := answer.LookupError? || (sending && answer.send.SendError?);
            var final := if answer.LookupError? then answer.rejected else sending && answer.send.SendError? && answer.send.rejected;
            var refused := answer == Known(Failure) || (sending && answer.send == SendStatus(Failure));
            moved.value ==
              if lost || refused || (error && (final || r.attempts >= 7))
                then r.(state := Failed, attempts := r.attempts + 1)
              else if error then r.(attempts := r.attempts + 1)
              else r.(state := Submitted, sent := true, attempts := r.attempts + 1))
  {}

  /** An automatic retry comes one, six or twenty-four hours after the failure,
      three times at most, and never for a refund the provider once accepted. */
  lemma AutoRetriedExactly(r: Refund, autoRefunds: bool, now: int)
    requires r.autoRetries >= 0
    ensures var moved := Move(r, AutoRetry, autoRefunds, now);
      && (moved.Some? <==>
            && r.state == Failed && !r.sent
            && ((r.autoRetries == 0 && now - r.updatedAt > 3_600) || (r.autoRetries == 1 && now - r.updatedAt > 21_600)
                || (r.autoRetries == 2 && now - r.updatedAt > 86_400)))
      && (moved.Some? ==> moved.value == r.(state := Queued, attempts := 0, autoRetries := r.autoRetries + 1))
  {}

  /** An operator approves what waits for approval, puts back what failed and
      was never accepted, and records by hand what waits or failed. */
  lemma OperatedExactly(r: Refund, autoRefunds: bool, now: int)
    ensures Move(r, Approve, autoRefunds, now) ==
      if autoRefunds && r.state == PendingApproval then Some(r.(state := Queued)) else None
    ensures Move(r, Retry, autoRefunds, now) ==
      if r.state == Failed && !r.sent then Some(r.(state := Queued, attempts := 0)) else None
    ensures Move(r, Record, autoRefunds, now) ==
      if r.state == PendingApproval || r.state == Failed then Some(r.(state := Submitted)) else None
  {}

  /** Where row i stands after so many sends and operator retries. */
  ghost predicate Counted(r: Refund, sends: nat, retries: nat) {
    && 0 <= r.autoRetries <= 3
    && (r.sent ==> r.state == Submitted || r.state == Failed || r.state == Processed)
    && sends <= 8 * (1 + r.autoRetries + retries)
    && (r.state == PendingApproval ==> r.attempts == 0 && sends == 0)
    && (r.state == Queued ==> 0 <= r.attempts <= 7 && sends <= 8 * (r.autoRetries + retries) + r.attempts)
  }

  lemma StepCounted(rs: seq<Refund>, i: nat, d: Deed, sends: nat, retries: nat)
    requires OneLive(rs) && i < |rs| && Counted(rs[i], sends, retries)
    ensures var t := Done(rs, d);
      && OneLive(t) && i < |t|
      && Counted(t[i], sends + (if Sends(rs, i, d) then 1 else 0),
           retries + (if d.Acts? && d.row == i && d.action == Retry && Attempted(rs, d).Some? then 1 else 0))
  {
    match d
    case Acts(k, action, autoRefunds, now) =>
      if Act(rs, k, action, autoRefunds, now).Some? {
        ActKeeps(rs, k, action, autoRefunds, now);
      }
      if k == i && rs[i].state == Queued { assert !OtherLive(rs, i); }
    case Finishes(k, now) => if Finish(rs, k, now).Some? { FinishKeeps(rs, k, now); }
    case Inserts(r) => if Insert(rs, r).Some? { InsertKeeps(rs, r); }
  }

  /** Over every run a refund is sent at most eight times, and eight times more
      for each time it is put back: three times at most automatically. */
  lemma {:induction false} FewSends(rs: seq<Refund>, i: nat, ds: seq<Deed>)
    requires OneLive(rs) && i < |rs| && Fresh(rs[i])
    ensures var t := Run(rs, ds);
      && OneLive(t) && i < |t| && Counted(t[i], SendsOf(rs, i, ds), RetriesOf(rs, i, ds))
      && t[i].autoRetries <= 3
      && SendsOf(rs, i, ds) <= 8 * (1 + t[i].autoRetries + RetriesOf(rs, i, ds))
      && SendsOf(rs, i, ds) <= 32 + 8 * RetriesOf(rs, i, ds)
  {
    hide Done, Sends, Attempted;
    if ds != [] {
      FewSends(rs, i, ds[..|ds| - 1]);
      StepCounted(Run(rs, ds[..|ds| - 1]), i, ds[|ds| - 1], SendsOf(rs, i, ds[..|ds| - 1]), RetriesOf(rs, i, ds[..|ds| - 1]));
    }
  }

  lemma StepSent(rs: seq<Refund>, i: nat, d: Deed)
    requires OneLive(rs) && i < |rs| && rs[i].sent && rs[i].state in {Submitted, Failed, Processed}
    ensures var t := Done(rs, d);
      OneLive(t) && i < |t| && t[i].sent && t[i].state in {Submitted, Failed, Processed} && !Sends(rs, i, d)
  {
    match d
    case Acts(k, action, autoRefunds, now) => if Act(rs, k, action, autoRefunds, now).Some? { ActKeeps(rs, k, action, autoRefunds, now); }
    case Finishes(k, now) => if Finish(rs, k, now).Some? { FinishKeeps(rs, k, now); }
    case Inserts(r) => if Insert(rs, r).Some? { InsertKeeps(rs, r); }
  }

  /** Once the provider has accepted a refund, no run of actions sends it again,
      whatever the provider reports about it later. */
  lemma {:induction false} AcceptedIsNeverResent(rs: seq<Refund>, i: nat, before: seq<Deed>, after: seq<Deed>)
    requires OneLive(rs) && i < |rs| && Fresh(rs[i]) && i < |Run(rs, before)| && Run(rs, before)[i].sent
    ensures var m := Run(rs, before);
      && i < |m| && SendsOf(m, i, after) == 0
      && i < |Run(m, after)| && Run(m, after)[i].sent && Run(m, after)[i].state in {Submitted, Failed, Processed}
      && OneLive(Run(m, after))
  {
    hide Done, Sends;
    FewSends(rs, i, before);
    if after != [] {
      AcceptedIsNeverResent(rs, i, before, after[..|after| - 1]);
      StepSent(Run(Run(rs, before), after[..|after| - 1]), i, after[|after| - 1]);
    }
  }
}
