/** Which rows the passes of the worker take, in the columns of the tables
    (services/core/cmd/api/noshow.go, automation.go, payouts.go). */
module Passes {
  import opened Books
  import opened Batch
  import opened Desk
  import C = Cases

  /** At most twenty rows, none twice. */
  ghost predicate OnePass(ids: seq<nat>) {
    |ids| <= 20 && forall i, j | 0 <= i < j < |ids| :: ids[i] != ids[j]
  }

  /** The undisputed reports whose day is over, those over longest first: one
      is left for the next pass only behind twenty that ended no later. */
  lemma ReportsTakenExactly(s: Books, ids: seq<nat>)
    requires Taken(ids, ReportTimes(s), BATCH)
    ensures OnePass(ids) && forall i | 0 <= i < |ids| :: ids[i] < |s.cases|
    ensures forall b: nat | b < |s.cases| ::
      var report := s.cases[b].report;
      var due := report.Some? && report.value.state == C.Open && s.clock >= report.value.resolvesAt;
      && (b in ids ==> due)
      && (due && b !in ids ==>
            |ids| == 20 && forall i | 0 <= i < |ids| ::
              s.cases[ids[i]].report.Some? && s.cases[ids[i]].report.value.resolvesAt <= report.value.resolvesAt)
  {
    assert forall b: nat | b < |s.cases| :: ReportTimes(s)[b] == ReportTime(s, b);
  }

  /** The buyers' open problems the seller has not answered in time. */
  lemma ProblemsTakenExactly(s: Books, ids: seq<nat>)
    requires Taken(ids, ProblemTimes(s), BATCH)
    ensures OnePass(ids) && forall i | 0 <= i < |ids| :: ids[i] < |s.cases|
    ensures forall b: nat | b < |s.cases| ::
      var issue := s.cases[b].issue;
      var due := issue.Issue? && !issue.resolved && issue.reporter == C.Buyer && !issue.disputed && s.clock > issue.respondBy;
      && (b in ids ==> due)
      && (due && b !in ids ==>
            |ids| == 20 && forall i | 0 <= i < |ids| ::
              s.cases[ids[i]].issue.Issue? && s.cases[ids[i]].issue.respondBy <= issue.respondBy)
  {
    assert forall b: nat | b < |s.cases| :: ProblemTimes(s)[b] == ProblemTime(s, b);
  }

  /** The failed payouts whose seller's account may be used and was saved since,
      or whose wait is over, those that failed first ahead. */
  lemma PayoutsTakenExactly(s: Books, ids: seq<nat>)
    requires Taken(ids, RetryTimes(s), BATCH) && forall b | 0 <= b < |s.cases| :: s.cases[b].payout.generation >= 1
    ensures OnePass(ids) && forall i | 0 <= i < |ids| :: ids[i] < |s.cases|
    ensures forall b: nat | b < |s.cases| ::
      var p, seller := s.cases[b].payout, s.cases[b].seller;
      var waited := s.clock - p.updatedAt;
      var due :=
        && p.state == C.PayoutFailed && seller in s.accounts && s.accounts[seller].usableFrom <= s.clock
        && ((s.accounts[seller].updatedAt > p.updatedAt && p.generation < 20)
            || (p.generation == 1 && waited > 7_200) || (p.generation == 2 && waited > 43_200)
            || (p.generation == 3 && waited > 86_400) || (p.generation == 4 && waited > 172_800));
      && (b in ids ==> due)
      && (due && b !in ids ==> |ids| == 20 && forall i | 0 <= i < |ids| :: s.cases[ids[i]].payout.updatedAt <= p.updatedAt)
  {
    forall b: nat | b < |s.cases| ensures RetryTimes(s)[b] == RetryTime(s, b) && s.cases[b].payout.generation >= 1 {}
  }
}
