/** The automatic retries of failed refunds are one statement over the whole
    table: the unique index lets all of them through, or none
    (services/core/cmd/api/automation.go). */
module RetryPass {
  import opened Common
  import opened Policy
  import opened Books
  import C = Cases
  import R = Refunds
  import opened BooksInvariant
  import opened Runs

  /** No subject would end up with two live refunds. */
  ghost predicate PassFits(s: Books) {
    && (forall b | 0 <= b < |s.cases| :: R.OneLive(R.RetryAll(s.cases[b].refunds, s.clock)))
    && (forall k | k in s.exceptions :: R.OneLive(R.RetryAll(s.exceptions[k].refunds, s.clock)))
  }

  function RetriedCase(c: C.Case, now: int): C.Case { c.(refunds := R.RetryAll(c.refunds, now)) }

  function RetriedUnbooked(u: Unbooked, now: int): Unbooked { u.(refunds := R.RetryAll(u.refunds, now)) }

  /** The tables after the statement, on the first n bookings and some exceptions. */
  function PassOn(s: Books, n: nat, keys: set<ExceptionKey>): Books
    requires n <= |s.cases|
  {
    s.(cases := seq(|s.cases|, b requires 0 <= b < |s.cases| => if b < n then RetriedCase(s.cases[b], s.clock) else s.cases[b]),
       exceptions := map k | k in s.exceptions :: if k in keys then RetriedUnbooked(s.exceptions[k], s.clock) else s.exceptions[k])
  }

  function Pass(s: Books): Books { PassOn(s, |s.cases|, s.exceptions.Keys) }

  /** Exactly when one subject stands in the way of all: a refund of it is due,
      and another one is live, or due as well. */
  lemma StandsInTheWay(rs: seq<R.Refund>, now: int)
    requires R.OneLive(rs)
    ensures R.OneLive(R.RetryAll(rs, now)) <==>
      forall i, j | 0 <= i < |rs| && 0 <= j < |rs| && i != j && R.RetryDue(rs[i], now) :: !R.Live(rs[j]) && !R.RetryDue(rs[j], now)
  {
    var all := R.RetryAll(rs, now);
    assert forall k | 0 <= k < |rs| :: R.Live(all[k]) <==> R.Live(rs[k]) || R.RetryDue(rs[k], now);
    if R.OneLive(all) {
      forall i, j | 0 <= i < |rs| && 0 <= j < |rs| && i != j && R.RetryDue(rs[i], now)
        ensures !R.Live(rs[j]) && !R.RetryDue(rs[j], now)
      {
        assert R.Live(all[i]);
        assert !R.Live(all[j]);
      }
    }
  }

  /** How a booking comes to it: its refund is rejected, a second one is made,
      and an hour later the first is due. */
  lemma SecondRefundStandsInTheWay(r: R.Refund)
    requires r.state == R.Queued && !r.sent && r.autoRetries == 0
    ensures var failed := R.Act([r], 0, R.Advance(R.LookupError(true)), true, 0);
      && failed.Some?
      && var rs := R.Insert(failed.value, r);
         && rs.Some? && R.OneLive(rs.value)
         && !R.OneLive(R.RetryAll(rs.value, R.HOUR + 1))
  {
    var f := R.Act([r], 0, R.Advance(R.LookupError(true)), true, 0).value[0];
    assert !R.Live(f) && f.updatedAt == 0 && R.RetryDue(f, R.HOUR + 1);
    var rs := [f] + [r];
    assert R.Act([r], 0, R.Advance(R.LookupError(true)), true, 0).value == [f];
    var all := R.RetryAll(rs, R.HOUR + 1);
    assert R.Live(all[0]) && R.Live(all[1]);
  }

  /** Where it fits, one subject has at most one row that is due, and retrying it
      alone is the same. */
  lemma OneRow(rs: seq<R.Refund>, autoRefunds: bool, now: int) returns (i: nat)
    requires R.OneLive(rs) && R.OneLive(R.RetryAll(rs, now))
    ensures R.RetryAll(rs, now) == rs || R.Act(rs, i, R.AutoRetry, autoRefunds, now) == Some(R.RetryAll(rs, now))
  {
    var all := R.RetryAll(rs, now);
    i := 0;
    if k :| 0 <= k < |rs| && R.RetryDue(rs[k], now) {
      i := k;
      assert R.Live(all[k]);
      forall j | 0 <= j < |rs| && j != k ensures all[j] == rs[j] && !R.Live(rs[j]) {
        assert !R.Live(all[j]);
      }
      assert all == rs[k := all[k]];
    } else {
      assert all == rs;
    }
  }

  /** One more booking of the pass is at most one step. */
  lemma NextBooking(cfg: Config, s: Books, n: nat) returns (es: seq<Event>)
    requires n < |s.cases| && R.OneLive(s.cases[n].refunds) && R.OneLive(R.RetryAll(s.cases[n].refunds, s.clock))
    ensures Run(cfg, PassOn(s, n, {}), es) == PassOn(s, n + 1, {})
  {
    hide R.RetryAll, R.OneLive, R.Act, Verify, Finalize, Release, Send, Reverse, RetryPayout, ActUnbooked, FinishUnbooked;
    var t, u := PassOn(s, n, {}), PassOn(s, n + 1, {});
    var rs := s.cases[n].refunds;
    var i := OneRow(rs, cfg.autoRefunds, s.clock);
    assert t.cases[n] == s.cases[n];
    assert u.cases == t.cases[n := RetriedCase(s.cases[n], s.clock)];
    if R.RetryAll(rs, s.clock) == rs {
      es := [];
      assert t.cases[n := t.cases[n]] == t.cases;
    } else {
      es := [OnBooking(n, C.RefundAction(i, R.AutoRetry))];
      RunSnoc(cfg, t, [], es[0]);
      assert [] + [es[0]] == es;
    }
  }

  lemma NextException(cfg: Config, s: Books, keys: set<ExceptionKey>, k: ExceptionKey) returns (es: seq<Event>)
    requires k in s.exceptions && k !in keys
    requires R.OneLive(s.exceptions[k].refunds) && R.OneLive(R.RetryAll(s.exceptions[k].refunds, s.clock))
    ensures Run(cfg, PassOn(s, |s.cases|, keys), es) == PassOn(s, |s.cases|, keys + {k})
  {
    hide R.RetryAll, R.OneLive, R.Act, Verify, Finalize, Release, Send, Reverse, RetryPayout, Act, FinishUnbooked;
    var t, u := PassOn(s, |s.cases|, keys), PassOn(s, |s.cases|, keys + {k});
    var rs := s.exceptions[k].refunds;
    var i := OneRow(rs, cfg.autoRefunds, s.clock);
    assert u.exceptions == t.exceptions[k := RetriedUnbooked(s.exceptions[k], s.clock)];
    if R.RetryAll(rs, s.clock) == rs {
      es := [];
      assert t.exceptions[k := t.exceptions[k]] == t.exceptions;
    } else {
      es := [UnbookedAction(k, i, R.AutoRetry)];
      RunSnoc(cfg, t, [], es[0]);
      assert [] + [es[0]] == es;
    }
  }

  lemma {:induction false} RunConcat(cfg: Config, s: Books, es: seq<Event>, fs: seq<Event>)
    ensures Run(cfg, s, es + fs) == Run(cfg, Run(cfg, s, es), fs)
  {
    hide Step;
    if fs == [] {
      assert es + fs == es;
    } else {
      var n := |fs| - 1;
      RunConcat(cfg, s, es, fs[..n]);
      assert es + fs == (es + fs[..n]) + [fs[n]];
      RunSnoc(cfg, s, es + fs[..n], fs[n]);
    }
  }

  lemma {:induction false} BookingsPass(cfg: Config, s: Books, n: nat) returns (es: seq<Event>)
    requires n <= |s.cases| && PassFits(s) && forall b | 0 <= b < |s.cases| :: R.OneLive(s.cases[b].refunds)
    ensures Run(cfg, s, es) == PassOn(s, n, {})
  {
    hide Step, R.OneLive, R.RetryAll;
    if n == 0 {
      es := [];
      assert PassOn(s, 0, {}).cases == s.cases && PassOn(s, 0, {}).exceptions == s.exceptions;
    } else {
      var before := BookingsPass(cfg, s, n - 1);
      var last := NextBooking(cfg, s, n - 1);
      es := before + last;
      RunConcat(cfg, s, before, last);
    }
  }

  lemma {:induction false} ExceptionsPass(cfg: Config, s: Books, keys: set<ExceptionKey>) returns (es: seq<Event>)
    requires keys <= s.exceptions.Keys && PassFits(s) && forall b | 0 <= b < |s.cases| :: R.OneLive(s.cases[b].refunds)
    requires forall k | k in s.exceptions :: R.OneLive(s.exceptions[k].refunds)
    ensures Run(cfg, s, es) == PassOn(s, |s.cases|, keys)
    decreases keys
  {
    hide Step, R.OneLive, R.RetryAll;
    if keys == {} {
      es := BookingsPass(cfg, s, |s.cases|);
    } else {
      var k :| k in keys;
      var before := ExceptionsPass(cfg, s, keys - {k});
      var last := NextException(cfg, s, keys - {k}, k);
      es := before + last;
      RunConcat(cfg, s, before, last);
      assert keys - {k} + {k} == keys;
    }
  }

  /** A pass that goes through is a run of single retries, so it keeps whatever
      every run keeps. */
  lemma PassIsRun(cfg: Config, s: Books) returns (es: seq<Event>)
    requires Inv(cfg, s) && PassFits(s)
    ensures Run(cfg, s, es) == Pass(s) && Inv(cfg, Pass(s))
  {
    hide Inv, Step, R.OneLive, R.RetryAll;
    OneLiveEverywhere(cfg, s);
    es := ExceptionsPass(cfg, s, s.exceptions.Keys);
    RunKeeps(cfg, s, es);
  }

  lemma OneLiveEverywhere(cfg: Config, s: Books)
    requires Inv(cfg, s)
    ensures forall b | 0 <= b < |s.cases| :: R.OneLive(s.cases[b].refunds)
    ensures forall k | k in s.exceptions :: R.OneLive(s.exceptions[k].refunds)
  {
    hide R.OneLive;
    assert forall k | k in s.exceptions :: UnbookedOk(s.exceptions[k]);
  }
}
