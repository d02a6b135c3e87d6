/** Seller debts from refunds made after a payout, repaid from later payouts,
    oldest first (services/core/cmd/api/refunds.go, payouts.go). */
module Recovery {
  import opened Common
  import Policy

  /** One seller_recoveries row; a seller's rows are kept in age order. */
  datatype Debt = Debt(booking: nat, refund: nat, amount: int, recovered: int)

  function Left(d: Debt): int { d.amount - d.recovered }

  ghost function LeftOf(): Debt -> int { (d: Debt) => Left(d) }

  ghost function Outstanding(ds: seq<Debt>): int { Sum(LeftOf(), ds) }

  ghost predicate Bounded(ds: seq<Debt>) {
    forall i | 0 <= i < |ds| :: 0 <= ds[i].recovered <= ds[i].amount
  }

  /** In age order: fully repaid debts, then at most one partly repaid, then
      untouched ones. Anything repaid means everything older is settled. */
  ghost predicate OldestFirst(ds: seq<Debt>) {
    && Bounded(ds)
    && (forall i, j | 0 <= i < j < |ds| :: ds[j].recovered > 0 ==> Left(ds[i]) == 0)
  }

  /** applyRecovery: hand a repayment out over the open debts in order. */
  function Repay(ds: seq<Debt>, amount: int): (r: seq<Debt>)
    ensures |r| == |ds|
  {
    if ds == [] || amount <= 0 then ds
    else
      var take := Min(amount, Left(ds[0]));
      [ds[0].(recovered := ds[0].recovered + take)] + Repay(ds[1..], amount - take)
  }

  /** The open debts are read into a 32-bit integer, so a larger one makes the
      query fail and the payout cannot be released. */
  predicate Readable(ds: seq<Debt>) {
    forall i | 0 <= i < |ds| :: Left(ds[i]) <= MAX_INT32
  }

  /** takeRecovery: how much of a payout goes to earlier debts. */
  ghost function Take(ds: seq<Debt>, amount: int, capBps: int): int
    requires amount >= 0
  {
    Min(Outstanding(ds), Policy.BasisPoints(amount, capBps))
  }

  lemma {:induction false} OutstandingFront(ds: seq<Debt>)
    requires ds != []
    ensures Outstanding(ds) == Left(ds[0]) + Outstanding(ds[1..])
  {
    assert ds == [ds[0]] + ds[1..];
    SumConcat(LeftOf(), [ds[0]], ds[1..]);
    SumSnoc(LeftOf(), [], ds[0]);
    assert [] + [ds[0]] == [ds[0]];
  }

  lemma {:induction false} OutstandingNonNegative(ds: seq<Debt>)
    requires Bounded(ds)
    ensures Outstanding(ds) >= 0
  {
    SumNonNegative(LeftOf(), ds);
  }

  /** A repayment within the debt lowers it by exactly that much. */
  lemma {:induction false} RepayExact(ds: seq<Debt>, amount: int)
    requires Bounded(ds) && 0 <= amount <= Outstanding(ds)
    ensures Outstanding(Repay(ds, amount)) == Outstanding(ds) - amount
  {
    if ds == [] || amount <= 0 {
    } else {
      var take := Min(amount, Left(ds[0]));
      var rest := Repay(ds[1..], amount - take);
      OutstandingFront(ds);
      OutstandingNonNegative(ds[1..]);
      RepayExact(ds[1..], amount - take);
      OutstandingFront(Repay(ds, amount));
      assert Repay(ds, amount)[1..] == rest;
    }
  }

  /** No debt is over-repaid, none changes size or loses a repayment. */
  lemma {:induction false} RepayBounded(ds: seq<Debt>, amount: int)
    requires Bounded(ds)
    ensures Bounded(Repay(ds, amount))
    ensures forall i | 0 <= i < |ds| ::
      var r := Repay(ds, amount)[i];
      r.(recovered := ds[i].recovered) == ds[i] && r.recovered >= ds[i].recovered
  {
    if ds == [] || amount <= 0 {
    } else {
      var take := Min(amount, Left(ds[0]));
      RepayBounded(ds[1..], amount - take);
      var rest := Repay(ds[1..], amount - take);
      forall i | 0 < i < |ds| ensures Repay(ds, amount)[i] == rest[i - 1] && ds[i] == ds[1..][i - 1] {}
    }
  }

  /** A debt that receives part of the repayment leaves no older debt open. */
  lemma {:induction false} RepayInOrder(ds: seq<Debt>, amount: int)
    requires OldestFirst(ds)
    ensures OldestFirst(Repay(ds, amount))
  {
    RepayBounded(ds, amount);
    if ds == [] || amount <= 0 {
    } else {
      var take := Min(amount, Left(ds[0]));
      var after := Repay(ds, amount);
      var rest := Repay(ds[1..], amount - take);
      assert OldestFirst(ds[1..]);
      RepayInOrder(ds[1..], amount - take);
      forall i, j | 0 <= i < j < |ds| && after[j].recovered > 0 ensures Left(after[i]) == 0 {
        assert after[j] == rest[j - 1];
        if i > 0 {
          assert after[i] == rest[i - 1];
        }
      }
    }
  }

  /** The payout repays exactly the smaller of the debt and the floored cap. */
  lemma TakeExact(ds: seq<Debt>, amount: int, capBps: int)
    requires Bounded(ds) && 0 <= amount <= MAX_INT64 && 0 <= capBps <= 10000
    ensures var take := Take(ds, amount, capBps);
      && take == Min(Outstanding(ds), amount * capBps / 10000)
      && 0 <= take <= amount
      && Outstanding(Repay(ds, take)) == Outstanding(ds) - take
  {
    Policy.BasisPointsExact(amount, capBps);
    OutstandingNonNegative(ds);
    RepayExact(ds, Take(ds, amount, capBps));
  }

  /** A new debt is the youngest and untouched, so the order is kept. */
  lemma IncurKeepsOrder(ds: seq<Debt>, d: Debt)
    requires OldestFirst(ds) && d.recovered == 0 && d.amount >= 0
    ensures OldestFirst(ds + [d])
    ensures Outstanding(ds + [d]) == Outstanding(ds) + d.amount
  {}

  /** Said as a shape: some debt k separates the settled from the untouched. */
  lemma {:induction false} OldestFirstShape(ds: seq<Debt>) returns (k: nat)
    requires OldestFirst(ds)
    ensures k <= |ds|
    ensures forall i | 0 <= i < k :: Left(ds[i]) == 0
    ensures forall i | k < i < |ds| :: ds[i].recovered == 0
    ensures k < |ds| ==> Left(ds[k]) > 0
  {
    if ds == [] {
      k := 0;
    } else if Left(ds[0]) > 0 {
      k := 0;
    } else {
      var tail := OldestFirstShape(ds[1..]);
      k := tail + 1;
      forall i | 0 < i < |ds| ensures ds[i] == ds[1..][i - 1] {}
    }
  }
}
