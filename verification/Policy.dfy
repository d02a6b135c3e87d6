/** Rates, splits and waiting times. The source computes in int64, whose
    products wrap silently; the functions here wrap the same way, and the lemmas
    say exactly when the result is the intended one
    (services/core/cmd/api/checkout.go, policy.go, payouts.go, payout_provider.go). */
module Policy {
  import opened Common

  const TWO_64: int := 0x1_0000_0000_0000_0000

  /** The two's-complement int64 with the same low 64 bits. */
  function Wrap(x: int): int {
    var low := x % TWO_64;
    if low > MAX_INT64 then low - TWO_64 else low
  }

  predicate IsInt64(x: int) { -MAX_INT64 - 1 <= x <= MAX_INT64 }

  /** Go's division, which truncates toward zero. */
  function Quotient(a: int, b: int): int
    requires b > 0
  {
    if a >= 0 then a / b else -((-a) / b)
  }

  /** (amount/10000)*bps + ((amount%10000)*bps)/10000 in int64, for amount >= 0. */
  function BasisPoints(amount: int, bps: int): int
    requires amount >= 0
  {
    Wrap(Wrap((amount / 10000) * bps) + Quotient(Wrap((amount % 10000) * bps), 10000))
  }

  lemma WrapId(x: int)
    requires IsInt64(x)
    ensures Wrap(x) == x
  {}

  lemma MulLe(a: int, b: int, c: int)
    requires 0 <= a && b <= c
    ensures a * b <= a * c
  {}

  /** Splitting off the quotient first does not change the floor. */
  lemma FloorSplit(q: int, r: int, m: int, d: int)
    requires d > 0
    ensures ((q * d + r) * m) / d == q * m + (r * m) / d
  {
    assert (q * d + r) * m == d * (q * m) + r * m;
    DivAddMultiple(r * m, q * m, d);
  }

  lemma DivAddMultiple(x: int, k: int, d: int)
    requires d > 0
    ensures (d * k + x) / d == k + x / d
  {
    assert x == d * (x / d) + x % d;
    DivIs(d * k + x, d, k + x / d, x % d);
  }

  lemma DivIs(n: int, d: int, q: int, r: int)
    requires d > 0 && n == d * q + r && 0 <= r < d
    ensures n / d == q
  {
    if n / d > q {
      MulLe(d, q + 1, n / d);
    } else if n / d < q {
      MulLe(d, n / d + 1, q);
    }
  }

  /** A floored share of at most the whole is at most the whole. */
  lemma ShareWithin(amount: int, m: int, d: int)
    requires d > 0 && 0 <= amount && 0 <= m <= d
    ensures 0 <= amount * m / d <= amount
  {
    MulLe(amount, m, d);
    assert amount * m >= 0;
    DivMonotone(0, amount * m, d);
    DivMonotone(amount * m, amount * d, d);
    DivIs(amount * d, d, amount, 0);
  }

  lemma DivMonotone(a: int, b: int, d: int)
    requires d > 0 && a <= b
    ensures a / d <= b / d
  {
    if a / d > b / d {
      MulLe(d, b / d + 1, a / d);
    }
  }

  /** Platform fee and recovery cap: for every int64 amount and every rate up
      to 10000 no step wraps, and the result is the floor of the exact share. */
  lemma BasisPointsExact(amount: int, bps: int)
    requires 0 <= amount <= MAX_INT64 && 0 <= bps <= 10000
    ensures BasisPoints(amount, bps) == amount * bps / 10000
    ensures 0 <= BasisPoints(amount, bps) <= amount
  {
    hide Wrap;
    var q, r := amount / 10000, amount % 10000;
    MulLe(q, bps, 10000);
    MulLe(r, bps, 10000);
    ProductNonNegative(q, bps);
    ProductNonNegative(r, bps);
    FloorSplit(q, r, bps, 10000);
    ShareWithin(amount, bps, 10000);
    DivMonotone(r * bps, r * 10000, 10000);
    DivIs(r * 10000, 10000, r, 0);
    WrapId(q * bps);
    WrapId(r * bps);
    WrapId(q * bps + (r * bps) / 10000);
  }

  /** expectedProcessorCost, with cap None when the schedule has none. */
  function ProcessorCost(amount: int, bps: int, fixed: int, cap: Option<int>): int
    requires IsInt64(amount)
  {
    if amount < 0 || bps < 0 || fixed < 0 then MAX_INT64
    else
      var base := Wrap(Wrap((amount / 10000) * bps) + Quotient(Wrap((amount % 10000) * bps + 9999), 10000));
      if fixed > 0 && base > MAX_INT64 - fixed then MAX_INT64
      else
        var cost := Wrap(base + fixed);
        if cap.Some? && cost > cap.value then cap.value else cost
  }

  /** The exact cost before capping: the share rounded up, plus the fixed part. */
  function UncappedCost(amount: int, bps: int, fixed: int): int {
    (amount * bps + 9999) / 10000 + fixed
  }

  /** The share of the cost, rounded up, without a wrap on the way. */
  lemma CostShare(amount: int, bps: int)
    requires 0 <= amount <= MAX_INT64 && 0 <= bps <= 10000
    ensures var share := (amount * bps + 9999) / 10000;
      && 0 <= share <= amount
      && Wrap(Wrap((amount / 10000) * bps) + Quotient(Wrap((amount % 10000) * bps + 9999), 10000)) == share
  {
    hide Wrap;
    var q, r := amount / 10000, amount % 10000;
    assert amount == q * 10000 + r;
    CostBounds(q, r, bps);
    CostSplit(q, r, bps);
    WrapId(q * bps);
    WrapId(r * bps + 9999);
    WrapId(q * bps + (r * bps + 9999) / 10000);
  }

  lemma CostBounds(q: int, r: int, bps: int)
    requires 0 <= q && 0 <= r < 10000 && 0 <= bps <= 10000
    ensures 0 <= q * bps <= q * 10000 && 0 <= r * bps <= r * 10000
    ensures 0 <= (r * bps + 9999) / 10000 <= r
  {
    MulLe(q, bps, 10000);
    MulLe(r, bps, 10000);
    ProductNonNegative(q, bps);
    ProductNonNegative(r, bps);
    DivMonotone(r * bps + 9999, r * 10000 + 9999, 10000);
    DivIs(r * 10000 + 9999, 10000, r, 9999);
  }

  lemma CostSplit(q: int, r: int, bps: int)
    ensures ((q * 10000 + r) * bps + 9999) / 10000 == q * bps + (r * bps + 9999) / 10000
  {}

  /** Saturation comes before the cap: a cost too large for int64 is reported
      as the largest int64 even when a smaller cap is configured. */
  lemma ProcessorCostExact(amount: int, bps: int, fixed: int, cap: Option<int>)
    requires 0 <= amount <= MAX_INT64 && 0 <= bps <= 10000 && 0 <= fixed <= MAX_INT64
    ensures var cost := UncappedCost(amount, bps, fixed);
      ProcessorCost(amount, bps, fixed, cap) ==
        if cost > MAX_INT64 then MAX_INT64
        else if cap.Some? then Min(cap.value, cost)
        else cost
  {
    hide Quotient;
    CostShare(amount, bps);
    var share := (amount * bps + 9999) / 10000;
    if share + fixed <= MAX_INT64 {
      WrapId(share + fixed);
    }
  }

  /** A cost too large for int64 against which a cap is of no use. */
  lemma CapCanBeIgnored()
    ensures ProcessorCost(MAX_INT64, 10000, 1, Some(200_000)) == MAX_INT64
  {
    ProcessorCostExact(MAX_INT64, 10000, 1, Some(200_000));
  }

  /** refundShares: the platform's and the seller's part of a refund. */
  function RefundShares(amount: int, gross: int, deduction: int): (int, int) {
    if gross <= 0 || amount <= 0 then (0, 0)
    else
      var platform := Wrap(Wrap((amount / gross) * deduction) + Quotient(Wrap((amount % gross) * deduction), gross));
      (platform, Wrap(amount - platform))
  }

  predicate ExactProduct(amount: int, gross: int, deduction: int)
    requires gross > 0
  {
    (amount % gross) * deduction <= MAX_INT64
  }

  /** The shares of any refund up to the price add up to the refund, with the
      platform's part at most its deduction and the seller's at most the
      entitlement; the whole price splits into exactly those two. */
  lemma RefundSharesSplit(amount: int, gross: int, deduction: int)
    requires 0 < amount <= gross <= MAX_INT64 && 0 <= deduction <= gross
    requires ExactProduct(amount, gross, deduction)
    ensures var (platform, seller) := RefundShares(amount, gross, deduction);
      && platform == amount * deduction / gross
      && platform + seller == amount
      && 0 <= platform <= deduction
      && 0 <= seller <= gross - deduction
      && (amount == gross ==> platform == deduction && seller == gross - deduction)
  {
    if amount == gross {
      WholeShares(gross, deduction);
    } else {
      PartShares(amount, gross, deduction);
    }
  }

  lemma WholeShares(gross: int, deduction: int)
    requires 0 < gross <= MAX_INT64 && 0 <= deduction <= gross
    ensures RefundShares(gross, gross, deduction) == (deduction, gross - deduction)
    ensures gross * deduction / gross == deduction
  {
    DivIs(gross, gross, 1, 0);
    DivIs(0, gross, 0, 0);
    DivIs(gross * deduction, gross, deduction, 0);
    assert gross % gross == 0;
    WrapId(0);
    WrapId(deduction);
    WrapId(gross - deduction);
  }

  /** Below the price the first quotient is 0 and the remainder is the amount. */
  lemma BelowPrice(amount: int, gross: int)
    requires 0 < amount < gross
    ensures amount / gross == 0 && amount % gross == amount
  {
    DivIs(amount, gross, 0, amount);
  }

  /** The computed shares, where no step wraps. */
  lemma PartSharesAre(amount: int, gross: int, deduction: int)
    requires 0 < amount < gross <= MAX_INT64 && 0 <= amount * deduction <= MAX_INT64
    requires 0 <= amount * deduction / gross <= amount
    ensures RefundShares(amount, gross, deduction) == (amount * deduction / gross, amount - amount * deduction / gross)
  {
    hide Wrap;
    BelowPrice(amount, gross);
    assert (amount / gross) * deduction == 0 && (amount % gross) * deduction == amount * deduction;
    WrapId(0);
    WrapId(amount * deduction);
    WrapId(amount * deduction / gross);
    WrapId(amount - amount * deduction / gross);
  }

  lemma PartShares(amount: int, gross: int, deduction: int)
    requires 0 < amount < gross <= MAX_INT64 && 0 <= deduction <= gross
    requires ExactProduct(amount, gross, deduction)
    ensures var platform := amount * deduction / gross;
      && RefundShares(amount, gross, deduction) == (platform, amount - platform)
      && 0 <= platform <= deduction && platform <= amount
      && amount - platform <= gross - deduction
  {
    hide Wrap, Quotient, RefundShares;
    BelowPrice(amount, gross);
    ProductNonNegative(amount, deduction);
    ShareWithin(amount, deduction, gross);
    assert deduction * amount == amount * deduction;
    ShareWithin(deduction, amount, gross);
    SellerShareWithin(amount, gross, deduction);
    PartSharesAre(amount, gross, deduction);
  }

  lemma ProductNonNegative(a: int, b: int)
    requires a >= 0 && b >= 0
    ensures a * b >= 0
  {}

  lemma SellerShareWithin(amount: int, gross: int, deduction: int)
    requires 0 < amount <= gross && 0 <= deduction <= gross
    ensures amount - amount * deduction / gross <= gross - deduction
  {
    // gross*(gross - deduction) - amount*(gross - deduction) >= 0
    MulLe(gross - deduction, amount, gross);
    var p := amount * deduction / gross;
    assert amount * deduction == gross * p + (amount * deduction) % gross;
    assert gross * p > amount * deduction - gross;
    assert (gross - deduction) * amount == gross * amount - amount * deduction;
    if amount - p > gross - deduction {
      MulLe(gross, gross - deduction + 1, amount - p);
    }
  }

  /** Exactly when refundShares is right: the platform part is the floored
      proportion if and only if the one product it forms fits in an int64. */
  lemma RefundSharesExactIff(amount: int, gross: int, deduction: int)
    requires 0 < amount <= gross <= MAX_INT64 && 0 <= deduction <= gross
    ensures RefundShares(amount, gross, deduction).0 == amount * deduction / gross
       <==> ExactProduct(amount, gross, deduction)
  {
    if ExactProduct(amount, gross, deduction) {
      RefundSharesSplit(amount, gross, deduction);
    } else {
      if amount == gross {
        DivIs(gross, gross, 1, 0);
        assert false;
      }
      DivIs(amount, gross, 0, amount);
      var product := amount * deduction;
      assert product > MAX_INT64;
      WrappedShareDiffers(product, gross);
      ShareWithin(amount, deduction, gross);
      var w := Quotient(Wrap(product), gross);
      QuotientIsInt64(Wrap(product), gross);
      WrapId(w);
    }
  }

  lemma QuotientIsInt64(a: int, b: int)
    requires IsInt64(a) && b > 0
    ensures IsInt64(Quotient(a, b))
  {}

  lemma WrappedShareDiffers(product: int, gross: int)
    requires product > MAX_INT64 && 0 < gross <= MAX_INT64
    ensures Quotient(Wrap(product), gross) < product / gross
  {
    var w := Wrap(product);
    assert w <= product - TWO_64;
    assert product - TWO_64 <= product - 2 * gross;
    DivAddMultiple(product - 2 * gross, 2, gross);
    if w >= 0 {
      DivMonotone(w, product - 2 * gross, gross);
    } else {
      // Truncation moves a negative quotient up by at most one.
      DivMonotone(0, -w, gross);
      DivMonotone(gross, product, gross);
      DivIs(gross, gross, 1, 0);
    }
  }

  /** Up to this price a five percent fee cannot make the product wrap; it is
      far above any price that can be quoted. */
  const MAX_EXACT_PRICE: int := 13_581_879_130

  lemma ExactBelowLimit(amount: int, gross: int, deduction: int)
    requires 0 < amount <= gross <= MAX_EXACT_PRICE && 0 <= deduction <= gross / 20
    ensures ExactProduct(amount, gross, deduction)
  {
    var r := amount % gross;
    MulLe(r, deduction, gross / 20);
    MulLe(gross / 20, r, gross);
    MulLe(gross / 20, gross, MAX_EXACT_PRICE);
  }

  /** One price above the limit whose refund shares come out wrong. */
  lemma RefundSharesCanWrap()
    ensures RefundShares(19_999_999_999, 20_000_000_000, 1_000_000_000).0
      != 19_999_999_999 * 1_000_000_000 / 20_000_000_000
  {}

  /** The dearest conversation there can be: an hour at the highest price a
      seller may set for thirty minutes (offers are lower still). */
  const MAX_PRICE: int := 200_000_000

  /** minutesFromEnv: a configured number inside its range, or the default. */
  function MinutesOr(configured: Option<int>, default_: int, lo: int, hi: int): int {
    if configured.None? || configured.value < lo || configured.value > hi then default_ else configured.value
  }

  function DisputeWindow(configured: Option<int>): int { MinutesOr(configured, 120, 30, 7 * 24 * 60) }

  function PayoutDelay(dispute: Option<int>, configured: Option<int>): int {
    var d := MinutesOr(configured, 180, 30, 14 * 24 * 60);
    var floor := DisputeWindow(dispute) + 30;
    if d < floor then floor else d
  }

  function RecoveryMaxBps(configured: Option<int>): int {
    if configured.None? || configured.value < 0 || configured.value > 10000 then 5000 else configured.value
  }

  /** What a run is configured with, in minutes, basis points and minor units. */
  datatype Config = Config(
    disputeWindow: int, payoutDelay: int, responseWindow: int, recoveryBps: int,
    feeBps: int, minCharge: int, maxCharge: int, autoRefunds: bool, settlementHours: int)

  /** A plain configuration, for runs that show what can happen. */
  const PLAIN := Config(120, 180, 1440, 5000, 0, 1, 1_000_000, true, 24)

  const HOUR := 3600
  const DAY := 24 * HOUR

  /** Days since Monday; day 0 of the clock is a Thursday. */
  function Weekday(t: int): int { (t / DAY + 3) % 7 }

  predicate Weekend(t: int) { Weekday(t) >= 5 }

  /** fundsAvailableAt: at once for a bank transfer, otherwise after the
      settlement wait, moved past a weekend. */
  function FundsAt(cfg: Config, atOnce: bool, paid: int): int {
    var at := paid + cfg.settlementHours * HOUR;
    if atOnce then paid
    else if !Weekend(at) then at
    else if Weekday(at) == 5 then at + 2 * DAY
    else at + DAY
  }

  lemma WeekdayRange(at: int)
    ensures 0 <= Weekday(at) < 7
  {}

  /** A bank transfer is there at once; anything else after the settlement wait,
      moved by whole days to the first one that is neither a Saturday nor a
      Sunday (day 0 is a Thursday). */
  lemma FundsOnWorkingDay(cfg: Config, paid: int) returns (days: int)
    ensures FundsAt(cfg, true, paid) == paid
    ensures 0 <= days <= 2 && FundsAt(cfg, false, paid) == paid + cfg.settlementHours * 3600 + days * 86_400
    ensures (FundsAt(cfg, false, paid) / 86_400 + 3) % 7 <= 4
    ensures days >= 1 ==> ((paid + cfg.settlementHours * 3600) / 86_400 + 3) % 7 >= 5
    ensures days == 2 ==> ((paid + cfg.settlementHours * 3600 + 86_400) / 86_400 + 3) % 7 >= 5
  {
    hide Weekday;
    var at := paid + cfg.settlementHours * HOUR;
    WeekdayRange(at);
    AfterDays(at, 0);
    AfterDays(at, 1);
    AfterDays(at, 2);
    days := if Weekday(at) < 5 then 0 else if Weekday(at) == 5 then 2 else 1;
  }

  /** The day of the week k days later, in numbers. */
  lemma AfterDays(at: int, k: int)
    requires 0 <= k <= 2
    ensures ((at + 86_400 * k) / 86_400 + 3) % 7 == (Weekday(at) + k) % 7
  {
    DivAddMultiple(at, k, 86_400);
    NextWeekday(at / 86_400 + 3, k);
  }

  lemma NextWeekday(n: int, k: int)
    requires 0 <= k <= 2
    ensures (n + k) % 7 == (n % 7 + k) % 7
  {}

  ghost predicate Valid(cfg: Config) {
    && 30 <= cfg.disputeWindow
    && cfg.disputeWindow + 30 <= cfg.payoutDelay
    && 60 <= cfg.responseWindow
    && 0 <= cfg.recoveryBps <= 10000
    && 0 <= cfg.feeBps <= 500
    && 0 < cfg.minCharge <= cfg.maxCharge <= MAX_INT64
    && 0 <= cfg.settlementHours <= 168
  }

  /** Whatever the environment holds, the payout delay leaves at least half an
      hour after the dispute window has closed. */
  lemma ConfiguredDelays(dispute: Option<int>, payout: Option<int>, recovery: Option<int>)
    ensures 30 <= DisputeWindow(dispute) <= 7 * 24 * 60
    ensures DisputeWindow(dispute) + 30 <= PayoutDelay(dispute, payout) <= 14 * 24 * 60
    ensures 0 <= RecoveryMaxBps(recovery) <= 10000
    ensures DisputeWindow(dispute) == if dispute.Some? && 30 <= dispute.value <= 10_080 then dispute.value else 120
    ensures var asked := if payout.Some? && 30 <= payout.value <= 20_160 then payout.value else 180;
      PayoutDelay(dispute, payout) == if asked < DisputeWindow(dispute) + 30 then DisputeWindow(dispute) + 30 else asked
    ensures RecoveryMaxBps(recovery) == if recovery.Some? && 0 <= recovery.value <= 10_000 then recovery.value else 5_000
  {}
}
