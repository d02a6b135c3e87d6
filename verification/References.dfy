/** The references under which transfers are sent to the provider
    (services/core/cmd/api/payouts.go). */
module References {
  import opened Common
  import opened Decimal

  /** The hex digits of a booking's identity: always 32 of them. */
  type Id = s: seq<Byte> | |s| == 32 witness seq(32, _ => 48)

  /** wmt-payout- */
  const PREFIX: Bytes := [119, 109, 116, 45, 112, 97, 121, 111, 117, 116, 45]
  const GENERATION: Bytes := [45, 103]

  /** payoutReference */
  function PayoutReference(id: Id, generation: nat): Bytes {
    if generation > 1 then PREFIX + id + GENERATION + Digits(generation) else PREFIX + id
  }

  /** No two payouts, and no two attempts at one payout, share a reference. */
  lemma ReferencesDiffer(a: Id, g: nat, b: Id, h: nat)
    requires g >= 1 && h >= 1 && PayoutReference(a, g) == PayoutReference(b, h)
    ensures a == b && g == h
  {
    var n := |PREFIX|;
    var r, q := PayoutReference(a, g), PayoutReference(b, h);
    assert a == r[n..n + 32] && b == q[n..n + 32];
    if g > 1 && h > 1 {
      assert Digits(g) == r[n + 34..] && Digits(h) == q[n + 34..];
      DigitsInjective(g, h);
    }
  }
}
