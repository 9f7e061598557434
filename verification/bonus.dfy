/** The economic bonus: whole extra pieces are paid at a progressive piece
    rate (5 euro each up to 18 pieces, 10 euro for each piece after that),
    and the pool is shared among the available staff. */
module Bonus {
  import opened Rules

  /** Euro paid for the k-th whole extra piece, counting from 1. */
  function PieceRate(k: nat): nat {
    if k <= LimitLowRate then RateLow else RateHigh
  }

  /** Reference definition of the bonus for n whole extra pieces: every piece
      is paid at the rate of its own position, so crossing the threshold
      raises the marginal rate without re-pricing the earlier pieces. */
  function ProgressiveBonus(n: nat): nat {
    if n == 0 then 0 else ProgressiveBonus(n - 1) + PieceRate(n)
  }

  /** The closed form used by the calculator for n whole extra pieces. The
      result lies between paying every piece at the low rate and paying
      every piece at the high rate. */
  function TierBonus(n: nat): (b: nat)
    ensures RateLow * n <= b <= RateHigh * n
  {
    if n <= LimitLowRate then n * RateLow
    else LimitLowRate * RateLow + (n - LimitLowRate) * RateHigh
  }

  /** The total bonus for a (possibly fractional, possibly negative) count of
      extra pieces: only a positive count earns anything, and only its whole
      pieces are paid. */
  function TotalBonus(extra: real): (b: nat)
    ensures b == 0 <==> extra < 1.0
    ensures extra >= 1.0 ==> b == TierBonus(extra.Floor)
  {
    if extra > 0.0 then
      var rounded := extra.Floor;
      if rounded > 0 then TierBonus(rounded) else 0
    else 0
  }

  /** The total bonus shared evenly among all available staff; nothing is
      paid out when no staff is available. */
  function BonusPerEmployee(total: nat, staff: real): (b: real)
    ensures b >= 0.0
    ensures staff <= 0.0 ==> b == 0.0
    ensures staff > 0.0 ==> b * staff == total as real
    ensures staff > 0.0 && total > 0 ==> b > 0.0
  {
    if staff > 0.0 then total as real / staff else 0.0
  }

  /** Each additional whole piece adds exactly the rate of its position. */
  lemma TierStep(n: nat)
    ensures TierBonus(n + 1) == TierBonus(n) + PieceRate(n + 1)
  {
  }

  /** The closed form agrees with the piece-by-piece reference definition. */
  lemma {:induction false} TierIsProgressive(n: nat)
    ensures TierBonus(n) == ProgressiveBonus(n)
  {
    if n > 0 {
      TierIsProgressive(n - 1);
      TierStep(n - 1);
    }
  }

  /** The bonus never decreases as the count of whole extra pieces grows, and
      strictly increases with every extra piece. */
  lemma TierMonotone(m: nat, n: nat)
    ensures m <= n ==> TierBonus(m) <= TierBonus(n)
    ensures m < n ==> TierBonus(m) < TierBonus(n)
  {
  }

  /** The two pieces either side of the threshold. */
  lemma TierThreshold()
    ensures TierBonus(LimitLowRate) == 90
    ensures TierBonus(LimitLowRate + 1) == 100
  {
  }

  /** Whether the guards in TotalBonus are taken or not, the bonus is the
      tier bonus of the floored count, zero when that is not positive. */
  lemma TotalBonusOfFloor(extra: real)
    ensures TotalBonus(extra) == if extra.Floor > 0 then TierBonus(extra.Floor) else 0
  {
  }

  /** The bonus depends on the extra pieces only through their whole part. */
  lemma TotalBonusDependsOnFloor(e1: real, e2: real)
    requires e1.Floor == e2.Floor
    ensures TotalBonus(e1) == TotalBonus(e2)
  {
  }

  /** More extra pieces never earn a smaller bonus; a further whole piece
      always earns a larger one. */
  lemma TotalBonusMonotone(e1: real, e2: real)
    requires e1 <= e2
    ensures TotalBonus(e1) <= TotalBonus(e2)
    ensures e2 >= 1.0 && e1.Floor < e2.Floor ==> TotalBonus(e1) < TotalBonus(e2)
  {
  }

  /** A fractional part never counts: 18.9 extra pieces earn the 18-piece
      bonus, and 19 earn the first high-rate piece on top. */
  lemma TotalBonusBoundary()
    ensures TotalBonus(18.9) == 90
    ensures TotalBonus(19.0) == 100
    ensures TotalBonus(0.9) == 0
  {
  }

  /** For a fixed crew, more extra pieces never lower the share of each
      employee, and a further whole piece raises it. */
  lemma ShareMonotone(e1: real, e2: real, staff: real)
    requires e1 <= e2 && staff > 0.0
    ensures BonusPerEmployee(TotalBonus(e1), staff) <= BonusPerEmployee(TotalBonus(e2), staff)
    ensures e2 >= 1.0 && e1.Floor < e2.Floor ==>
              BonusPerEmployee(TotalBonus(e1), staff) < BonusPerEmployee(TotalBonus(e2), staff)
  {
    TotalBonusMonotone(e1, e2);
    DivMonotone(TotalBonus(e1) as real, TotalBonus(e2) as real, staff);
  }

  /** Dividing by the same positive crew preserves (strict) order. */
  lemma DivMonotone(a: real, b: real, d: real)
    requires a <= b && d > 0.0
    ensures a / d <= b / d
    ensures a < b ==> a / d < b / d
  {
  }
}
