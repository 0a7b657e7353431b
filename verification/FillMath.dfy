/** The router's checked i128 fee and slippage arithmetic, and what it accepts. */
module FillMath {
  import opened Protocol

  /** The fee kept by the solver and the amount that reaches the trader. */
  datatype Split = Split(fee: int, proceeds: int)

  /** Integer division as Rust and BigInt do it: toward zero. */
  function TruncDiv(a: int, b: int): int
    requires b != 0
  {
    if (a < 0) == (b < 0) then
      (if a < 0 then -a else a) / (if b < 0 then -b else b)
    else
      -((if a < 0 then -a else a) / (if b < 0 then -b else b))
  }

  function CheckedMul(a: int, b: int): Result<int> {
    if FitsI128(a * b) then Ok(a * b) else Err(MathOverflow)
  }

  function CheckedSub(a: int, b: int): Result<int> {
    if FitsI128(a - b) then Ok(a - b) else Err(MathOverflow)
  }

  function CheckedDiv(a: int, b: int): Result<int> {
    if b == 0 || !FitsI128(TruncDiv(a, b)) then Err(MathOverflow) else Ok(TruncDiv(a, b))
  }

  function MulBps(amount: int, bps: int): Result<int> {
    var scaled :- CheckedMul(amount, bps);
    CheckedDiv(scaled, BPS_DENOMINATOR)
  }

  /** The guards on the order's own terms, the clock and the delivered amount. */
  function CheckTerms(i: TraderIntent, now: int, amount: int): Result<()> {
    if i.sellAmount <= 0 || i.minBuyAmount <= 0 then Err(InvalidAmount)
    else if i.maxSlippageBps > BPS_DENOMINATOR || i.solverFeeBps > BPS_DENOMINATOR then Err(InvalidSlippageBps)
    else if now > i.deadline then Err(IntentExpired)
    else if amount < i.minBuyAmount then Err(InsufficientOutput)
    else Ok(())
  }

  /** The fee split and the slippage check. */
  function Quote(i: TraderIntent, amount: int): Result<Split> {
    var fee :- MulBps(amount, i.solverFeeBps);
    var proceeds :- CheckedSub(amount, fee);
    if proceeds < i.minBuyAmount then
      var shortfall :- CheckedSub(i.minBuyAmount, proceeds);
      var scaled :- CheckedMul(shortfall, BPS_DENOMINATOR);
      var shortfallBps :- CheckedDiv(scaled, i.minBuyAmount);
      if shortfallBps > i.maxSlippageBps then Err(SlippageExceeded) else Ok(Split(fee, proceeds))
    else Ok(Split(fee, proceeds))
  }

  // ----- independent description -----

  /** Terms the router would take further than its first four guards. */
  predicate SoundTerms(i: TraderIntent) {
    && 0 < i.sellAmount && 0 < i.minBuyAmount
    && 0 <= i.maxSlippageBps <= BPS_DENOMINATOR && 0 <= i.solverFeeBps <= BPS_DENOMINATOR
  }

  /** What is left of `amount` after a fee of `bps`, rounded up: the trader's share. */
  function Proceeds(amount: int, bps: int): int {
    amount - amount * bps / BPS_DENOMINATOR
  }

  /** The fill leaves the trader within tolerance, with no rounding hidden in it. */
  predicate WithinTolerance(i: TraderIntent, amount: int) {
    10_000 * Proceeds(amount, i.solverFeeBps) > (9_999 - i.maxSlippageBps) * i.minBuyAmount
  }

  /** Some fill can satisfy the order: the fee leaves something, or the tolerance asks nothing. */
  predicate Fillable(i: TraderIntent) {
    i.solverFeeBps < BPS_DENOMINATOR || i.maxSlippageBps == BPS_DENOMINATOR
  }

  /** The largest proceeds that are still too little. */
  function TooLittle(i: TraderIntent): int {
    (9_999 - i.maxSlippageBps) * i.minBuyAmount / 10_000
  }

  /** The smallest acceptable fill of a fillable order. */
  function LeastFill(i: TraderIntent): int {
    if i.solverFeeBps >= BPS_DENOMINATOR then i.minBuyAmount
    else
      var reach := 10_000 * TooLittle(i) / (10_000 - i.solverFeeBps) + 1;
      if reach < i.minBuyAmount then i.minBuyAmount else reach
  }

  // ----- arithmetic -----

  lemma FloorBelow(x: int, d: int, k: int)
    requires d > 0
    ensures x / d < k <==> x < k * d
  {
    var q := x / d;
    assert q * d <= x < q * d + d;
    if q < k { assert (q + 1) * d <= k * d by { MulMono(q + 1, k, d); } }
    if q >= k { MulMono(k, q, d); }
  }

  lemma MulMono(a: int, b: int, c: int)
    requires a <= b && 0 <= c
    ensures a * c <= b * c
  {
    assert 0 <= (b - a) * c;
  }

  lemma ProceedsIsCeiling(amount: int, bps: int)
    ensures 10_000 * (Proceeds(amount, bps) - 1) < amount * (10_000 - bps) <= 10_000 * Proceeds(amount, bps)
  {
    assert amount * (10_000 - bps) == 10_000 * amount - amount * bps;
  }

  /** A larger delivery never leaves the trader with less, and each extra unit delivered
      raises the trader's share by at most one. */
  lemma ProceedsMonotone(a: int, b: int, bps: int)
    requires a <= b && 0 <= bps <= 10_000
    ensures 0 <= Proceeds(b, bps) - Proceeds(a, bps) <= b - a
  {
    ProceedsIsCeiling(a, bps);
    ProceedsIsCeiling(b, bps);
    MulMono(a, b, 10_000 - bps);
    MulMono(a, b, bps);
    assert a * bps / 10_000 <= b * bps / 10_000 by {
      FloorBelow(b * bps, 10_000, a * bps / 10_000);
    }
  }

  lemma FeeFacts(amount: int, bps: int)
    requires 0 <= amount && 0 <= bps <= 10_000
    ensures 0 <= amount * bps / 10_000 <= amount
    ensures 0 <= Proceeds(amount, bps) <= amount
  {
    MulMono(0, amount, bps);
    MulMono(bps, 10_000, amount);
    assert amount * bps <= 10_000 * amount;
  }

  // ----- what the router's arithmetic decides -----

  /** Once the terms hold, the arithmetic overflows exactly when the fee product does; the
      subtraction, the scaling by 10,000 and the division never do. */
  lemma OverflowExactly(i: TraderIntent, amount: int)
    requires i.Representable() && FitsI128(amount) && SoundTerms(i) && i.minBuyAmount <= amount
    ensures Quote(i, amount) == Err(MathOverflow) <==> amount * i.solverFeeBps > I128_MAX
  {
    QuoteExactly(i, amount);
  }

  /** The router's three answers, each under a condition free of its own roundings. */
  lemma QuoteExactly(i: TraderIntent, amount: int)
    requires i.Representable() && FitsI128(amount) && SoundTerms(i) && i.minBuyAmount <= amount
    ensures Quote(i, amount) ==
            if amount * i.solverFeeBps > I128_MAX then Err(MathOverflow)
            else if WithinTolerance(i, amount) then
              Ok(Split(amount - Proceeds(amount, i.solverFeeBps), Proceeds(amount, i.solverFeeBps)))
            else Err(SlippageExceeded)
  {
    var product := amount * i.solverFeeBps;
    MulMono(0, amount, i.solverFeeBps);
    FeeFacts(amount, i.solverFeeBps);
    if product <= I128_MAX {
      var proceeds := Proceeds(amount, i.solverFeeBps);
      var fee := amount - proceeds;
      assert MulBps(amount, i.solverFeeBps) == Ok(fee);
      ToleranceIsFlooredShortfall(i, proceeds);
      if proceeds < i.minBuyAmount {
        var shortfall := i.minBuyAmount - proceeds;
        // the shortfall is at most the fee, and 10,000 fees are at most the product
        assert 0 < shortfall * 10_000 <= fee * 10_000 <= product;
        assert shortfall * 10_000 / i.minBuyAmount <= shortfall * 10_000 by {
          FloorBelow(shortfall * 10_000, i.minBuyAmount, shortfall * 10_000 + 1);
          MulMono(1, i.minBuyAmount, shortfall * 10_000 + 1);
        }
        assert 0 <= shortfall * 10_000 / i.minBuyAmount by {
          FloorBelow(shortfall * 10_000, i.minBuyAmount, 0);
        }
      }
    }
  }

  /** A floored shortfall within `maxSlippageBps` is a strict bound on the proceeds. */
  lemma ToleranceIsFlooredShortfall(i: TraderIntent, proceeds: int)
    requires 0 < i.minBuyAmount && 0 <= i.maxSlippageBps
    ensures 10_000 * proceeds > (9_999 - i.maxSlippageBps) * i.minBuyAmount
       <==> i.minBuyAmount <= proceeds
            || (i.minBuyAmount - proceeds) * 10_000 / i.minBuyAmount <= i.maxSlippageBps
  {
    var m, s := i.minBuyAmount, i.maxSlippageBps;
    assert (9_999 - s) * m == 10_000 * m - (s + 1) * m;
    if m <= proceeds {
      MulMono(1, s + 1, m);
    } else {
      FloorBelow((m - proceeds) * 10_000, m, s + 1);
    }
  }

  /** Whether proceeds are within tolerance is whether they exceed `TooLittle`. */
  lemma ToleranceExceedsTooLittle(i: TraderIntent, amount: int)
    ensures WithinTolerance(i, amount) <==> TooLittle(i) < Proceeds(amount, i.solverFeeBps)
  {
    FloorBelow((9_999 - i.maxSlippageBps) * i.minBuyAmount, 10_000, Proceeds(amount, i.solverFeeBps));
  }

  /** The acceptable fills of a fillable order are exactly those from `LeastFill` up, and an
      order that is not fillable has none. */
  lemma AcceptedFromLeastFill(i: TraderIntent, amount: int)
    requires SoundTerms(i)
    ensures i.minBuyAmount <= amount && WithinTolerance(i, amount) <==> Fillable(i) && LeastFill(i) <= amount
    ensures i.solverFeeBps == BPS_DENOMINATOR ==>
              (WithinTolerance(i, amount) <==> i.maxSlippageBps == BPS_DENOMINATOR)
  {
    var f, s, m := i.solverFeeBps, i.maxSlippageBps, i.minBuyAmount;
    var p := Proceeds(amount, f);
    if f == BPS_DENOMINATOR {
      assert p == 0;
      if s < BPS_DENOMINATOR { MulMono(0, 9_999 - s, m); }
    } else {
      ToleranceExceedsTooLittle(i, amount);
      ProceedsIsCeiling(amount, f);
      assert TooLittle(i) < p <==> 10_000 * TooLittle(i) < amount * (10_000 - f);
      FloorBelow(10_000 * TooLittle(i), 10_000 - f, amount);
    }
  }

  /** When the fee is no larger than the tolerance, delivering the minimum is enough. */
  lemma MinimumSuffices(i: TraderIntent)
    requires SoundTerms(i) && i.solverFeeBps <= i.maxSlippageBps
    ensures Fillable(i) && WithinTolerance(i, i.minBuyAmount) && LeastFill(i) == i.minBuyAmount
  {
    var m := i.minBuyAmount;
    ProceedsIsCeiling(m, i.solverFeeBps);
    assert m * (10_000 - i.solverFeeBps) > (9_999 - i.maxSlippageBps) * m by {
      MulMono(1, 1 + i.maxSlippageBps - i.solverFeeBps, m);
      assert m * (10_000 - i.solverFeeBps) - (9_999 - i.maxSlippageBps) * m
          == (1 + i.maxSlippageBps - i.solverFeeBps) * m;
    }
    AcceptedFromLeastFill(i, m);
  }

  /** Some fill is acceptable iff the fee is below 100% or the tolerance is 100%. */
  lemma FillableExactly(i: TraderIntent)
    requires SoundTerms(i)
    ensures (exists amount :: i.minBuyAmount <= amount && WithinTolerance(i, amount))
       <==> i.solverFeeBps < BPS_DENOMINATOR || i.maxSlippageBps == BPS_DENOMINATOR
  {
    AcceptedFromLeastFill(i, LeastFill(i));
    if amount :| i.minBuyAmount <= amount && WithinTolerance(i, amount) { AcceptedFromLeastFill(i, amount); }
  }

  /** Within i128 the router accepts one interval of fills, empty when the order is not
      fillable: from the least fill to the largest whose fee product does not overflow. */
  lemma RouterAcceptsAnInterval(i: TraderIntent, amount: int)
    requires i.Representable() && FitsI128(amount) && SoundTerms(i)
    ensures i.minBuyAmount <= amount && Quote(i, amount).Ok?
       <==> Fillable(i) && LeastFill(i) <= amount
            && (i.solverFeeBps == 0 || amount <= I128_MAX / i.solverFeeBps)
  {
    AcceptedFromLeastFill(i, amount);
    if i.solverFeeBps > 0 {
      FloorBelow(I128_MAX, i.solverFeeBps, amount);
    }
    if i.minBuyAmount <= amount { QuoteExactly(i, amount); }
  }

  /** The trader's share at the least fill: just above too little, unless the minimum already
      brings more.  No acceptable fill brings less. */
  lemma LeastProceeds(i: TraderIntent)
    requires SoundTerms(i) && Fillable(i)
    ensures var atMinimum, least := Proceeds(i.minBuyAmount, i.solverFeeBps), Proceeds(LeastFill(i), i.solverFeeBps);
            least == if atMinimum > TooLittle(i) then atMinimum else TooLittle(i) + 1
    ensures forall amount :: i.minBuyAmount <= amount && WithinTolerance(i, amount) ==>
              Proceeds(LeastFill(i), i.solverFeeBps) <= Proceeds(amount, i.solverFeeBps)
  {
    var least, f := LeastFill(i), i.solverFeeBps;
    AcceptedFromLeastFill(i, least);
    AcceptedFromLeastFill(i, i.minBuyAmount);
    ToleranceExceedsTooLittle(i, least);
    ToleranceExceedsTooLittle(i, i.minBuyAmount);
    if i.minBuyAmount < least {
      AcceptedFromLeastFill(i, least - 1);
      ToleranceExceedsTooLittle(i, least - 1);
      ProceedsMonotone(least - 1, least, f);
    }
    forall amount | i.minBuyAmount <= amount && WithinTolerance(i, amount)
      ensures Proceeds(least, f) <= Proceeds(amount, f)
    {
      AcceptedFromLeastFill(i, amount);
      ProceedsMonotone(least, amount, f);
    }
  }

  // ----- the tolerance as a trader reads it -----

  /** The trader's net proceeds are at least `minBuyAmount` less `maxSlippageBps` of it. */
  predicate StrictTolerance(i: TraderIntent, amount: int) {
    10_000 * Proceeds(amount, i.solverFeeBps) >= (10_000 - i.maxSlippageBps) * i.minBuyAmount
  }

  /** The floored shortfall lets a fill through that breaks the strict reading: with no
      tolerance at all, a minimum of 1,000,000 and a fee of one basis point, a fill that
      leaves the trader 50 units short passes every guard. */
  lemma StrictToleranceFails(i: TraderIntent, now: int)
    requires 0 < i.sellAmount && i.minBuyAmount == 1_000_000 && now <= i.deadline
    requires i.maxSlippageBps == 0 && i.solverFeeBps == 1
    ensures CheckTerms(i, now, 1_000_050).Ok?
    ensures Quote(i, 1_000_050) == Ok(Split(100, 999_950)) && !StrictTolerance(i, 1_000_050)
  {
  }

  /** The order has no acceptable fill, or its fee on the minimum is within the tolerance, or
      its minimum is too small for the floor to hide a unit. */
  predicate NeverShort(i: TraderIntent) {
    || !Fillable(i)
    || 10_000 * (i.minBuyAmount * i.solverFeeBps / 10_000) <= i.maxSlippageBps * i.minBuyAmount
    || i.minBuyAmount + (9_999 - i.maxSlippageBps) * i.minBuyAmount % 10_000 <= 10_000
  }

  /** These are exactly the orders none of whose acceptable fills breaks the strict reading. */
  lemma StrictToleranceExactly(i: TraderIntent)
    requires SoundTerms(i)
    ensures (forall amount :: i.minBuyAmount <= amount && WithinTolerance(i, amount) ==> StrictTolerance(i, amount))
       <==> NeverShort(i)
    ensures i.solverFeeBps <= i.maxSlippageBps ==> NeverShort(i)
  {
    var least, m, f, s := LeastFill(i), i.minBuyAmount, i.solverFeeBps, i.maxSlippageBps;
    if Fillable(i) {
      LeastProceeds(i);
      AcceptedFromLeastFill(i, least);
      LeastIsStrictExactly(i);
    } else {
      forall amount ensures !(m <= amount && WithinTolerance(i, amount)) { AcceptedFromLeastFill(i, amount); }
    }
    if f <= s { MulMono(f, s, m); }
  }

  lemma LeastIsStrictExactly(i: TraderIntent)
    requires SoundTerms(i) && Fillable(i)
    ensures StrictTolerance(i, LeastFill(i)) <==> NeverShort(i)
  {
    var m, s := i.minBuyAmount, i.maxSlippageBps;
    LeastProceeds(i);
    assert 10_000 * TooLittle(i) == (9_999 - s) * m - (9_999 - s) * m % 10_000;
    assert (10_000 - s) * m == (9_999 - s) * m + m == 10_000 * m - s * m;
  }

  /** The strict reading is missed by less than a ten-thousandth of the minimum. */
  lemma ShortByLessThanABasisPoint(i: TraderIntent, amount: int)
    ensures WithinTolerance(i, amount) <==>
            (10_000 - i.maxSlippageBps) * i.minBuyAmount - 10_000 * Proceeds(amount, i.solverFeeBps) < i.minBuyAmount
  {
    assert (10_000 - i.maxSlippageBps) * i.minBuyAmount == (9_999 - i.maxSlippageBps) * i.minBuyAmount + i.minBuyAmount;
  }
}
