/** The solver bot's fill check and profit decision, over unbounded integers. */
module Evaluator {
  import opened Protocol
  import opened FillMath

  /** A JavaScript computation that may throw `RangeError`. */
  datatype Throws<+T> = Value(value: T) | RangeError {
    predicate IsFailure() { RangeError? }
    function PropagateFailure<U>(): Throws<U> requires RangeError? { RangeError }
    function Extract(): T requires Value? { value }
  }

  datatype Reason =
    | AmountsNotPositive
    | BpsOutOfRange
    | NegativeFill
    | DeadlinePassed
    | BelowMinimum
    | ToleranceExceeded
    | Accepted
    | MissingPrice
    | Profitable
    | ProfitTooLow

  datatype FillCheck = FillCheck(ok: bool, reason: Reason, solverFee: int, traderProceeds: int, shortfallBps: int)

  datatype EvaluationResult = EvaluationResult(
    profitable: bool,
    reason: Reason,
    fillAmount: int,
    solverFee: int,
    traderProceeds: int,
    marketValueOfSell: int,
    txCost: int,
    netProfit: int)

  function BpsOf(amount: int, bps: int): Throws<int> {
    if bps < 0 then RangeError else Value(TruncDiv(amount * bps, BPS_DENOMINATOR))
  }

  function Rejected(reason: Reason): FillCheck { FillCheck(false, reason, 0, 0, 0) }

  function CheckFill(i: TraderIntent, fillAmount: int, now: int): Throws<FillCheck> {
    if i.sellAmount <= 0 || i.minBuyAmount <= 0 then Value(Rejected(AmountsNotPositive))
    else if i.maxSlippageBps > 10_000 || i.solverFeeBps > 10_000 then Value(Rejected(BpsOutOfRange))
    else if fillAmount < 0 then Value(Rejected(NegativeFill))
    else if now > i.deadline then Value(Rejected(DeadlinePassed))
    else if fillAmount < i.minBuyAmount then Value(Rejected(BelowMinimum))
    else
      var fee :- BpsOf(fillAmount, i.solverFeeBps);
      var proceeds := fillAmount - fee;
      if proceeds < i.minBuyAmount then
        var shortfallBps := TruncDiv((i.minBuyAmount - proceeds) * BPS_DENOMINATOR, i.minBuyAmount);
        if shortfallBps > i.maxSlippageBps then
          Value(FillCheck(false, ToleranceExceeded, fee, proceeds, shortfallBps))
        else Value(FillCheck(true, Accepted, fee, proceeds, shortfallBps))
      else Value(FillCheck(true, Accepted, fee, proceeds, 0))
  }

  function Evaluate(i: TraderIntent, fillAmount: int, marketValue: int, txCost: int, minProfit: int, now: int)
    : Throws<EvaluationResult>
  {
    var check :- CheckFill(i, fillAmount, now);
    if !check.ok then
      Value(EvaluationResult(false, check.reason, fillAmount, check.solverFee, check.traderProceeds, marketValue,
                             txCost, 0))
    else
      var netProfit := marketValue + check.solverFee - fillAmount - txCost;
      var profitable := netProfit >= minProfit;
      Value(EvaluationResult(profitable, if profitable then Profitable else ProfitTooLow,
        fillAmount, check.solverFee, check.traderProceeds, marketValue, txCost, netProfit))
  }

  /** Prices already scaled to integers; a buy price that scales to zero throws. */
  function MarketValue(sellAmount: int, sellScaled: int, buyScaled: int): Throws<int> {
    if buyScaled == 0 then RangeError else Value(TruncDiv(sellAmount * sellScaled, buyScaled))
  }

  function EvaluateFromPrices(i: TraderIntent, fillAmount: int, prices: map<Address, nat>, txCost: int, minProfit: int,
                              now: int)
    : Throws<EvaluationResult>
  {
    if i.sellToken !in prices || i.buyToken !in prices then
      Value(EvaluationResult(false, MissingPrice, fillAmount, 0, 0, 0, txCost, 0))
    else
      var marketValue :- MarketValue(i.sellAmount, prices[i.sellToken], prices[i.buyToken]);
      Evaluate(i, fillAmount, marketValue, txCost, minProfit, now)
  }

  // ----- the bot mirrors the router -----

  /** The router's first four guards and its arithmetic, as one verdict. */
  function RouterVerdict(i: TraderIntent, amount: int, now: int): Result<Split> {
    var _ :- CheckTerms(i, now, amount);
    Quote(i, amount)
  }

  /** The bot accepts, with the router's own split, exactly the fills the router accepts,
      except that the router also turns away those whose fee product overflows. */
  lemma BotMirrorsRouter(i: TraderIntent, amount: int, now: int)
    requires i.Representable() && FitsI128(amount)
    ensures CheckFill(i, amount, now).Value?
    ensures var check := CheckFill(i, amount, now).value;
            check.ok && FitsI128(amount * i.solverFeeBps)
            <==> RouterVerdict(i, amount, now).Ok?
    ensures var check := CheckFill(i, amount, now).value;
            RouterVerdict(i, amount, now).Ok? ==>
              RouterVerdict(i, amount, now).value == Split(check.solverFee, check.traderProceeds)
  {
    if CheckTerms(i, now, amount).Ok? {
      QuoteExactly(i, amount);
      CheckIsTolerance(i, amount, now);
      MulMono(0, amount, i.solverFeeBps);
    }
  }

  /** Each rejection is the same rejection on both sides.  They part on two inputs only: a
      negative fill, which the bot names before it looks at the clock, and an overflow,
      which the bot does not have. */
  lemma RejectionsMirrorRouter(i: TraderIntent, amount: int, now: int)
    requires i.Representable() && FitsI128(amount)
    ensures var reason := CheckFill(i, amount, now).value.reason;
            match RouterVerdict(i, amount, now)
            case Err(InvalidAmount) => reason == AmountsNotPositive
            case Err(InvalidSlippageBps) => reason == BpsOutOfRange
            case Err(IntentExpired) => reason == if amount < 0 then NegativeFill else DeadlinePassed
            case Err(InsufficientOutput) => reason == if amount < 0 then NegativeFill else BelowMinimum
            case Err(SlippageExceeded) => reason == ToleranceExceeded
            case Err(MathOverflow) => reason == if WithinTolerance(i, amount) then Accepted else ToleranceExceeded
            case Ok(_) => reason == Accepted
            case _ => false
  {
    BotMirrorsRouter(i, amount, now);
    if CheckTerms(i, now, amount).Ok? {
      QuoteExactly(i, amount);
      CheckIsTolerance(i, amount, now);
    }
  }

  /** On sound terms the bot's check is the rounding-free tolerance. */
  lemma CheckIsTolerance(i: TraderIntent, amount: int, now: int)
    requires SoundTerms(i) && now <= i.deadline && i.minBuyAmount <= amount
    ensures CheckFill(i, amount, now).Value?
    ensures var check := CheckFill(i, amount, now).value;
            && check.ok == WithinTolerance(i, amount)
            && check.reason == (if check.ok then Accepted else ToleranceExceeded)
            && check.traderProceeds == Proceeds(amount, i.solverFeeBps)
            && check.solverFee == amount - check.traderProceeds
  {
    MulMono(0, amount, i.solverFeeBps);
    ToleranceIsFlooredShortfall(i, Proceeds(amount, i.solverFeeBps));
  }

  /** The bot accepts a live order's fills from `LeastFill` up and no others, and none at all
      when the order is not fillable. */
  lemma BotAcceptsFromLeastFill(i: TraderIntent, amount: int, now: int)
    requires SoundTerms(i) && now <= i.deadline
    ensures CheckFill(i, amount, now).Value?
    ensures CheckFill(i, amount, now).value.ok <==> Fillable(i) && LeastFill(i) <= amount
  {
    AcceptedFromLeastFill(i, amount);
    if i.minBuyAmount <= amount { CheckIsTolerance(i, amount, now); }
  }

  /** The whole answer of the fill check, for any integers: it throws exactly on a negative fee that
      gets past the first guards, and otherwise names the first of these that applies. */
  lemma CheckAnswers(i: TraderIntent, amount: int, now: int)
    ensures CheckFill(i, amount, now) ==
            if i.sellAmount <= 0 || i.minBuyAmount <= 0 then Value(FillCheck(false, AmountsNotPositive, 0, 0, 0))
            else if i.maxSlippageBps > 10_000 || i.solverFeeBps > 10_000 then
              Value(FillCheck(false, BpsOutOfRange, 0, 0, 0))
            else if amount < 0 then Value(FillCheck(false, NegativeFill, 0, 0, 0))
            else if i.deadline < now then Value(FillCheck(false, DeadlinePassed, 0, 0, 0))
            else if amount < i.minBuyAmount then Value(FillCheck(false, BelowMinimum, 0, 0, 0))
            else if i.solverFeeBps < 0 then RangeError
            else
              var p, m := Proceeds(amount, i.solverFeeBps), i.minBuyAmount;
              var ok := m <= p || 10_000 * (m - p) < (i.maxSlippageBps + 1) * m;
              var shortfallBps := if m <= p then 0 else 10_000 * (m - p) / m;
              Value(FillCheck(ok, if ok then Accepted else ToleranceExceeded, amount - p, p, shortfallBps))
  {
    if 0 < i.minBuyAmount <= amount && 0 <= i.solverFeeBps {
      var p, m := Proceeds(amount, i.solverFeeBps), i.minBuyAmount;
      MulMono(0, amount, i.solverFeeBps);
      if p < m { FloorBelow((m - p) * 10_000, m, i.maxSlippageBps + 1); }
    }
  }

  /** The whole answer of an evaluation over its check. */
  lemma EvaluationAnswers(i: TraderIntent, amount: int, marketValue: int, txCost: int, minProfit: int, now: int)
    ensures match CheckFill(i, amount, now)
            case RangeError => Evaluate(i, amount, marketValue, txCost, minProfit, now) == RangeError
            case Value(check) =>
              var r := Evaluate(i, amount, marketValue, txCost, minProfit, now);
              && r.Value? && r.value.fillAmount == amount && r.value.marketValueOfSell == marketValue
              && r.value.txCost == txCost && r.value.solverFee == check.solverFee
              && r.value.traderProceeds == check.traderProceeds
              && (if !check.ok then !r.value.profitable && r.value.reason == check.reason && r.value.netProfit == 0
                  else
                    && r.value.netProfit == marketValue - (amount - check.solverFee) - txCost
                    && (r.value.profitable <==> r.value.netProfit >= minProfit)
                    && r.value.reason == if r.value.profitable then Profitable else ProfitTooLow)
  {
  }

  // ----- the profit decision -----

  /** With either token unpriced nothing is profitable, and the reason says so; with both priced the
      sold amount is valued at the floored quotient of the prices, and a buy price that scales
      to zero throws. */
  lemma PricingAnswers(i: TraderIntent, amount: int, prices: map<Address, nat>, txCost: int, minProfit: int, now: int)
    ensures var r := EvaluateFromPrices(i, amount, prices, txCost, minProfit, now);
            if i.sellToken !in prices || i.buyToken !in prices then
              r.Value? && !r.value.profitable && r.value.reason == MissingPrice && r.value.netProfit == 0
              && r.value.fillAmount == amount && r.value.txCost == txCost
            else if prices[i.buyToken] == 0 then r == RangeError
            else
              i.sellAmount >= 0 ==>
                var marketValue := i.sellAmount * prices[i.sellToken] / prices[i.buyToken];
                r == Evaluate(i, amount, marketValue, txCost, minProfit, now)
  {
    if i.sellToken in prices && i.sellAmount >= 0 { MulMono(0, i.sellAmount, prices[i.sellToken]); }
  }

  /** So a profitable judgement means prices for both tokens, an accepted fill, and a sale that pays
      for the proceeds, the cost and the margin. */
  lemma ProfitableMeansPriced(i: TraderIntent, amount: int, prices: map<Address, nat>, txCost: int, minProfit: int,
                              now: int)
    requires i.Representable()
    ensures var r := EvaluateFromPrices(i, amount, prices, txCost, minProfit, now);
            r.Value? && r.value.profitable <==>
              && i.sellToken in prices && i.buyToken in prices && 0 < prices[i.buyToken]
              && CheckFill(i, amount, now).Value? && CheckFill(i, amount, now).value.ok
              && i.sellAmount * prices[i.sellToken]
                 >= prices[i.buyToken] * (Proceeds(amount, i.solverFeeBps) + txCost + minProfit)
  {
    PricingAnswers(i, amount, prices, txCost, minProfit, now);
    if i.sellToken in prices && i.buyToken in prices && 0 < prices[i.buyToken] {
      ProfitableExactly(i, amount, prices, txCost, minProfit, now);
    }
  }

  /** Flooring the valuation loses nothing: a fill is profitable exactly when it is accepted
      and the sold amount, at the scaled prices, pays for the proceeds, the cost and the margin. */
  lemma ProfitableExactly(i: TraderIntent, amount: int, prices: map<Address, nat>, txCost: int, minProfit: int,
                          now: int)
    requires i.Representable()
    requires i.sellToken in prices && i.buyToken in prices && prices[i.buyToken] > 0
    ensures EvaluateFromPrices(i, amount, prices, txCost, minProfit, now).Value?
    ensures var p, q := prices[i.sellToken], prices[i.buyToken];
            EvaluateFromPrices(i, amount, prices, txCost, minProfit, now).value.profitable <==>
              && CheckFill(i, amount, now).Value? && CheckFill(i, amount, now).value.ok
              && i.sellAmount * p >= q * (Proceeds(amount, i.solverFeeBps) + txCost + minProfit)
  {
    var p, q := prices[i.sellToken], prices[i.buyToken];
    if CheckTerms(i, now, amount).Ok? {
      CheckIsTolerance(i, amount, now);
      MulMono(0, i.sellAmount, p);
      FloorBelow(i.sellAmount * p, q, Proceeds(amount, i.solverFeeBps) + txCost + minProfit);
    }
  }

  /** What the solver nets on a fill of `amount` when the sold tokens are worth `marketValue`. */
  function NetProfit(i: TraderIntent, amount: int, marketValue: int, txCost: int): int {
    marketValue - Proceeds(amount, i.solverFeeBps) - txCost
  }

  /** The evaluation prices the fill: it got past the check. */
  predicate IsPriced(r: EvaluationResult) { r.reason in {Profitable, ProfitTooLow} }

  predicate Profits(i: TraderIntent, amount: int, marketValue: int, txCost: int, minProfit: int, now: int) {
    var r := Evaluate(i, amount, marketValue, txCost, minProfit, now);
    r.Value? && r.value.profitable
  }

  /** A live order's fill is profitable exactly when it is acceptable and nets the margin. */
  lemma ProfitsExactly(i: TraderIntent, amount: int, marketValue: int, txCost: int, minProfit: int, now: int)
    requires SoundTerms(i) && now <= i.deadline
    ensures Profits(i, amount, marketValue, txCost, minProfit, now)
       <==> Fillable(i) && LeastFill(i) <= amount && NetProfit(i, amount, marketValue, txCost) >= minProfit
    ensures var r := Evaluate(i, amount, marketValue, txCost, minProfit, now);
            && r.Value? && (IsPriced(r.value) <==> Fillable(i) && LeastFill(i) <= amount)
            && (IsPriced(r.value) ==> r.value.netProfit == NetProfit(i, amount, marketValue, txCost))
  {
    BotAcceptsFromLeastFill(i, amount, now);
    AcceptedFromLeastFill(i, amount);
    if i.minBuyAmount <= amount { CheckIsTolerance(i, amount, now); }
  }

  /** A larger fill never nets more. */
  lemma NetProfitFalls(i: TraderIntent, a: int, b: int, marketValue: int, txCost: int)
    requires SoundTerms(i) && a <= b
    ensures NetProfit(i, b, marketValue, txCost) <= NetProfit(i, a, marketValue, txCost)
  {
    ProceedsMonotone(a, b, i.solverFeeBps);
  }

  /** Among all acceptable fills of a live order the least one earns the most, so a profitable
      fill exists exactly when the least fill is profitable. */
  lemma LeastFillIsBest(i: TraderIntent, marketValue: int, txCost: int, minProfit: int, now: int)
    requires SoundTerms(i) && now <= i.deadline
    ensures forall amount, r :: Evaluate(i, amount, marketValue, txCost, minProfit, now) == Value(r) && IsPriced(r) ==>
              r.netProfit == NetProfit(i, amount, marketValue, txCost)
                <= NetProfit(i, LeastFill(i), marketValue, txCost)
    ensures (exists amount :: Profits(i, amount, marketValue, txCost, minProfit, now))
       <==> Profits(i, LeastFill(i), marketValue, txCost, minProfit, now)
  {
    forall amount, r | Evaluate(i, amount, marketValue, txCost, minProfit, now) == Value(r) && IsPriced(r)
      ensures r.netProfit == NetProfit(i, amount, marketValue, txCost)
                <= NetProfit(i, LeastFill(i), marketValue, txCost)
    {
      ProfitsExactly(i, amount, marketValue, txCost, minProfit, now);
      NetProfitFalls(i, LeastFill(i), amount, marketValue, txCost);
    }
    if amount :| Profits(i, amount, marketValue, txCost, minProfit, now) {
      ProfitsExactly(i, amount, marketValue, txCost, minProfit, now);
      ProfitsExactly(i, LeastFill(i), marketValue, txCost, minProfit, now);
      NetProfitFalls(i, LeastFill(i), amount, marketValue, txCost);
    }
  }

  /** The bot always offers the minimum.  Where the minimum is acceptable no fill earns more. */
  lemma MinimumIsBestWhenAccepted(i: TraderIntent, amount: int, marketValue: int, txCost: int, minProfit: int, now: int)
    requires CheckFill(i, i.minBuyAmount, now).Value? && CheckFill(i, i.minBuyAmount, now).value.ok
    requires i.Representable()
    requires CheckFill(i, amount, now).Value? && CheckFill(i, amount, now).value.ok
    ensures var atMinimum := Evaluate(i, i.minBuyAmount, marketValue, txCost, minProfit, now);
            var other := Evaluate(i, amount, marketValue, txCost, minProfit, now);
            atMinimum.Value? && other.Value? && other.value.netProfit <= atMinimum.value.netProfit
  {
    CheckIsTolerance(i, i.minBuyAmount, now);
    CheckIsTolerance(i, amount, now);
    NetProfitFalls(i, i.minBuyAmount, amount, marketValue, txCost);
  }

  /** Offering the minimum finds a profit whenever one exists, unless the minimum is below the
      least acceptable fill while that fill would pay. */
  lemma OfferingTheMinimum(i: TraderIntent, marketValue: int, txCost: int, minProfit: int, now: int)
    requires SoundTerms(i) && now <= i.deadline
    ensures (exists amount :: Profits(i, amount, marketValue, txCost, minProfit, now))
            && !Profits(i, i.minBuyAmount, marketValue, txCost, minProfit, now)
       <==> Fillable(i) && i.minBuyAmount < LeastFill(i)
            && NetProfit(i, LeastFill(i), marketValue, txCost) >= minProfit
  {
    LeastFillIsBest(i, marketValue, txCost, minProfit, now);
    ProfitsExactly(i, LeastFill(i), marketValue, txCost, minProfit, now);
    ProfitsExactly(i, i.minBuyAmount, marketValue, txCost, minProfit, now);
  }

  /** A fee above the tolerance makes the bot miss a profit: at 20% fee and no tolerance the
      minimum of 100 is refused, while a fill of 125 is accepted and pays. */
  lemma ProfitMissed(i: TraderIntent)
    requires i.sellAmount == 1 && i.minBuyAmount == 100 && i.maxSlippageBps == 0
    requires i.solverFeeBps == 2_000 && i.deadline == 10
    ensures !Profits(i, 100, 1_000, 0, 0, 5) && Profits(i, 125, 1_000, 0, 0, 5)
  {
  }
}
