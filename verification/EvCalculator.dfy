/** Expected value, probability of profit and Kelly sizing, over the reals. */
module EvCalculator {
  import opened Common
  import opened OptionTypes
  import RiskPrimitives

  datatype Strategy =
    | LongCall | LongPut | ShortCall | ShortPut
    | CreditSpread | DebitSpread | IronCondor | OtherStrategy

  datatype EvResult = EvResult(
    expectedValue: real, winProbability: real, lossProbability: real,
    maxGain: real, maxLoss: real, riskReward: Option<real>, tradeCost: real,
    breakeven: Option<real>, capped: bool)

  const UNBOUNDED_GAIN_CAP_MULT := 10.0

  // ---- probability of profit -----------------------------------------------

  function ClampPop(p: real): real {
    Max(0.0, Min(1.0, p))
  }

  /** A leg as the calculator sees it; the first buy and the first sell matter. */
  datatype PopLeg = PopLeg(buy: bool, delta: Option<real>)

  function FirstLeg(legs: seq<PopLeg>, buy: bool): Option<PopLeg> {
    if legs == [] then None
    else if legs[0].buy == buy then Some(legs[0])
    else FirstLeg(legs[1..], buy)
  }

  /** The magnitude of a leg's delta, where it has a nonzero one. */
  function LegDelta(leg: Option<PopLeg>): Option<real> {
    if leg.Some? && leg.value.delta.Some? && leg.value.delta.value != 0.0 then Some(Abs(leg.value.delta.value))
    else None
  }

  function CreditPop(legs: seq<PopLeg>, credit: Option<real>, width: Option<real>, delta: Option<real>): Option<real> {
    if credit.Some? && width.Some? && credit.value > 0.0 && width.value > credit.value then
      var maxGain := credit.value * 100.0;
      var maxLoss := (width.value - credit.value) * 100.0;
      Some(ClampPop(maxLoss / (maxGain + maxLoss)))
    else if delta.Some? then Some(ClampPop(1.0 - Abs(delta.value)))
    else
      var d := LegDelta(FirstLeg(legs, false));
      if d.Some? then Some(ClampPop(1.0 - d.value)) else None
  }

  /** From the long delta towards the short one. */
  function Blend(long: real, short: real, share: real): real {
    long - (long - short) * share
  }

  function DebitPop(legs: seq<PopLeg>, credit: Option<real>, width: Option<real>): Option<real> {
    var long := LegDelta(FirstLeg(legs, true));
    if long.None? then None
    else
      var short := OrElse(LegDelta(FirstLeg(legs, false)), 0.0);
      if credit.Some? && width.Some? && width.value > 0.0 then
        Some(ClampPop(Blend(long.value, short, Abs(credit.value) / width.value)))
      else if short > 0.0 then Some(ClampPop((long.value + short) / 2.0))
      else Some(ClampPop(long.value))
  }

  function SinglePop(legs: seq<PopLeg>, delta: Option<real>, short: bool): Option<real> {
    var d := if delta.Some? then delta else if legs != [] then legs[0].delta else None;
    if d.None? then None else Some(ClampPop(if short then 1.0 - Abs(d.value) else Abs(d.value)))
  }

  function CalculatePop(
    strategy: Strategy, legs: seq<PopLeg>, credit: Option<real>, width: Option<real>, delta: Option<real>): real
  {
    var branch :=
      match strategy
      case CreditSpread => CreditPop(legs, credit, width, delta)
      case DebitSpread => DebitPop(legs, credit, width)
      case ShortCall => SinglePop(legs, delta, true)
      case ShortPut => SinglePop(legs, delta, true)
      case LongCall => SinglePop(legs, delta, false)
      case LongPut => SinglePop(legs, delta, false)
      case _ => None;
    if branch.Some? then branch.value
    else if delta.Some? then ClampPop(Abs(delta.value))
    else ClampPop(0.5)
  }

  /** Whatever the inputs, the result is a probability. */
  lemma PopIsProbability(
    strategy: Strategy, legs: seq<PopLeg>, credit: Option<real>, width: Option<real>, delta: Option<real>)
    ensures 0.0 <= CalculatePop(strategy, legs, credit, width, delta) <= 1.0
  {
  }

  /** Buying and selling the same option are complementary bets. */
  lemma ShortIsComplement(legs: seq<PopLeg>, credit: Option<real>, width: Option<real>, delta: Option<real>)
    ensures CalculatePop(ShortCall, legs, credit, width, delta)
            + CalculatePop(LongCall, legs, credit, width, delta) == 1.0
    ensures CalculatePop(ShortPut, legs, credit, width, delta)
            + CalculatePop(LongPut, legs, credit, width, delta) == 1.0
  {
    var d := if delta.Some? then delta else if legs != [] then legs[0].delta else None;
    if d.Some? {
      assert ClampPop(1.0 - Abs(d.value)) + ClampPop(Abs(d.value)) == 1.0;
    }
  }

  lemma BlendRange(long: real, short: real, share: real)
    requires short <= long && 0.0 <= share <= 1.0
    ensures short <= Blend(long, short, share) <= long
    ensures share == 0.0 ==> Blend(long, short, share) == long
    ensures share == 1.0 ==> Blend(long, short, share) == short
  {
    var span := long - short;
    var gap := span * share;
    assert gap >= 0.0 by { MulNonNegative(span, share); }
    assert span - gap >= 0.0 by { MulNonNegative(span, 1.0 - share); assert span * (1.0 - share) == span - gap; }
  }

  lemma ShareRange(cost: real, width: real)
    requires 0.0 <= cost <= width && width > 0.0
    ensures 0.0 <= cost / width <= 1.0
    ensures (cost == 0.0 ==> cost / width == 0.0) && (cost == width ==> cost / width == 1.0)
  {
    var q := cost / width;
    assert q * width == cost;
    SignOfProduct(-q, width);
    SignOfProduct(q - 1.0, width);
    assert -q * width == -cost && (q - 1.0) * width == cost - width;
  }

  /** A debit spread's probability runs from the long delta, when it costs
      nothing, down to the short delta, when it costs its whole width. */
  lemma DebitPopInterpolates(legs: seq<PopLeg>, cost: real, width: real, long: real, short: real, delta: Option<real>)
    requires LegDelta(FirstLeg(legs, true)) == Some(long) && LegDelta(FirstLeg(legs, false)) == Some(short)
    requires short <= long <= 1.0 && Abs(cost) <= width && width > 0.0
    ensures var p := CalculatePop(DebitSpread, legs, Some(cost), Some(width), delta);
            && short <= p <= long
            && (cost == 0.0 ==> p == long)
            && (Abs(cost) == width ==> p == short)
  {
    var share := Abs(cost) / width;
    ShareRange(Abs(cost), width);
    BlendRange(long, short, share);
    assert DebitPop(legs, Some(cost), Some(width)) == Some(ClampPop(Blend(long, short, share)));
  }

  lemma WidthPop(credit: real, width: real)
    requires 0.0 < credit < width
    ensures var gain, loss := credit * 100.0, (width - credit) * 100.0;
            loss / (gain + loss) == (width - credit) / width && 0.0 < (width - credit) / width < 1.0
  {
    var q := (width - credit) / width;
    assert q * width == width - credit;
    SignOfProduct(q, width);
    SignOfProduct(1.0 - q, width);
    assert (1.0 - q) * width == credit;
    var total := credit * 100.0 + (width - credit) * 100.0;
    assert total == width * 100.0;
    assert q * total == (width - credit) * 100.0;
  }

  // ---- expected value ------------------------------------------------------

  datatype EvOutcome = Computed(ev: EvResult) | WidthRequired | NotSupported

  datatype Figures = Figures(gain: real, loss: real, cost: real, breakeven: Option<real>, capped: bool)

  function PerContract(strategy: Strategy, premium: real, strike: real, width: real): Figures {
    var p := premium * 100.0;
    match strategy
    case LongCall => Figures(p * UNBOUNDED_GAIN_CAP_MULT, p, p, Some(strike + premium), true)
    case LongPut => Figures((strike - premium) * 100.0, p, p, Some(strike - premium), false)
    case ShortCall => Figures(p, p * UNBOUNDED_GAIN_CAP_MULT, -p, Some(strike + premium), true)
    case ShortPut => Figures(p, (strike - premium) * 100.0, -p, Some(strike - premium), false)
    case CreditSpread => Figures(p, (width - premium) * 100.0, -p, None, false)
    case _ => Figures((width - premium) * 100.0, p, p, None, false)
  }

  /** The figures of `n` contracts at a win probability. */
  function Evaluate(win: real, f: Figures, n: real): EvResult {
    var (gain, loss) := (f.gain * n, f.loss * n);
    EvResult(
      win * gain - (1.0 - win) * loss, win, 1.0 - win, gain, loss,
      if loss > 0.0 && gain > 0.0 then Some(loss / gain) else None,
      f.cost * n, f.breakeven, f.capped)
  }

  function CalculateEv(
    premium: real, strike: real, delta: real, strategy: Strategy, width: Option<real>,
    contracts: int, legs: seq<PopLeg>): EvOutcome
  {
    if strategy.IronCondor? || strategy.OtherStrategy? then NotSupported
    else if (strategy.CreditSpread? || strategy.DebitSpread?) && width.None? then WidthRequired
    else
      var credit := if strategy.LongCall? || strategy.LongPut? then None else Some(premium);
      var win := CalculatePop(strategy, legs, credit, width, Some(delta));
      Computed(Evaluate(win, PerContract(strategy, premium, strike, OrElse(width, 0.0)), contracts as real))
  }

  /** The width-implied probability makes a credit spread a fair bet: for every
      credit inside the width and any number of contracts its EV is zero. */
  lemma CreditSpreadIsFair(premium: real, strike: real, delta: real, width: real, contracts: int, legs: seq<PopLeg>)
    requires 0.0 < premium < width
    ensures CalculateEv(premium, strike, delta, CreditSpread, Some(width), contracts, legs).Computed?
    ensures CalculateEv(premium, strike, delta, CreditSpread, Some(width), contracts, legs).ev.expectedValue == 0.0
  {
    var n := contracts as real;
    var win := CalculatePop(CreditSpread, legs, Some(premium), Some(width), Some(delta));
    WidthPop(premium, width);
    var q := (width - premium) / width;
    assert win == q && q * width == width - premium;
    FairBet(premium, width, q, n);
  }

  lemma FairBet(c: real, w: real, q: real, n: real)
    requires q * w == w - c
    ensures q * ((c * 100.0) * n) - (1.0 - q) * (((w - c) * 100.0) * n) == 0.0
  {
    var k := 100.0 * n;
    assert (1.0 - q) * w == c;
    assert q * ((c * 100.0) * n) == (q * c) * k;
    assert (1.0 - q) * (((w - c) * 100.0) * n) == ((1.0 - q) * (w - c)) * k;
    assert q * c == q * ((1.0 - q) * w) == (1.0 - q) * (q * w);
    assert (1.0 - q) * (q * w) == (1.0 - q) * (w - c);
  }

  // ---- what the expected value is ------------------------------------------

  /** The result is that of the strategy's figures at some win probability. */
  lemma EvParts(
    premium: real, strike: real, delta: real, strategy: Strategy, width: Option<real>, contracts: int,
    legs: seq<PopLeg>) returns (win: real)
    requires CalculateEv(premium, strike, delta, strategy, width, contracts, legs).Computed?
    ensures 0.0 <= win <= 1.0
    ensures forall n: int ::
              CalculateEv(premium, strike, delta, strategy, width, n, legs)
              == Computed(Evaluate(win, PerContract(strategy, premium, strike, OrElse(width, 0.0)), n as real))
  {
    var credit := if strategy.LongCall? || strategy.LongPut? then None else Some(premium);
    win := CalculatePop(strategy, legs, credit, width, Some(delta));
    PopIsProbability(strategy, legs, credit, width, Some(delta));
  }

  /** Between losing everything and winning everything, in the proportion of the
      win probability. */
  ghost predicate Weighs(ev: EvResult) {
    && ev.winProbability + ev.lossProbability == 1.0
    && ev.expectedValue + ev.maxLoss == ev.winProbability * (ev.maxGain + ev.maxLoss)
    && (ev.maxGain + ev.maxLoss >= 0.0 ==> -ev.maxLoss <= ev.expectedValue <= ev.maxGain)
    && (ev.winProbability == 1.0 ==> ev.expectedValue == ev.maxGain)
    && (ev.winProbability == 0.0 ==> ev.expectedValue == -ev.maxLoss)
  }

  lemma EvaluateWeighs(win: real, f: Figures, n: real)
    requires 0.0 <= win <= 1.0
    ensures Weighs(Evaluate(win, f, n))
  {
    var (g, l) := (f.gain * n, f.loss * n);
    var span := g + l;
    assert win * g - (1.0 - win) * l + l == win * span;
    if span >= 0.0 {
      MulNonNegative(win, span);
      MulMonotone(win, 1.0, span);
    }
  }

  /** The expected value lies between the whole loss and the whole gain, at the
      one for a win probability of 0, at the other for 1, and linear between. */
  lemma EvIsWeighted(
    premium: real, strike: real, delta: real, strategy: Strategy, width: Option<real>, contracts: int,
    legs: seq<PopLeg>)
    requires CalculateEv(premium, strike, delta, strategy, width, contracts, legs).Computed?
    ensures 0.0 <= CalculateEv(premium, strike, delta, strategy, width, contracts, legs).ev.winProbability <= 1.0
    ensures Weighs(CalculateEv(premium, strike, delta, strategy, width, contracts, legs).ev)
  {
    var win := EvParts(premium, strike, delta, strategy, width, contracts, legs);
    EvaluateWeighs(win, PerContract(strategy, premium, strike, OrElse(width, 0.0)), contracts as real);
  }

  /** The money figures of one result are `n` times those of the other, at the
      same odds. */
  ghost predicate TimesContracts(many: EvResult, one: EvResult, n: real) {
    && many.maxGain == n * one.maxGain && many.maxLoss == n * one.maxLoss
    && many.tradeCost == n * one.tradeCost && many.expectedValue == n * one.expectedValue
    && many.winProbability == one.winProbability && many.breakeven == one.breakeven
    && many.capped == one.capped
  }

  lemma EvScales(w: real, g: real, l: real, n: real)
    ensures w * (g * n) - (1.0 - w) * (l * n) == n * (w * g - (1.0 - w) * l)
  {
    assert w * (g * n) == (w * g) * n;
    assert (1.0 - w) * (l * n) == ((1.0 - w) * l) * n;
  }

  lemma EvaluateScales(win: real, f: Figures, n: real)
    ensures TimesContracts(Evaluate(win, f, n), Evaluate(win, f, 1.0), n)
  {
    EvScales(win, f.gain, f.loss, n);
  }

  lemma FiguresScale(
    premium: real, strike: real, delta: real, strategy: Strategy, width: Option<real>, contracts: int,
    legs: seq<PopLeg>)
    requires CalculateEv(premium, strike, delta, strategy, width, 1, legs).Computed?
    ensures CalculateEv(premium, strike, delta, strategy, width, contracts, legs).Computed?
    ensures TimesContracts(CalculateEv(premium, strike, delta, strategy, width, contracts, legs).ev,
                           CalculateEv(premium, strike, delta, strategy, width, 1, legs).ev, contracts as real)
  {
    var win := EvParts(premium, strike, delta, strategy, width, 1, legs);
    EvaluateScales(win, PerContract(strategy, premium, strike, OrElse(width, 0.0)), contracts as real);
  }

  /** Which strategies are computed at all. */
  lemma ComputedIff(
    premium: real, strike: real, delta: real, strategy: Strategy, width: Option<real>, contracts: int,
    legs: seq<PopLeg>)
    ensures CalculateEv(premium, strike, delta, strategy, width, contracts, legs).Computed? <==>
            strategy in {LongCall, LongPut, ShortCall, ShortPut}
            || (strategy in {CreditSpread, DebitSpread} && width.Some?)
    ensures CalculateEv(premium, strike, delta, strategy, width, contracts, legs).WidthRequired? <==>
            strategy in {CreditSpread, DebitSpread} && width.None?
  {
  }

  /** What a share is expected to earn, given the win probability `w`. */
  ghost function Edge(strategy: Strategy, premium: real, strike: real, width: real, w: real): real {
    match strategy
    case LongCall => premium * (11.0 * w - 1.0)
    case ShortCall => premium * (11.0 * w - 10.0)
    case LongPut => w * strike - premium
    case ShortPut => premium - (1.0 - w) * strike
    case CreditSpread => premium - (1.0 - w) * width
    case _ => w * width - premium
  }

  lemma EdgePerContract(strategy: Strategy, premium: real, strike: real, width: real, w: real)
    ensures var f := PerContract(strategy, premium, strike, width);
            w * f.gain - (1.0 - w) * f.loss == Edge(strategy, premium, strike, width, w) * 100.0
  {
    var v := 1.0 - w;
    var (p, k, d) := (premium * 100.0, strike * 100.0, width * 100.0);
    match strategy {
      case LongCall => assert w * (p * 10.0) - v * p == premium * (11.0 * w - 1.0) * 100.0;
      case ShortCall => assert w * p - v * (p * 10.0) == premium * (11.0 * w - 10.0) * 100.0;
      case LongPut => assert w * (k - p) - v * p == w * k - p;
      case ShortPut => assert w * p - v * (k - p) == p - v * k;
      case CreditSpread => assert w * p - v * (d - p) == p - v * d;
      case _ => assert w * (d - p) - v * p == w * d - p;
    }
  }

  ghost predicate Earns(ev: EvResult, strategy: Strategy, premium: real, strike: real, width: real, n: real) {
    ev.expectedValue == n * (Edge(strategy, premium, strike, width, ev.winProbability) * 100.0)
  }

  lemma EvaluateEdge(win: real, strategy: Strategy, premium: real, strike: real, width: real, n: real)
    ensures Earns(Evaluate(win, PerContract(strategy, premium, strike, width), n), strategy, premium, strike, width, n)
  {
    var f := PerContract(strategy, premium, strike, width);
    EvScales(win, f.gain, f.loss, n);
    EdgePerContract(strategy, premium, strike, width, win);
  }

  /** The expected value in closed form: a capped call pays ten premiums or loses
      one; a put or a spread pays its strike or width with the probability of the
      side that gets it, less the premium or plus it. */
  lemma EvIsEdge(
    premium: real, strike: real, delta: real, strategy: Strategy, width: Option<real>, contracts: int,
    legs: seq<PopLeg>)
    requires CalculateEv(premium, strike, delta, strategy, width, contracts, legs).Computed?
    ensures Earns(CalculateEv(premium, strike, delta, strategy, width, contracts, legs).ev,
                  strategy, premium, strike, OrElse(width, 0.0), contracts as real)
  {
    var win := EvParts(premium, strike, delta, strategy, width, contracts, legs);
    EvaluateEdge(win, strategy, premium, strike, OrElse(width, 0.0), contracts as real);
  }

  lemma SignOfEdge(n: real, edge: real)
    requires n > 0.0
    ensures (n * (edge * 100.0) > 0.0 <==> edge > 0.0) && (n * (edge * 100.0) == 0.0 <==> edge == 0.0)
  {
    SignOfProduct(edge * 100.0, n);
  }

  lemma SignOfTwo(x: real, y: real)
    ensures x * y > 0.0 <==> (x > 0.0 && y > 0.0) || (x < 0.0 && y < 0.0)
  {
    if y > 0.0 {
      SignOfProduct(x, y);
    } else if y < 0.0 {
      SignOfProduct(-x, -y);
      assert -x * -y == x * y;
    }
  }

  /** So a long call earns exactly on a positive premium with a delta above one
      eleventh in size (on a negative premium, below). */
  lemma LongCallSign(premium: real, strike: real, delta: real, contracts: int, legs: seq<PopLeg>)
    requires contracts > 0
    ensures CalculateEv(premium, strike, delta, LongCall, None, contracts, legs).ev.expectedValue > 0.0 <==>
            (premium > 0.0 && Abs(delta) > 1.0 / 11.0) || (premium < 0.0 && Abs(delta) < 1.0 / 11.0)
  {
    var w := CalculateEv(premium, strike, delta, LongCall, None, contracts, legs).ev.winProbability;
    EvIsEdge(premium, strike, delta, LongCall, None, contracts, legs);
    SignOfEdge(contracts as real, premium * (11.0 * w - 1.0));
    SignOfTwo(premium, 11.0 * w - 1.0);
  }

  /** A spread bought earns exactly when its width, weighed with the win
      probability, is above the premium. */
  ghost predicate EarnsAbove(ev: EvResult, premium: real, width: real) {
    && (ev.expectedValue > 0.0 <==> ev.winProbability * width > premium)
    && (ev.expectedValue == 0.0 <==> ev.winProbability * width == premium)
  }

  lemma DebitEarns(ev: EvResult, premium: real, strike: real, width: real, n: real)
    requires n > 0.0 && Earns(ev, DebitSpread, premium, strike, width, n)
    ensures EarnsAbove(ev, premium, width)
  {
    SignOfEdge(n, ev.winProbability * width - premium);
  }

  lemma DebitSpreadSign(premium: real, strike: real, delta: real, width: real, contracts: int, legs: seq<PopLeg>)
    requires contracts > 0
    ensures EarnsAbove(
              CalculateEv(premium, strike, delta, DebitSpread, Some(width), contracts, legs).ev, premium, width)
  {
    var win := EvParts(premium, strike, delta, DebitSpread, Some(width), contracts, legs);
    var ev := Evaluate(win, PerContract(DebitSpread, premium, strike, width), contracts as real);
    EvaluateEdge(win, DebitSpread, premium, strike, width, contracts as real);
    DebitEarns(ev, premium, strike, width, contracts as real);
  }

  /** The odds are loss over gain where both are positive, and there only. */
  lemma RiskRewardIsRatio(
    premium: real, strike: real, delta: real, strategy: Strategy, width: Option<real>, contracts: int,
    legs: seq<PopLeg>)
    requires CalculateEv(premium, strike, delta, strategy, width, contracts, legs).Computed?
    ensures var ev := CalculateEv(premium, strike, delta, strategy, width, contracts, legs).ev;
            && (ev.riskReward.Some? <==> ev.maxGain > 0.0 && ev.maxLoss > 0.0)
            && (ev.riskReward.Some? ==> ev.riskReward.value * ev.maxGain == ev.maxLoss)
  {
  }

  /** At its breakeven a single leg bought or sold for its premium earns nothing
      at expiry. */
  lemma BreakevenEarnsNothing(leg: Leg, delta: real, contracts: int, legs: seq<PopLeg>)
    requires (leg.right.Call? || leg.right.Put?) && leg.premium >= 0.0
    ensures var strategy := match (leg.right, leg.side)
                            case (Call, Buy) => LongCall case (Call, Sell) => ShortCall
                            case (_, Buy) => LongPut case (_, Sell) => ShortPut;
            var ev := CalculateEv(leg.premium, leg.strike, delta, strategy, None, contracts, legs).ev;
            && ev.breakeven.Some?
            && RiskPrimitives.Intrinsic(leg.right, leg.strike, ev.breakeven.value) == leg.premium
  {
  }

  /** What is bought costs its premium and what is sold brings it; a figure is
      capped for a single call, and a breakeven given for a single leg. */
  lemma CostAndCap(
    premium: real, strike: real, delta: real, strategy: Strategy, width: Option<real>, contracts: int,
    legs: seq<PopLeg>)
    requires CalculateEv(premium, strike, delta, strategy, width, contracts, legs).Computed?
    ensures var ev := CalculateEv(premium, strike, delta, strategy, width, contracts, legs).ev;
            var cost := premium * 100.0 * contracts as real;
            && ev.tradeCost == (if strategy in {LongCall, LongPut, DebitSpread} then cost else -cost)
            && (ev.capped <==> strategy in {LongCall, ShortCall})
            && (ev.breakeven.Some? <==> strategy in {LongCall, ShortCall, LongPut, ShortPut})
  {
  }

  // ---- what the win probability is -----------------------------------------

  /** With a delta of at most 1, an option bought wins with its delta's size; with
      none to go by, every bet is even. */
  lemma SinglePopIsDelta(legs: seq<PopLeg>, credit: Option<real>, width: Option<real>, delta: Option<real>)
    ensures delta.Some? && Abs(delta.value) <= 1.0 ==>
              && CalculatePop(LongCall, legs, credit, width, delta) == Abs(delta.value)
              && CalculatePop(LongPut, legs, credit, width, delta) == Abs(delta.value)
    ensures delta.None? && legs != [] && legs[0].delta.Some? && Abs(legs[0].delta.value) <= 1.0 ==>
              && CalculatePop(LongCall, legs, credit, width, delta) == Abs(legs[0].delta.value)
              && CalculatePop(LongPut, legs, credit, width, delta) == Abs(legs[0].delta.value)
    ensures delta.None? && (legs == [] || legs[0].delta.None?) ==>
              && CalculatePop(LongCall, legs, credit, width, delta) == 0.5
              && CalculatePop(LongPut, legs, credit, width, delta) == 0.5
  {
  }

  /** A credit spread with no usable width is the sale of an option: of the given
      delta, else of its first sold leg's, else an even bet. */
  lemma CreditPopWithoutWidth(legs: seq<PopLeg>, credit: Option<real>, width: Option<real>, delta: Option<real>)
    requires !(credit.Some? && width.Some? && 0.0 < credit.value < width.value)
    ensures var d := if delta.Some? then delta else LegDelta(FirstLeg(legs, false));
            CalculatePop(CreditSpread, legs, credit, width, delta) == CalculatePop(ShortPut, [], None, None, d)
  {
  }

  /** A debit spread with no usable width is half way between its two deltas, at
      the long one when the short one is missing, and without a long one an
      option of the given delta. */
  lemma DebitPopWithoutWidth(legs: seq<PopLeg>, credit: Option<real>, width: Option<real>, delta: Option<real>)
    requires !(credit.Some? && width.Some? && width.value > 0.0)
    ensures var (long, short) := (LegDelta(FirstLeg(legs, true)), LegDelta(FirstLeg(legs, false)));
            var p := CalculatePop(DebitSpread, legs, credit, width, delta);
            && (long.Some? && short.Some? && long.value <= 1.0 && short.value <= 1.0 ==>
                  p - long.value == short.value - p)
            && (long.Some? && short.None? && long.value <= 1.0 ==> p == long.value)
            && (long.None? ==> p == CalculatePop(LongCall, [], None, None, delta))
  {
  }

  /** Which leg's delta counts: the first on that side, if it is not zero. */
  lemma {:induction false} FirstLegIsFirst(legs: seq<PopLeg>, buy: bool)
    ensures FirstLeg(legs, buy).None? <==> forall i | 0 <= i < |legs| :: legs[i].buy != buy
    ensures FirstLeg(legs, buy).Some? ==>
              exists i :: 0 <= i < |legs| && legs[i].buy == buy && FirstLeg(legs, buy).value == legs[i]
                          && forall j | 0 <= j < i :: legs[j].buy != buy
  {
    if legs != [] && legs[0].buy != buy {
      FirstLegIsFirst(legs[1..], buy);
      if FirstLeg(legs[1..], buy).Some? {
        var i :| 0 <= i < |legs[1..]| && legs[1..][i].buy == buy && FirstLeg(legs[1..], buy).value == legs[1..][i]
                 && forall j | 0 <= j < i :: legs[1..][j].buy != buy;
        assert legs[i + 1] == legs[1..][i];
        assert forall j | 0 < j < i + 1 :: legs[j] == legs[1..][j - 1];
      }
    } else if legs != [] {
      assert legs[0].buy == buy && FirstLeg(legs, buy).value == legs[0];
    }
  }

  /** The delta that counts on a side is the size of its first leg's, which must not
      be zero. */
  lemma DeltaThatCounts(legs: seq<PopLeg>, buy: bool, i: nat)
    requires i < |legs| && legs[i].buy == buy && forall j | 0 <= j < i :: legs[j].buy != buy
    ensures var d := LegDelta(FirstLeg(legs, buy));
            if legs[i].delta.Some? && legs[i].delta.value != 0.0 then
              d.Some? && d.value > 0.0 && (d.value == legs[i].delta.value || d.value == -legs[i].delta.value)
            else d.None?
  {
    FirstLegIsFirst(legs, buy);
  }

  // ---- condors -------------------------------------------------------------

  function CondorRiskReward(loss: real, profit: real): Option<real> {
    if loss > 0.0 && profit > 0.0 then Some(loss / profit) else None
  }

  function Unit(x: real): real {
    Min(1.0, Max(0.0, x))
  }

  /** `calculate_condor_ev`, the strict model. */
  function CondorEv(credit: real, widthPut: real, widthCall: real, dShortPut: real, dShortCall: real): EvResult {
    var pPut, pCall := Unit(Abs(dShortPut)), Unit(Abs(dShortCall));
    var pLoss := Min(1.0, pPut + pCall);
    var profit := credit * 100.0;
    var lossPut, lossCall := Max(0.0, widthPut - credit) * 100.0, Max(0.0, widthCall - credit) * 100.0;
    var worst := Max(lossPut, lossCall);
    EvResult((1.0 - pLoss) * profit - pPut * lossPut - pCall * lossCall, 1.0 - pLoss, pLoss, profit, worst,
             CondorRiskReward(worst, profit), -profit, None, false)
  }

  function Clamp(x: real, lo: real, hi: real): real {
    Max(lo, Min(hi, x))
  }

  /** Breach and full-loss probabilities of one side of the tail model. */
  function Breach(dShort: real, mult: real): real {
    Clamp(Abs(dShort) * mult, 0.0, 1.0)
  }

  function FullLoss(dLong: real, breach: real): real {
    Clamp(Abs(dLong), 0.0, breach)
  }

  function SideLoss(breach: real, full: real, severity: real, loss: real): real {
    full * loss + (breach - full) * severity * loss
  }

  /** `calculate_condor_ev_tail` */
  function CondorEvTail(
    credit: real, widthPut: real, widthCall: real, dShortPut: real, dShortCall: real,
    dLongPut: real, dLongCall: real, severity: real, mult: real): EvResult
  {
    var (bPut, bCall) := (Breach(dShortPut, mult), Breach(dShortCall, mult));
    var pWin := Clamp(1.0 - bPut - bCall, 0.0, 1.0);
    var (lPut, lCall) := (Max(0.0, widthPut - credit), Max(0.0, widthCall - credit));
    var share := pWin * credit
                 - SideLoss(bPut, FullLoss(dLongPut, bPut), severity, lPut)
                 - SideLoss(bCall, FullLoss(dLongCall, bCall), severity, lCall);
    var worst := Max(lPut * 100.0, lCall * 100.0);
    EvResult(share * 100.0, pWin, 1.0 - pWin, credit * 100.0, worst,
             CondorRiskReward(worst, credit * 100.0), -(credit * 100.0), None, false)
  }

  /** The report on a condor sold for a credit. */
  ghost predicate Reports(ev: EvResult, credit: real) {
    && ev.maxGain == credit * 100.0 && ev.tradeCost == -ev.maxGain
    && ev.winProbability + ev.lossProbability == 1.0 && ev.breakeven.None? && !ev.capped
    && (ev.riskReward.Some? <==> ev.maxGain > 0.0 && ev.maxLoss > 0.0)
    && (ev.riskReward.Some? ==> ev.riskReward.value * ev.maxGain == ev.maxLoss)
  }

  /** The odds reported are what the two short deltas leave, or nothing. */
  lemma StrictReports(credit: real, widthPut: real, widthCall: real, dShortPut: real, dShortCall: real)
    ensures var ev := CondorEv(credit, widthPut, widthCall, dShortPut, dShortCall);
            Reports(ev, credit) && ev.winProbability == Max(0.0, 1.0 - Abs(dShortPut) - Abs(dShortCall))
  {
  }

  /** And under the tail model what they leave when scaled by the multiplier, or
      everything when that is negative. */
  lemma TailReports(
    credit: real, widthPut: real, widthCall: real, dShortPut: real, dShortCall: real,
    dLongPut: real, dLongCall: real, severity: real, mult: real)
    ensures var ev := CondorEvTail(credit, widthPut, widthCall, dShortPut, dShortCall, dLongPut, dLongCall,
                                   severity, mult);
            && Reports(ev, credit)
            && ev.maxLoss == CondorEv(credit, widthPut, widthCall, dShortPut, dShortCall).maxLoss
            && ev.winProbability == Max(0.0, 1.0 - Max(0.0, Abs(dShortPut) * mult) - Max(0.0, Abs(dShortCall) * mult))
  {
  }

  /** The multiplier is a scaling of the short deltas; a negative one removes them. */
  lemma MultiplierScales(
    credit: real, widthPut: real, widthCall: real, dShortPut: real, dShortCall: real,
    dLongPut: real, dLongCall: real, severity: real, mult: real)
    ensures var m := Max(0.0, mult);
            CondorEvTail(credit, widthPut, widthCall, dShortPut, dShortCall, dLongPut, dLongCall, severity, mult)
            == CondorEvTail(credit, widthPut, widthCall, m * dShortPut, m * dShortCall, dLongPut, dLongCall,
                            severity, 1.0)
  {
    BreachScales(dShortPut, mult);
    BreachScales(dShortCall, mult);
  }

  lemma BreachScales(d: real, mult: real)
    ensures Breach(d, mult) == Breach(Max(0.0, mult) * d, 1.0)
  {
    var (size, other) := (Abs(d), Abs(Max(0.0, mult) * d));
    if mult > 0.0 {
      SignOfProduct(d, mult);
      assert mult * d == d * mult && mult * -d == -(mult * d);
      assert other == size * mult;
    } else {
      MulNonNegative(size, -mult);
      assert size * mult <= 0.0;
      assert other == 0.0;
    }
  }

  /** What a side takes from the credit: its width, or the credit where that is
      more, with its short delta. */
  ghost function Takes(credit: real, width: real, delta: real): real {
    Abs(delta) * Max(credit, width)
  }

  /** A condor earns exactly when its credit is more than its two sides take, at
      any deltas and widths. */
  lemma CondorEarnsIff(credit: real, widthPut: real, widthCall: real, dShortPut: real, dShortCall: real)
    requires credit >= 0.0
    ensures CondorEv(credit, widthPut, widthCall, dShortPut, dShortCall).expectedValue > 0.0 <==>
            credit > Takes(credit, widthPut, dShortPut) + Takes(credit, widthCall, dShortCall)
  {
    var (p, c) := (Abs(dShortPut), Abs(dShortCall));
    var (lp, lc) := (Max(0.0, widthPut - credit), Max(0.0, widthCall - credit));
    SideTakes(credit, widthPut, dShortPut);
    SideTakes(credit, widthCall, dShortCall);
    if p + c <= 1.0 {
      CondorClosedForm(credit, widthPut, widthCall, dShortPut, dShortCall);
    } else {
      MulNonNegative(Unit(p), lp * 100.0);
      MulNonNegative(Unit(c), lc * 100.0);
      MulNonNegative(p + c - 1.0, credit);
      assert (p + c - 1.0) * credit == p * credit + c * credit - credit;
    }
  }

  lemma SideTakes(credit: real, width: real, delta: real)
    requires credit >= 0.0
    ensures Takes(credit, width, delta) == Abs(delta) * credit + Abs(delta) * Max(0.0, width - credit)
    ensures Takes(credit, width, delta) >= Abs(delta) * credit >= 0.0
  {
    var (d, l) := (Abs(delta), Max(0.0, width - credit));
    assert Max(credit, width) == credit + l;
    assert d * (credit + l) == d * credit + d * l;
    MulNonNegative(d, l);
    MulNonNegative(d, credit);
  }

  /** While the two short deltas add up to one at most, the expected value is the
      credit less what the sides take. */
  lemma CondorClosedForm(credit: real, widthPut: real, widthCall: real, dShortPut: real, dShortCall: real)
    requires Abs(dShortPut) + Abs(dShortCall) <= 1.0
    ensures CondorEv(credit, widthPut, widthCall, dShortPut, dShortCall).expectedValue
            == (credit - Takes(credit, widthPut, dShortPut) - Takes(credit, widthCall, dShortCall)) * 100.0
  {
    var (p, c) := (Abs(dShortPut), Abs(dShortCall));
    var (lp, lc) := (Max(0.0, widthPut - credit), Max(0.0, widthCall - credit));
    assert (1.0 - (p + c)) * (credit * 100.0) == (credit - p * credit - c * credit) * 100.0;
    assert p * (lp * 100.0) == p * lp * 100.0 && c * (lc * 100.0) == c * lc * 100.0;
    assert p * (credit + lp) == p * credit + p * lp && c * (credit + lc) == c * credit + c * lc;
  }

  lemma BreachRange(dShort: real, dLong: real, mult: real)
    ensures 0.0 <= FullLoss(dLong, Breach(dShort, mult)) <= Breach(dShort, mult) <= 1.0
    ensures mult == 1.0 ==> Breach(dShort, mult) == Unit(Abs(dShort))
  {
  }

  lemma SavingIdentity(breach: real, full: real, severity: real, loss: real)
    ensures breach * loss - SideLoss(breach, full, severity, loss) == (1.0 - severity) * ((breach - full) * loss)
  {
    var area := (breach - full) * loss;
    assert (breach - full) * severity * loss == severity * area;
    assert breach * loss == full * loss + area;
    assert (1.0 - severity) * area == area - severity * area;
  }

  /** The saving of one side is never negative, and is zero exactly when there
      is nothing to save. */
  lemma SideSaving(breach: real, full: real, severity: real, loss: real)
    requires 0.0 <= full <= breach && 0.0 <= severity <= 1.0 && loss >= 0.0
    ensures (1.0 - severity) * ((breach - full) * loss) >= 0.0
    ensures (1.0 - severity) * ((breach - full) * loss) == 0.0 <==> severity == 1.0 || breach == full || loss == 0.0
  {
    var area := (breach - full) * loss;
    MulNonNegative(breach - full, loss);
    assert area == 0.0 <==> breach == full || loss == 0.0;
    MulNonNegative(1.0 - severity, area);
  }

  /** What the tail model saves on one side, per share. */
  function Saved(dShort: real, dLong: real, severity: real, room: real): real {
    var b := Breach(dShort, 1.0);
    (1.0 - severity) * ((b - FullLoss(dLong, b)) * room)
  }

  lemma SavedSign(dShort: real, dLong: real, severity: real, width: real, credit: real)
    requires 0.0 <= severity <= 1.0
    ensures var saved := Saved(dShort, dLong, severity, Max(0.0, width - credit));
            && saved >= 0.0
            && (saved == 0.0 <==> severity == 1.0 || Abs(dLong) >= Unit(Abs(dShort)) || width <= credit)
  {
    var b := Breach(dShort, 1.0);
    BreachRange(dShort, dLong, 1.0);
    SideSaving(b, FullLoss(dLong, b), severity, Max(0.0, width - credit));
    assert Abs(dLong) >= b <==> FullLoss(dLong, b) == b;
  }

  /** The two expected values, with the products named. */
  lemma TailValue(
    credit: real, widthPut: real, widthCall: real, dShortPut: real, dShortCall: real,
    dLongPut: real, dLongCall: real, severity: real, mult: real)
    returns (win: real, ePut: real, eCall: real)
    ensures var (bPut, bCall) := (Breach(dShortPut, mult), Breach(dShortCall, mult));
            && win == Clamp(1.0 - bPut - bCall, 0.0, 1.0)
            && ePut == SideLoss(bPut, FullLoss(dLongPut, bPut), severity, Max(0.0, widthPut - credit))
            && eCall == SideLoss(bCall, FullLoss(dLongCall, bCall), severity, Max(0.0, widthCall - credit))
            && CondorEvTail(credit, widthPut, widthCall, dShortPut, dShortCall,
                            dLongPut, dLongCall, severity, mult).expectedValue
               == (win * credit - ePut - eCall) * 100.0
  {
    var (bPut, bCall) := (Breach(dShortPut, mult), Breach(dShortCall, mult));
    win := Clamp(1.0 - bPut - bCall, 0.0, 1.0);
    ePut := SideLoss(bPut, FullLoss(dLongPut, bPut), severity, Max(0.0, widthPut - credit));
    eCall := SideLoss(bCall, FullLoss(dLongCall, bCall), severity, Max(0.0, widthCall - credit));
  }

  lemma StrictValue(credit: real, widthPut: real, widthCall: real, dShortPut: real, dShortCall: real)
    returns (win: real, sPut: real, sCall: real)
    ensures win == 1.0 - Min(1.0, Unit(Abs(dShortPut)) + Unit(Abs(dShortCall)))
    ensures sPut == Unit(Abs(dShortPut)) * Max(0.0, widthPut - credit)
    ensures sCall == Unit(Abs(dShortCall)) * Max(0.0, widthCall - credit)
    ensures CondorEv(credit, widthPut, widthCall, dShortPut, dShortCall).expectedValue
            == (win * credit - sPut - sCall) * 100.0
  {
    win := 1.0 - Min(1.0, Unit(Abs(dShortPut)) + Unit(Abs(dShortCall)));
    sPut := Unit(Abs(dShortPut)) * Max(0.0, widthPut - credit);
    sCall := Unit(Abs(dShortCall)) * Max(0.0, widthCall - credit);
  }

  /** What a side costs under either model, and what is earned, with multiplier 1. */
  ghost function StrictSide(dShort: real, room: real): real {
    Unit(Abs(dShort)) * room
  }

  ghost function TailSide(dShort: real, dLong: real, severity: real, room: real): real {
    SideLoss(Breach(dShort, 1.0), FullLoss(dLong, Breach(dShort, 1.0)), severity, room)
  }

  ghost function Earned(credit: real, dShortPut: real, dShortCall: real): real {
    (1.0 - Min(1.0, Unit(Abs(dShortPut)) + Unit(Abs(dShortCall)))) * credit
  }

  /** One side: the strict loss minus the tail loss is what is saved. */
  lemma SideGap(dShort: real, dLong: real, severity: real, room: real)
    ensures StrictSide(dShort, room) - TailSide(dShort, dLong, severity, room) == Saved(dShort, dLong, severity, room)
  {
    var b := Breach(dShort, 1.0);
    BreachRange(dShort, dLong, 1.0);
    SavingIdentity(b, FullLoss(dLong, b), severity, room);
  }

  lemma SameWin(dShortPut: real, dShortCall: real)
    ensures Clamp(1.0 - Breach(dShortPut, 1.0) - Breach(dShortCall, 1.0), 0.0, 1.0)
            == 1.0 - Min(1.0, Unit(Abs(dShortPut)) + Unit(Abs(dShortCall)))
  {
    BreachRange(dShortPut, 0.0, 1.0);
    BreachRange(dShortCall, 0.0, 1.0);
  }

  lemma TailTerms(
    credit: real, widthPut: real, widthCall: real, dShortPut: real, dShortCall: real,
    dLongPut: real, dLongCall: real, severity: real)
    ensures CondorEvTail(credit, widthPut, widthCall, dShortPut, dShortCall,
                         dLongPut, dLongCall, severity, 1.0).expectedValue
            == (Earned(credit, dShortPut, dShortCall)
                - TailSide(dShortPut, dLongPut, severity, Max(0.0, widthPut - credit))
                - TailSide(dShortCall, dLongCall, severity, Max(0.0, widthCall - credit))) * 100.0
  {
    var win, ePut, eCall := TailValue(credit, widthPut, widthCall, dShortPut, dShortCall,
                                      dLongPut, dLongCall, severity, 1.0);
    SameWin(dShortPut, dShortCall);
  }

  lemma StrictTerms(credit: real, widthPut: real, widthCall: real, dShortPut: real, dShortCall: real)
    ensures CondorEv(credit, widthPut, widthCall, dShortPut, dShortCall).expectedValue
            == (Earned(credit, dShortPut, dShortCall)
                - StrictSide(dShortPut, Max(0.0, widthPut - credit))
                - StrictSide(dShortCall, Max(0.0, widthCall - credit))) * 100.0
  {
    var win, sPut, sCall := StrictValue(credit, widthPut, widthCall, dShortPut, dShortCall);
  }

  lemma TailMinusStrict(
    credit: real, widthPut: real, widthCall: real, dShortPut: real, dShortCall: real,
    dLongPut: real, dLongCall: real, severity: real)
    ensures CondorEvTail(credit, widthPut, widthCall, dShortPut, dShortCall,
                         dLongPut, dLongCall, severity, 1.0).expectedValue
            - CondorEv(credit, widthPut, widthCall, dShortPut, dShortCall).expectedValue
            == (Saved(dShortPut, dLongPut, severity, Max(0.0, widthPut - credit))
                + Saved(dShortCall, dLongCall, severity, Max(0.0, widthCall - credit))) * 100.0
  {
    TailTerms(credit, widthPut, widthCall, dShortPut, dShortCall, dLongPut, dLongCall, severity);
    StrictTerms(credit, widthPut, widthCall, dShortPut, dShortCall);
    SideGap(dShortPut, dLongPut, severity, Max(0.0, widthPut - credit));
    SideGap(dShortCall, dLongCall, severity, Max(0.0, widthCall - credit));
  }

  /** With multiplier 1 the tail model is never below the strict one, and the
      two are equal exactly when severity is 1 or, side by side, the long delta
      reaches the breach probability or the side cannot lose. */
  lemma TailAtLeastStrict(
    credit: real, widthPut: real, widthCall: real, dShortPut: real, dShortCall: real,
    dLongPut: real, dLongCall: real, severity: real)
    requires 0.0 <= severity <= 1.0
    ensures var tail := CondorEvTail(credit, widthPut, widthCall, dShortPut, dShortCall,
                                     dLongPut, dLongCall, severity, 1.0).expectedValue;
            var strict := CondorEv(credit, widthPut, widthCall, dShortPut, dShortCall).expectedValue;
            && tail >= strict
            && (tail == strict <==>
                  || severity == 1.0
                  || ((Abs(dLongPut) >= Unit(Abs(dShortPut)) || widthPut <= credit)
                      && (Abs(dLongCall) >= Unit(Abs(dShortCall)) || widthCall <= credit)))
  {
    TailMinusStrict(credit, widthPut, widthCall, dShortPut, dShortCall, dLongPut, dLongCall, severity);
    SavedSign(dShortPut, dLongPut, severity, widthPut, credit);
    SavedSign(dShortCall, dLongCall, severity, widthCall, credit);
  }

  /** Side loss is its loss times a weight. */
  function Weight(breach: real, full: real, severity: real): real {
    full * (1.0 - severity) + breach * severity
  }

  lemma SideLossIsWeighted(breach: real, full: real, severity: real, loss: real)
    ensures SideLoss(breach, full, severity, loss) == Weight(breach, full, severity) * loss
  {
    assert (breach - full) * severity * loss == breach * severity * loss - full * severity * loss;
    assert Weight(breach, full, severity) * loss
        == full * loss - full * severity * loss + breach * severity * loss;
  }

  lemma WeightGrows(b1: real, f1: real, b2: real, f2: real, sev1: real, sev2: real)
    requires f1 <= b1 <= b2 && f1 <= f2 <= b2 && 0.0 <= sev1 <= sev2 <= 1.0
    ensures Weight(b1, f1, sev1) <= Weight(b2, f2, sev2)
  {
    WeightInSeverity(b1, f1, sev1, sev2);
    WeightInBreach(b1, f1, b2, f2, sev2);
  }

  lemma WeightInSeverity(b: real, f: real, sev1: real, sev2: real)
    requires f <= b && sev1 <= sev2
    ensures Weight(b, f, sev1) <= Weight(b, f, sev2)
  {
    MulNonNegative(sev2 - sev1, b - f);
    assert Weight(b, f, sev2) - Weight(b, f, sev1) == (sev2 - sev1) * (b - f);
  }

  lemma WeightInBreach(b1: real, f1: real, b2: real, f2: real, severity: real)
    requires b1 <= b2 && f1 <= f2 && 0.0 <= severity <= 1.0
    ensures Weight(b1, f1, severity) <= Weight(b2, f2, severity)
  {
    MulNonNegative(f2 - f1, 1.0 - severity);
    MulNonNegative(b2 - b1, severity);
    assert Weight(b2, f2, severity) - Weight(b1, f1, severity) == (f2 - f1) * (1.0 - severity) + (b2 - b1) * severity;
  }

  lemma SideLossGrows(b1: real, b2: real, dLong: real, sev1: real, sev2: real, loss: real)
    requires 0.0 <= b1 <= b2 <= 1.0 && 0.0 <= sev1 <= sev2 <= 1.0 && loss >= 0.0
    ensures SideLoss(b1, FullLoss(dLong, b1), sev1, loss) <= SideLoss(b2, FullLoss(dLong, b2), sev2, loss)
  {
    var f1, f2 := FullLoss(dLong, b1), FullLoss(dLong, b2);
    SideLossIsWeighted(b1, f1, sev1, loss);
    SideLossIsWeighted(b2, f2, sev2, loss);
    WeightGrows(b1, f1, b2, f2, sev1, sev2);
    MulMonotone(Weight(b1, f1, sev1), Weight(b2, f2, sev2), loss);
  }

  lemma BreachGrows(dShort: real, m1: real, m2: real)
    requires 0.0 <= m1 <= m2
    ensures 0.0 <= Breach(dShort, m1) <= Breach(dShort, m2) <= 1.0
  {
    var x1, x2 := Abs(dShort) * m1, Abs(dShort) * m2;
    assert 0.0 <= x1 by { MulNonNegative(Abs(dShort), m1); }
    assert x1 <= x2 by { MulMonotone(m1, m2, Abs(dShort)); }
    ClampGrows(x1, x2);
    assert Breach(dShort, m1) == Clamp(x1, 0.0, 1.0);
    assert Breach(dShort, m2) == Clamp(x2, 0.0, 1.0);
  }

  lemma ClampGrows(x1: real, x2: real)
    requires x1 <= x2
    ensures 0.0 <= Clamp(x1, 0.0, 1.0) <= Clamp(x2, 0.0, 1.0) <= 1.0
  {
  }

  lemma TailShareGap(w1: real, w2: real, credit: real, p1: real, p2: real, c1: real, c2: real)
    requires credit >= 0.0 && w2 <= w1 && p1 <= p2 && c1 <= c2
    ensures (w2 * credit - p2 - c2) * 100.0 <= (w1 * credit - p1 - c1) * 100.0
  {
    MulMonotone(w2, w1, credit);
    var e1, e2 := w1 * credit, w2 * credit;
    assert e2 <= e1;
    assert e2 - p2 - c2 <= e1 - p1 - c1;
  }

  /** For a non-negative credit the tail EV never increases as the severity or
      the probability multiplier grows, through all the clamps. */
  lemma TailNeverIncreases(
    credit: real, widthPut: real, widthCall: real, dShortPut: real, dShortCall: real,
    dLongPut: real, dLongCall: real, sev1: real, sev2: real, m1: real, m2: real)
    requires credit >= 0.0 && 0.0 <= sev1 <= sev2 <= 1.0 && 0.0 <= m1 <= m2
    ensures CondorEvTail(credit, widthPut, widthCall, dShortPut, dShortCall,
                         dLongPut, dLongCall, sev2, m2).expectedValue
            <= CondorEvTail(credit, widthPut, widthCall, dShortPut, dShortCall,
                            dLongPut, dLongCall, sev1, m1).expectedValue
  {
    var (p1, p2) := (Breach(dShortPut, m1), Breach(dShortPut, m2));
    var (c1, c2) := (Breach(dShortCall, m1), Breach(dShortCall, m2));
    BreachGrows(dShortPut, m1, m2);
    BreachGrows(dShortCall, m1, m2);
    SideLossGrows(p1, p2, dLongPut, sev1, sev2, Max(0.0, widthPut - credit));
    SideLossGrows(c1, c2, dLongCall, sev1, sev2, Max(0.0, widthCall - credit));
    ClampGrows(1.0 - p2 - c2, 1.0 - p1 - c1);
    var w1, ep1, ec1 := TailValue(credit, widthPut, widthCall, dShortPut, dShortCall, dLongPut, dLongCall, sev1, m1);
    var w2, ep2, ec2 := TailValue(credit, widthPut, widthCall, dShortPut, dShortCall, dLongPut, dLongCall, sev2, m2);
    TailShareGap(w1, w2, credit, ep1, ep2, ec1, ec2);
  }

  /** For any negative credit it increases somewhere, at any widths: losing the
      win region then helps. */
  lemma NegativeCreditIncreases(credit: real, widthPut: real, widthCall: real)
    requires credit < 0.0 && widthPut >= 0.0 && widthCall >= 0.0
    ensures CondorEvTail(credit, widthPut, widthCall, 0.5, 0.0, 0.0, 0.0, 0.0, 1.0).expectedValue
            > CondorEvTail(credit, widthPut, widthCall, 0.5, 0.0, 0.0, 0.0, 0.0, 0.0).expectedValue
  {
    var w1, ep1, ec1 := TailValue(credit, widthPut, widthCall, 0.5, 0.0, 0.0, 0.0, 0.0, 0.0);
    var w2, ep2, ec2 := TailValue(credit, widthPut, widthCall, 0.5, 0.0, 0.0, 0.0, 0.0, 1.0);
    assert w1 == 1.0 && w2 == 0.5;
    assert ep1 == 0.0 && ec1 == 0.0 && ep2 == 0.0 && ec2 == 0.0;
  }

  /** The tail EV never increases in the severity or the multiplier, whatever
      the deltas. */
  ghost predicate TailMonotone(credit: real, widthPut: real, widthCall: real) {
    forall dShortPut, dShortCall, dLongPut, dLongCall, sev1, sev2, m1, m2
      | 0.0 <= sev1 <= sev2 <= 1.0 && 0.0 <= m1 <= m2 ::
      CondorEvTail(credit, widthPut, widthCall, dShortPut, dShortCall, dLongPut, dLongCall, sev2, m2).expectedValue
      <= CondorEvTail(credit, widthPut, widthCall, dShortPut, dShortCall, dLongPut, dLongCall, sev1, m1).expectedValue
  }

  /** At any widths, exactly for a credit that is not negative. */
  lemma TailMonotoneIff(credit: real, widthPut: real, widthCall: real)
    requires widthPut >= 0.0 && widthCall >= 0.0
    ensures TailMonotone(credit, widthPut, widthCall) <==> credit >= 0.0
  {
    if credit < 0.0 {
      NegativeCreditIncreases(credit, widthPut, widthCall);
    } else {
      forall dShortPut, dShortCall, dLongPut, dLongCall, sev1, sev2, m1, m2
        | 0.0 <= sev1 <= sev2 <= 1.0 && 0.0 <= m1 <= m2
        ensures CondorEvTail(credit, widthPut, widthCall, dShortPut, dShortCall,
                             dLongPut, dLongCall, sev2, m2).expectedValue
                <= CondorEvTail(credit, widthPut, widthCall, dShortPut, dShortCall,
                                dLongPut, dLongCall, sev1, m1).expectedValue
      {
        TailNeverIncreases(credit, widthPut, widthCall, dShortPut, dShortCall, dLongPut, dLongCall, sev1, sev2, m1, m2);
      }
    }
  }

  // ---- agreement with the scanner's risk figures ---------------------------

  /** A risk's two figures are these. */
  predicate FiguresAgree(risk: RiskPrimitives.Risk, loss: real, gain: real) {
    risk.maxLoss == RiskPrimitives.Finite(loss) && risk.maxProfit == RiskPrimitives.Finite(gain)
  }

  lemma OneContract(
    premium: real, strike: real, delta: real, strategy: Strategy, width: Option<real>, legs: seq<PopLeg>)
    requires CalculateEv(premium, strike, delta, strategy, width, 1, legs).Computed?
    ensures var (ev, f) := (CalculateEv(premium, strike, delta, strategy, width, 1, legs).ev,
                            PerContract(strategy, premium, strike, OrElse(width, 0.0)));
            ev.maxLoss == f.loss && ev.maxGain == f.gain && ev.tradeCost == f.cost && ev.capped == f.capped
  {
  }

  lemma SpreadFigures(premium: real, strike: real, width: real)
    ensures var credit := PerContract(CreditSpread, premium, strike, width);
            FiguresAgree(RiskPrimitives.SpreadRisk(width, -premium), credit.loss, credit.gain) <==>
            0.0 <= premium <= width
    ensures var debit := PerContract(DebitSpread, premium, strike, width);
            FiguresAgree(RiskPrimitives.SpreadRisk(width, premium), debit.loss, debit.gain) <==>
            0.0 < premium <= width || premium == 0.0 == width
  {
  }

  /** Per contract, the EV model and the scanner's risk primitives report the
      same maximum gain and loss for a credit spread exactly when its premium is
      not negative and within the width, and for a debit spread exactly when its
      premium is positive and within the width, or both are zero. */
  lemma SpreadFiguresMatchRisk(
    premium: real, strike: real, delta: real, width: real, legs: seq<PopLeg>)
    ensures var credit := CalculateEv(premium, strike, delta, CreditSpread, Some(width), 1, legs).ev;
            FiguresAgree(RiskPrimitives.SpreadRisk(width, -premium), credit.maxLoss, credit.maxGain) <==>
            0.0 <= premium <= width
    ensures var debit := CalculateEv(premium, strike, delta, DebitSpread, Some(width), 1, legs).ev;
            FiguresAgree(RiskPrimitives.SpreadRisk(width, premium), debit.maxLoss, debit.maxGain) <==>
            0.0 < premium <= width || premium == 0.0 == width
  {
    OneContract(premium, strike, delta, CreditSpread, Some(width), legs);
    OneContract(premium, strike, delta, DebitSpread, Some(width), legs);
    SpreadFigures(premium, strike, width);
  }

  /** For single legs the figures that are finite agree exactly when the leg is a
      call or its premium is at most the strike; and the EV is flagged as capped
      exactly when a figure has no bound. */
  lemma SingleFiguresMatchRisk(leg: Leg, delta: real, legs: seq<PopLeg>, price: real)
    requires leg.right.Call? || leg.right.Put?
    ensures var strategy := match (leg.right, leg.side)
                            case (Call, Buy) => LongCall case (Call, Sell) => ShortCall
                            case (_, Buy) => LongPut case (_, Sell) => ShortPut;
            var ev := CalculateEv(leg.premium, leg.strike, delta, strategy, None, 1, legs).ev;
            var risk := RiskPrimitives.SingleLegRisk(leg, price);
            && ((risk.maxLoss.Finite? ==> risk.maxLoss.amount == ev.maxLoss)
                && (risk.maxProfit.Finite? ==> risk.maxProfit.amount == ev.maxGain)
                <==> leg.right.Call? || leg.premium <= leg.strike)
            && (ev.capped <==> risk.maxLoss.Unbounded? || risk.maxProfit.Unbounded?)
            && ev.tradeCost == Signed(leg.side, leg.premium) * 100.0
  {
    var strategy := match (leg.right, leg.side)
                    case (Call, Buy) => LongCall case (Call, Sell) => ShortCall
                    case (_, Buy) => LongPut case (_, Sell) => ShortPut;
    OneContract(leg.premium, leg.strike, delta, strategy, None, legs);
  }

  /** For condors they always agree. */
  lemma CondorFiguresMatchRisk(calls: seq<Leg>, puts: seq<Leg>, cost: real, dShortPut: real, dShortCall: real)
    requires |calls| == 2 && |puts| == 2
    ensures var ev := CondorEv(RiskPrimitives.CondorCredit(cost), RiskPrimitives.WingWidth(puts),
                               RiskPrimitives.WingWidth(calls), dShortPut, dShortCall);
            FiguresAgree(RiskPrimitives.CondorRisk(calls, puts, cost), ev.maxLoss, ev.maxGain)
  {
  }

  // ---- Kelly sizing --------------------------------------------------------

  datatype Sizing = Sizing(
    ev: real, evPercent: real, contracts: int, ruin: real, kelly: real)

  datatype SizingOutcome = Sized(s: Sizing) | DivisionByZero

  /** `(p*b - q) / b` at odds b */
  function RawKelly(prob: real, b: real): real
    requires b != 0.0
  {
    (prob * b - (1.0 - prob)) / b
  }

  /** The money the two limits leave to risk. */
  function AllowedRisk(account: real, safe: real): real {
    Min(account * safe, account * 0.05)
  }

  function SizeFor(allowed: real, maxLoss: real): (size: int)
    requires maxLoss > 0.0
    ensures size >= 0
  {
    var floored := (allowed / maxLoss).Floor;
    if floored < 0 then 0 else floored
  }

  function RuinScore(size: int, maxLoss: real, account: real, prob: real): real
    requires account != 0.0
  {
    (size as real * maxLoss) / account * (1.0 - prob) * 10.0
  }

  function SizeUp(ev: real, evPercent: real, maxLoss: real, prob: real, account: real, safe: real): SizingOutcome
    requires maxLoss > 0.0
  {
    var size := SizeFor(AllowedRisk(account, safe), maxLoss);
    if size == 0 then Sized(Sizing(ev, evPercent, 0, 0.0, safe))
    else if account == 0.0 then DivisionByZero
    else Sized(Sizing(ev, evPercent, size, RuinScore(size, maxLoss, account, prob), safe))
  }

  function CalculateKellySizing(
    maxLoss: real, maxProfit: real, prob: real, account: real, multiplier: real): SizingOutcome
  {
    var ev := prob * maxProfit - (1.0 - prob) * maxLoss;
    var evPercent := ev / (if maxLoss > 0.0 then maxLoss else 1.0) * 100.0;
    if maxLoss <= 0.0 || ev <= 0.0 then Sized(Sizing(ev, evPercent, 0, 0.0, 0.0))
    else
      var b := maxProfit / maxLoss;
      if b == 0.0 then DivisionByZero
      else SizeUp(ev, evPercent, maxLoss, prob, account, Max(0.0, RawKelly(prob, b) * multiplier))
  }

  lemma FloorBounds(x: real)
    ensures x.Floor as real <= x < (x.Floor + 1) as real
  {
  }

  lemma SizeWithin(allowed: real, maxLoss: real)
    requires maxLoss > 0.0
    ensures var size := SizeFor(allowed, maxLoss);
            && (size as real + 1.0) * maxLoss > allowed
            && (size > 0 || allowed >= 0.0 ==> size as real * maxLoss <= allowed)
            && (size > 0 ==> size as real * maxLoss > 0.0)
  {
    var x := allowed / maxLoss;
    FloorBounds(x);
    assert x * maxLoss == allowed;
    assert (x.Floor as real) * maxLoss <= x * maxLoss < (x.Floor as real + 1.0) * maxLoss;
    if x.Floor < 0 { assert allowed < 0.0 by { assert x < 0.0; } }
    if x.Floor > 0 { SignOfProduct(x.Floor as real, maxLoss); }
  }

  lemma SizeNeedsMoney(account: real, safe: real, maxLoss: real)
    requires maxLoss > 0.0 && safe >= 0.0
    ensures SizeFor(AllowedRisk(account, safe), maxLoss) > 0 ==> account > 0.0
    ensures account >= 0.0 ==> AllowedRisk(account, safe) >= 0.0
  {
    SizeWithin(AllowedRisk(account, safe), maxLoss);
    if account >= 0.0 { MulNonNegative(account, safe); }
  }

  /** Sizing fails, by dividing by zero odds, exactly when the EV is positive
      with a positive loss and a zero profit; for a probability in [0,1] that
      cannot be, so sizing never fails. */
  lemma KellyFailsIff(maxLoss: real, maxProfit: real, prob: real, account: real, multiplier: real)
    ensures CalculateKellySizing(maxLoss, maxProfit, prob, account, multiplier).DivisionByZero? <==>
            maxLoss > 0.0 && maxProfit == 0.0 && prob > 1.0
    ensures 0.0 <= prob <= 1.0 ==> CalculateKellySizing(maxLoss, maxProfit, prob, account, multiplier).Sized?
  {
    var q := 1.0 - prob;
    var ev := prob * maxProfit - q * maxLoss;
    if maxLoss > 0.0 && ev > 0.0 {
      var b := maxProfit / maxLoss;
      assert b * maxLoss == maxProfit;
      SignOfProduct(b, maxLoss);
      if maxProfit == 0.0 {
        SignOfProduct(-q, maxLoss);
        assert -q * maxLoss == ev;
      } else {
        SizeNeedsMoney(account, Max(0.0, RawKelly(prob, b) * multiplier), maxLoss);
      }
    } else if maxLoss > 0.0 {
      SignOfProduct(-q, maxLoss);
      assert maxProfit == 0.0 ==> -q * maxLoss == ev;
    }
  }

  /** The raw fraction is the EV as a share of the profit, and no more than the
      win probability. */
  lemma RawKellyIsEvShare(maxLoss: real, maxProfit: real, prob: real)
    requires 0.0 <= prob <= 1.0 && maxLoss > 0.0
    requires prob * maxProfit - (1.0 - prob) * maxLoss > 0.0
    ensures maxProfit > 0.0 && maxProfit / maxLoss > 0.0
    ensures var ev := prob * maxProfit - (1.0 - prob) * maxLoss;
            RawKelly(prob, maxProfit / maxLoss) == ev / maxProfit
    ensures 0.0 < RawKelly(prob, maxProfit / maxLoss) <= prob
  {
    var ev := prob * maxProfit - (1.0 - prob) * maxLoss;
    MulNonNegative(1.0 - prob, maxLoss);
    var won := prob * maxProfit;
    assert won > 0.0;
    if maxProfit <= 0.0 {
      MulNonNegative(prob, -maxProfit);
      assert false;
    }
    var b := maxProfit / maxLoss;
    assert b * maxLoss == maxProfit;
    SignOfProduct(b, maxLoss);
    var raw := RawKelly(prob, b);
    assert raw * b == prob * b - (1.0 - prob);
    RawTimesProfit(raw, b, prob, maxLoss, maxProfit);
    assert raw == ev / maxProfit;
    SignOfProduct(raw, maxProfit);
    var under := prob - raw;
    assert under * b == 1.0 - prob;
    SignOfProduct(-under, b);
    assert -under * b == -(1.0 - prob);
  }

  lemma RawTimesProfit(raw: real, b: real, prob: real, maxLoss: real, maxProfit: real)
    requires raw * b == prob * b - (1.0 - prob) && b * maxLoss == maxProfit
    ensures raw * maxProfit == prob * maxProfit - (1.0 - prob) * maxLoss
  {
    assert raw * (b * maxLoss) == (raw * b) * maxLoss;
    assert (prob * b - (1.0 - prob)) * maxLoss == prob * (b * maxLoss) - (1.0 - prob) * maxLoss;
  }

  lemma RuinAtMostHalf(size: int, maxLoss: real, account: real, prob: real)
    requires account > 0.0 && 0.0 < size as real * maxLoss <= account * 0.05 && 0.0 <= prob <= 1.0
    ensures RuinScore(size, maxLoss, account, prob) <= 0.5
  {
    var risked := size as real * maxLoss;
    var x := risked / account;
    assert x * account == risked;
    SignOfProduct(x - 0.05, account);
    assert (x - 0.05) * account == risked - account * 0.05;
    assert x <= 0.05;
    MulMonotone(x, 0.05, 1.0 - prob);
    var y := x * (1.0 - prob);
    assert y <= 0.05 * (1.0 - prob) <= 0.05;
  }

  /** The contracts' risk is within both limits and one contract more is not. */
  ghost predicate WithinBoth(contracts: int, maxLoss: real, share: real, cap: real, solvent: bool) {
    var (risk, more) := (contracts as real * maxLoss, (contracts as real + 1.0) * maxLoss);
    && (more > share || more > cap)
    && (contracts > 0 || solvent ==> risk <= share && risk <= cap)
  }

  lemma SizeMeetsBoth(maxLoss: real, share: real, cap: real, solvent: bool)
    requires maxLoss > 0.0 && (solvent ==> Min(share, cap) >= 0.0)
    ensures WithinBoth(SizeFor(Min(share, cap), maxLoss), maxLoss, share, cap, solvent)
  {
    SizeWithin(Min(share, cap), maxLoss);
  }

  /** The limits are the Kelly share and 5% of the account. */
  ghost predicate SizedToLimit(contracts: int, kelly: real, maxLoss: real, account: real) {
    WithinBoth(contracts, maxLoss, account * kelly, account * 0.05, account >= 0.0)
  }

  lemma SizeMeetsLimits(safe: real, maxLoss: real, account: real)
    requires maxLoss > 0.0 && safe >= 0.0
    ensures SizedToLimit(SizeFor(AllowedRisk(account, safe), maxLoss), safe, maxLoss, account)
  {
    SizeNeedsMoney(account, safe, maxLoss);
    SizeMeetsBoth(maxLoss, account * safe, account * 0.05, account >= 0.0);
  }

  lemma RuinBounded(maxLoss: real, prob: real, account: real, safe: real)
    requires maxLoss > 0.0 && safe >= 0.0 && 0.0 <= prob <= 1.0
    ensures var size := SizeFor(AllowedRisk(account, safe), maxLoss);
            size > 0 ==> account > 0.0 && RuinScore(size, maxLoss, account, prob) <= 0.5
  {
    SizeWithin(AllowedRisk(account, safe), maxLoss);
    SizeNeedsMoney(account, safe, maxLoss);
    var size := SizeFor(AllowedRisk(account, safe), maxLoss);
    if size > 0 { RuinAtMostHalf(size, maxLoss, account, prob); }
  }

  /** What sizing guarantees once the allocation is fixed. */
  lemma SizeUpIsBounded(ev: real, evPercent: real, maxLoss: real, prob: real, account: real, safe: real)
    requires maxLoss > 0.0 && safe >= 0.0 && 0.0 <= prob <= 1.0
    ensures var out := SizeUp(ev, evPercent, maxLoss, prob, account, safe);
            && out.Sized? && out.s.ruin <= 0.5 && out.s.ev == ev && out.s.kelly == safe
            && out.s.contracts == SizeFor(AllowedRisk(account, safe), maxLoss)
  {
    RuinBounded(maxLoss, prob, account, safe);
  }

  /** For a probability in [0,1]: contracts are bought only on a positive EV;
      what they risk is within both the Kelly allocation and 5% of the account,
      one contract more is not; and the ruin score is at most one half. */
  lemma KellyIsBounded(maxLoss: real, maxProfit: real, prob: real, account: real, multiplier: real)
    requires 0.0 <= prob <= 1.0
    ensures var out := CalculateKellySizing(maxLoss, maxProfit, prob, account, multiplier);
            && out.Sized?
            && out.s.contracts >= 0 && out.s.ruin <= 0.5
            && (out.s.contracts > 0 ==> maxLoss > 0.0 && out.s.ev > 0.0)
            && (maxLoss > 0.0 && out.s.ev > 0.0 ==>
                  && maxProfit > 0.0
                  && out.s.kelly == Max(0.0, out.s.ev / maxProfit * multiplier)
                  && SizedToLimit(out.s.contracts, out.s.kelly, maxLoss, account))
  {
    KellyFailsIff(maxLoss, maxProfit, prob, account, multiplier);
    var ev := prob * maxProfit - (1.0 - prob) * maxLoss;
    if maxLoss > 0.0 && ev > 0.0 {
      RawKellyIsEvShare(maxLoss, maxProfit, prob);
      var safe := Max(0.0, RawKelly(prob, maxProfit / maxLoss) * multiplier);
      SizeUpIsBounded(ev, ev / maxLoss * 100.0, maxLoss, prob, account, safe);
      SizeMeetsLimits(safe, maxLoss, account);
    }
  }

  /** What is reported with a size: the EV, that EV per hundred of the maximum loss
      (of one dollar where there is none), and as ruin score ten times the share
      of the account at risk, weighed with the chance to lose. */
  lemma SizingReports(maxLoss: real, maxProfit: real, prob: real, account: real, multiplier: real)
    requires CalculateKellySizing(maxLoss, maxProfit, prob, account, multiplier).Sized?
    ensures var s := CalculateKellySizing(maxLoss, maxProfit, prob, account, multiplier).s;
            && s.ev == prob * maxProfit - (1.0 - prob) * maxLoss
            && (maxLoss > 0.0 ==> s.evPercent * maxLoss == s.ev * 100.0)
            && (maxLoss <= 0.0 ==> s.evPercent == s.ev * 100.0)
            && (maxLoss <= 0.0 || s.ev <= 0.0 ==> s.contracts == 0 && s.kelly == 0.0)
            && (s.contracts == 0 ==> s.ruin == 0.0)
            && (s.contracts > 0 ==>
                  account != 0.0 && s.ruin * account == s.contracts as real * maxLoss * (1.0 - prob) * 10.0)
  {
    var s := CalculateKellySizing(maxLoss, maxProfit, prob, account, multiplier).s;
    var share := s.ev / (if maxLoss > 0.0 then maxLoss else 1.0);
    assert share * 100.0 * maxLoss == share * maxLoss * 100.0;
    if s.contracts > 0 {
      var risked := s.contracts as real * maxLoss;
      RuinOfAccount(risked / account, risked, account, 1.0 - prob);
    }
  }

  lemma RuinOfAccount(share: real, risked: real, account: real, lost: real)
    requires share * account == risked
    ensures share * lost * 10.0 * account == risked * lost * 10.0
  {
    assert share * lost * account == share * account * lost;
  }
}
