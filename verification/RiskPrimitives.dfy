/** Max loss, max profit and collateral of a position, against the profit and
    loss it actually has at expiry over every terminal price S >= 0. */
module RiskPrimitives {
  import opened Common
  import opened OptionTypes

  // ---- the position at expiry ----------------------------------------------

  function Intrinsic(right: Right, strike: real, s: real): real {
    match right
    case Call => Max(0.0, s - strike)
    case Put => Max(0.0, strike - s)
    case OtherRight => 0.0
  }

  function Payoff(legs: seq<Leg>, s: real): real {
    if legs == [] then 0.0
    else Payoff(legs[1..], s) + Signed(legs[0].side, Intrinsic(legs[0].right, legs[0].strike, s))
  }

  /** Per contract of 100 shares, after paying `cost` per share. */
  function ProfitAt(legs: seq<Leg>, cost: real, s: real): real {
    (Payoff(legs, s) - cost) * 100.0
  }

  datatype Usd = Finite(amount: real) | Unbounded

  ghost predicate RisesAbove(legs: seq<Leg>, cost: real, x: real) {
    exists s: real :: s >= 0.0 && ProfitAt(legs, cost, s) > x
  }

  ghost predicate FallsBelow(legs: seq<Leg>, cost: real, x: real) {
    exists s: real :: s >= 0.0 && ProfitAt(legs, cost, s) < x
  }

  /** The least upper bound of the profit over all S >= 0, and it is attained
      unless there is none. */
  ghost predicate MaxProfitIs(legs: seq<Leg>, cost: real, m: Usd) {
    match m
    case Finite(x) =>
      && (forall s: real | s >= 0.0 :: ProfitAt(legs, cost, s) <= x)
      && (exists s: real :: s >= 0.0 && ProfitAt(legs, cost, s) == x)
    case Unbounded => forall x: real :: RisesAbove(legs, cost, x)
  }

  ghost predicate MaxLossIs(legs: seq<Leg>, cost: real, m: Usd) {
    match m
    case Finite(x) =>
      && (forall s: real | s >= 0.0 :: ProfitAt(legs, cost, s) >= -x)
      && (exists s: real :: s >= 0.0 && ProfitAt(legs, cost, s) == -x)
    case Unbounded => forall x: real :: FallsBelow(legs, cost, x)
  }

  // ---- the code ------------------------------------------------------------

  function OfRight(legs: seq<Leg>, right: Right): seq<Leg> {
    if legs == [] then []
    else (if legs[0].right == right then [legs[0]] else []) + OfRight(legs[1..], right)
  }

  function Lower(pair: seq<Leg>): Leg
    requires |pair| == 2
  {
    if pair[0].strike <= pair[1].strike then pair[0] else pair[1]
  }

  function Upper(pair: seq<Leg>): Leg
    requires |pair| == 2
  {
    if pair[0].strike <= pair[1].strike then pair[1] else pair[0]
  }

  /** `_validate_iron_condor_invariants` */
  predicate ValidCondor(legs: seq<Leg>) {
    && |legs| == 4
    && |set i | 0 <= i < |legs| :: legs[i].symbol| == 4
    && |set i | 0 <= i < |legs| :: legs[i].expiry| == 1
    && var (calls, puts) := (OfRight(legs, Call), OfRight(legs, Put));
    && |calls| == 2 && |puts| == 2
    && Lower(calls).side.Sell? && Upper(calls).side.Buy? && Lower(calls).strike < Upper(calls).strike
    && Lower(puts).side.Buy? && Upper(puts).side.Sell? && Lower(puts).strike < Upper(puts).strike
    && Upper(puts).strike < Lower(calls).strike
  }

  datatype Risk = Risk(maxLoss: Usd, maxProfit: Usd, collateral: real)

  const NO_RISK := Risk(Finite(0.0), Finite(0.0), 0.0)

  function SingleLegRisk(leg: Leg, price: real): Risk {
    match (leg.side, leg.right)
    case (Buy, Call) => Risk(Finite(leg.premium * 100.0), Unbounded, leg.premium * 100.0)
    case (Buy, _) =>
      Risk(Finite(leg.premium * 100.0), Finite(Max(0.0, leg.strike - leg.premium) * 100.0), leg.premium * 100.0)
    case (Sell, Call) => Risk(Unbounded, Finite(leg.premium * 100.0), price * 100.0)
    case (Sell, _) =>
      Risk(Finite(Max(0.0, leg.strike - leg.premium) * 100.0), Finite(leg.premium * 100.0), leg.strike * 100.0)
  }

  function SpreadRisk(width: real, cost: real): Risk {
    if cost > 0.0 then
      Risk(Finite(cost * 100.0), Finite(Max(0.0, width - cost) * 100.0), cost * 100.0)
    else
      var credit := Abs(cost);
      Risk(Finite(Max(0.0, width - credit) * 100.0), Finite(credit * 100.0), width * 100.0)
  }

  function CondorCredit(cost: real): real {
    if cost < 0.0 then Abs(cost) else 0.0
  }

  function WingWidth(pair: seq<Leg>): real
    requires |pair| == 2
  {
    Abs(Upper(pair).strike - Lower(pair).strike)
  }

  function CondorRisk(calls: seq<Leg>, puts: seq<Leg>, cost: real): Risk
    requires |calls| == 2 && |puts| == 2
  {
    var wide := Max(WingWidth(calls), WingWidth(puts));
    var credit := CondorCredit(cost);
    Risk(Finite(Max(0.0, wide - credit) * 100.0), Finite(credit * 100.0), wide * 100.0)
  }

  /** `_compute_risk_primitives_usd` */
  function ComputeRisk(legs: seq<Leg>, cost: real, price: real): Risk {
    if |legs| == 1 then SingleLegRisk(legs[0], price)
    else if |legs| == 2 then
      if legs[0].side != legs[1].side then SpreadRisk(Abs(legs[0].strike - legs[1].strike), cost) else NO_RISK
    else if |legs| == 4 then
      var (calls, puts) := (OfRight(legs, Call), OfRight(legs, Put));
      if |calls| == 2 && |puts| == 2 then CondorRisk(calls, puts, cost) else NO_RISK
    else NO_RISK
  }

  /** The reported figures are the true extremes. */
  ghost predicate Exact(legs: seq<Leg>, cost: real, price: real) {
    var r := ComputeRisk(legs, cost, price);
    MaxLossIs(legs, cost, r.maxLoss) && MaxProfitIs(legs, cost, r.maxProfit)
  }

  // ---- from payoff range to exactness --------------------------------------

  ghost predicate PayoffRange(legs: seq<Leg>, lo: real, hi: real) {
    && (forall s: real | s >= 0.0 :: lo <= Payoff(legs, s) <= hi)
    && (exists s: real :: s >= 0.0 && Payoff(legs, s) == lo)
    && (exists s: real :: s >= 0.0 && Payoff(legs, s) == hi)
  }

  lemma RangeGivesExtremes(legs: seq<Leg>, cost: real, lo: real, hi: real, loss: real, profit: real)
    requires PayoffRange(legs, lo, hi)
    ensures MaxLossIs(legs, cost, Finite(loss)) <==> loss == (cost - lo) * 100.0
    ensures MaxProfitIs(legs, cost, Finite(profit)) <==> profit == (hi - cost) * 100.0
  {
    var low: real :| low >= 0.0 && Payoff(legs, low) == lo;
    var high: real :| high >= 0.0 && Payoff(legs, high) == hi;
    assert ProfitAt(legs, cost, low) == (lo - cost) * 100.0;
    assert ProfitAt(legs, cost, high) == (hi - cost) * 100.0;
    forall s: real | s >= 0.0 ensures (lo - cost) * 100.0 <= ProfitAt(legs, cost, s) <= (hi - cost) * 100.0 {}
  }

  // ---- two legs ------------------------------------------------------------

  /** One long and one short leg of the same type. */
  predicate IsVertical(legs: seq<Leg>) {
    && |legs| == 2 && legs[0].side != legs[1].side
    && legs[0].right == legs[1].right && !legs[0].right.OtherRight?
    && legs[0].strike >= 0.0 && legs[1].strike >= 0.0
  }

  function LongLeg(legs: seq<Leg>): Leg
    requires |legs| == 2
  {
    if legs[0].side.Buy? then legs[0] else legs[1]
  }

  function ShortLeg(legs: seq<Leg>): Leg
    requires |legs| == 2
  {
    if legs[0].side.Buy? then legs[1] else legs[0]
  }

  /** The long leg is worth more than the short one at every expiry. */
  predicate DebitStructure(legs: seq<Leg>)
    requires |legs| == 2
  {
    if LongLeg(legs).right.Call? then LongLeg(legs).strike < ShortLeg(legs).strike
    else LongLeg(legs).strike > ShortLeg(legs).strike
  }

  lemma VerticalPayoff(legs: seq<Leg>, s: real)
    requires IsVertical(legs)
    ensures Payoff(legs, s) ==
            Intrinsic(LongLeg(legs).right, LongLeg(legs).strike, s)
            - Intrinsic(ShortLeg(legs).right, ShortLeg(legs).strike, s)
  {
    assert legs[1..][0] == legs[1] && legs[1..][1..] == [];
    assert Payoff(legs[1..], s) == Signed(legs[1].side, Intrinsic(legs[1].right, legs[1].strike, s));
  }

  lemma VerticalRange(legs: seq<Leg>)
    requires IsVertical(legs)
    ensures var w := Abs(legs[0].strike - legs[1].strike);
            if DebitStructure(legs) then PayoffRange(legs, 0.0, w) else PayoffRange(legs, -w, 0.0)
  {
    var kLong, kShort := LongLeg(legs).strike, ShortLeg(legs).strike;
    forall s: real ensures Payoff(legs, s) ==
      Intrinsic(LongLeg(legs).right, kLong, s) - Intrinsic(ShortLeg(legs).right, kShort, s) { VerticalPayoff(legs, s); }
    VerticalPayoff(legs, kLong);
    VerticalPayoff(legs, kShort);
    assert kLong >= 0.0 && kShort >= 0.0;
    var w := Abs(legs[0].strike - legs[1].strike);
    var lo, hi := if DebitStructure(legs) then 0.0 else -w, if DebitStructure(legs) then w else 0.0;
    forall s: real | s >= 0.0 ensures lo <= Payoff(legs, s) <= hi { VerticalPayoff(legs, s); }
    if LongLeg(legs).right.Call? {
      assert kLong < kShort ==> Payoff(legs, kLong) == 0.0 && Payoff(legs, kShort) == w;
      assert kLong >= kShort ==> Payoff(legs, kShort) == 0.0 && Payoff(legs, kLong) == -w;
    } else {
      assert kLong > kShort ==> Payoff(legs, kLong) == 0.0 && Payoff(legs, kShort) == w;
      assert kLong <= kShort ==> Payoff(legs, kShort) == 0.0 && Payoff(legs, kLong) == -w;
    }
  }

  /** A vertical's figures are exact if and only if the sign of its cost matches
      its structure and the cost stays within the width. */
  lemma VerticalExactIff(legs: seq<Leg>, cost: real, price: real)
    requires IsVertical(legs)
    ensures var w := Abs(legs[0].strike - legs[1].strike);
            Exact(legs, cost, price) <==>
            if DebitStructure(legs) then 0.0 < cost <= w else -w <= cost <= 0.0
  {
    var w := Abs(legs[0].strike - legs[1].strike);
    var r := SpreadRisk(w, cost);
    VerticalRange(legs);
    if DebitStructure(legs) {
      RangeGivesExtremes(legs, cost, 0.0, w, r.maxLoss.amount, r.maxProfit.amount);
      assert w > 0.0;
    } else {
      RangeGivesExtremes(legs, cost, -w, 0.0, r.maxLoss.amount, r.maxProfit.amount);
    }
  }

  // ---- condors -------------------------------------------------------------

  lemma {:induction false} PayoffSplits(legs: seq<Leg>, s: real)
    ensures Payoff(legs, s) == Payoff(OfRight(legs, Call), s) + Payoff(OfRight(legs, Put), s)
  {
    if legs != [] {
      PayoffSplits(legs[1..], s);
      var rest := legs[1..];
      assert ([legs[0]] + OfRight(rest, Call))[1..] == OfRight(rest, Call);
      assert ([legs[0]] + OfRight(rest, Put))[1..] == OfRight(rest, Put);
      assert [] + OfRight(rest, Call) == OfRight(rest, Call);
      assert [] + OfRight(rest, Put) == OfRight(rest, Put);
    }
  }

  lemma {:induction false} OfRightMembers(legs: seq<Leg>, right: Right)
    ensures forall l | l in OfRight(legs, right) :: l in legs && l.right == right
  {
    if legs != [] { OfRightMembers(legs[1..], right); }
  }

  lemma PairPayoff(pair: seq<Leg>, s: real)
    requires |pair| == 2
    ensures Payoff(pair, s) ==
            Signed(Lower(pair).side, Intrinsic(Lower(pair).right, Lower(pair).strike, s))
            + Signed(Upper(pair).side, Intrinsic(Upper(pair).right, Upper(pair).strike, s))
  {
    assert pair[1..][0] == pair[1] && pair[1..][1..] == [];
    assert Payoff(pair[1..], s) == Signed(pair[1].side, Intrinsic(pair[1].right, pair[1].strike, s));
  }

  /** A condor's payoff as a function of its four strikes. */
  function CondorPayoff(longPut: real, shortPut: real, shortCall: real, longCall: real, s: real): real {
    Max(0.0, longPut - s) - Max(0.0, shortPut - s) - Max(0.0, s - shortCall) + Max(0.0, s - longCall)
  }

  lemma CondorShape(legs: seq<Leg>, s: real)
    requires ValidCondor(legs)
    ensures var (calls, puts) := (OfRight(legs, Call), OfRight(legs, Put));
            Payoff(legs, s) ==
            CondorPayoff(Lower(puts).strike, Upper(puts).strike, Lower(calls).strike, Upper(calls).strike, s)
  {
    var (calls, puts) := (OfRight(legs, Call), OfRight(legs, Put));
    PayoffSplits(legs, s);
    PairPayoff(calls, s);
    PairPayoff(puts, s);
    OfRightMembers(legs, Call);
    OfRightMembers(legs, Put);
    assert calls[0] in calls && calls[1] in calls && puts[0] in puts && puts[1] in puts;
  }

  lemma CondorRange(legs: seq<Leg>)
    requires ValidCondor(legs) && forall l | l in legs :: l.strike >= 0.0
    ensures var (calls, puts) := (OfRight(legs, Call), OfRight(legs, Put));
            PayoffRange(legs, -Max(WingWidth(calls), WingWidth(puts)), 0.0)
  {
    var (calls, puts) := (OfRight(legs, Call), OfRight(legs, Put));
    OfRightMembers(legs, Put);
    assert puts[0] in puts && puts[1] in puts;
    var lp, sp, sc, lc := Lower(puts).strike, Upper(puts).strike, Lower(calls).strike, Upper(calls).strike;
    assert 0.0 <= lp < sp < sc < lc;
    var wide := Max(WingWidth(calls), WingWidth(puts));
    forall s: real | s >= 0.0 ensures -wide <= Payoff(legs, s) <= 0.0 { CondorShape(legs, s); }
    CondorShape(legs, lp);
    CondorShape(legs, sp);
    CondorShape(legs, lc);
    assert Payoff(legs, sp) == 0.0;
    if WingWidth(puts) >= WingWidth(calls) {
      assert Payoff(legs, lp) == -wide;
    } else {
      assert Payoff(legs, lc) == -wide;
    }
  }

  /** A valid condor's figures are exact if and only if it is done for a credit
      no larger than its wider wing; equal wings are not needed. */
  lemma CondorExactIff(legs: seq<Leg>, cost: real, price: real)
    requires ValidCondor(legs) && forall l | l in legs :: l.strike >= 0.0
    ensures var (calls, puts) := (OfRight(legs, Call), OfRight(legs, Put));
            Exact(legs, cost, price) <==> -Max(WingWidth(calls), WingWidth(puts)) <= cost <= 0.0
  {
    var (calls, puts) := (OfRight(legs, Call), OfRight(legs, Put));
    var r := CondorRisk(calls, puts, cost);
    CondorRange(legs);
    RangeGivesExtremes(legs, cost, -Max(WingWidth(calls), WingWidth(puts)), 0.0, r.maxLoss.amount, r.maxProfit.amount);
  }

  // ---- one leg -------------------------------------------------------------

  lemma SinglePayoff(leg: Leg, s: real)
    ensures Payoff([leg], s) == Signed(leg.side, Intrinsic(leg.right, leg.strike, s))
  {
    assert [leg][1..] == [];
  }

  lemma SinglePutRange(leg: Leg)
    requires leg.right.Put? && leg.strike >= 0.0
    ensures if leg.side.Buy? then PayoffRange([leg], 0.0, leg.strike) else PayoffRange([leg], -leg.strike, 0.0)
  {
    forall s: real ensures Payoff([leg], s) == Signed(leg.side, Intrinsic(Put, leg.strike, s)) { SinglePayoff(leg, s); }
    assert Payoff([leg], 0.0) == Signed(leg.side, leg.strike);
    assert Payoff([leg], leg.strike) == 0.0;
  }

  /** A single put's figures, at the cost its premium implies, are exact if and
      only if the premium is at most the strike. */
  lemma SinglePutExactIff(leg: Leg, price: real)
    requires leg.right.Put? && leg.strike >= 0.0
    ensures Exact([leg], Signed(leg.side, leg.premium), price) <==> leg.premium <= leg.strike
  {
    var cost := Signed(leg.side, leg.premium);
    var r := SingleLegRisk(leg, price);
    SinglePutRange(leg);
    if leg.side.Buy? {
      RangeGivesExtremes([leg], cost, 0.0, leg.strike, r.maxLoss.amount, r.maxProfit.amount);
    } else {
      RangeGivesExtremes([leg], cost, -leg.strike, 0.0, r.maxLoss.amount, r.maxProfit.amount);
    }
  }

  lemma CallHasNoBound(leg: Leg, cost: real, x: real)
    requires leg.right.Call? && leg.strike >= 0.0
    ensures if leg.side.Buy? then RisesAbove([leg], cost, x) else FallsBelow([leg], cost, x)
  {
    var s := leg.strike + Abs(cost) + Abs(x) + 1.0;
    SinglePayoff(leg, s);
    assert Intrinsic(Call, leg.strike, s) == Abs(cost) + Abs(x) + 1.0;
    assert s >= 0.0 && if leg.side.Buy? then ProfitAt([leg], cost, s) > x else ProfitAt([leg], cost, s) < x;
  }

  /** A single call's figures are exact at any premium. */
  lemma SingleCallExact(leg: Leg, price: real)
    requires leg.right.Call? && leg.strike >= 0.0
    ensures Exact([leg], Signed(leg.side, leg.premium), price)
  {
    var cost := Signed(leg.side, leg.premium);
    forall s: real ensures Payoff([leg], s) == Signed(leg.side, Intrinsic(Call, leg.strike, s)) {
      SinglePayoff(leg, s);
    }
    assert ProfitAt([leg], cost, 0.0) == -cost * 100.0;
    if leg.side.Buy? {
      forall x: real ensures RisesAbove([leg], cost, x) { CallHasNoBound(leg, cost, x); }
    } else {
      forall x: real ensures FallsBelow([leg], cost, x) { CallHasNoBound(leg, cost, x); }
    }
  }

  // ---- collateral ----------------------------------------------------------

  /** What is set aside: for what is bought, the debit, which is the whole loss;
      for a put sold the strike, for a credit spread or condor the wider width,
      each of which is the loss and the profit together; and for a call sold,
      whose loss has no bound, the price of the underlying. */
  ghost predicate Covers(r: Risk, credit: bool) {
    && (r.maxLoss.Finite? && !credit ==> r.collateral == r.maxLoss.amount)
    && (r.maxLoss.Finite? && r.maxProfit.Finite? && credit ==>
          r.collateral == r.maxLoss.amount + r.maxProfit.amount)
  }

  lemma SingleCollateral(leg: Leg, price: real)
    requires leg.right.Call? || leg.premium <= leg.strike
    ensures var r := SingleLegRisk(leg, price);
            && Covers(r, leg.side.Sell?)
            && (leg.side.Sell? && leg.right.Call? ==> r.collateral == price * 100.0)
            && (leg.side.Sell? && !leg.right.Call? ==> r.collateral == leg.strike * 100.0)
            && (r.maxLoss.Finite? && leg.premium >= 0.0 ==> r.collateral >= r.maxLoss.amount)
  {
  }

  lemma VerticalCollateral(legs: seq<Leg>, cost: real, price: real)
    requires IsVertical(legs) && Exact(legs, cost, price)
    ensures var r := ComputeRisk(legs, cost, price);
            && Covers(r, cost <= 0.0) && r.collateral >= r.maxLoss.amount
            && (cost <= 0.0 ==> r.collateral == Abs(legs[0].strike - legs[1].strike) * 100.0)
  {
    VerticalExactIff(legs, cost, price);
  }

  lemma CondorCollateral(legs: seq<Leg>, cost: real, price: real)
    requires ValidCondor(legs) && (forall l | l in legs :: l.strike >= 0.0) && Exact(legs, cost, price)
    ensures var r := ComputeRisk(legs, cost, price);
            && Covers(r, true) && r.collateral >= r.maxLoss.amount
            && r.collateral == Max(WingWidth(OfRight(legs, Call)), WingWidth(OfRight(legs, Put))) * 100.0
  {
    CondorExactIff(legs, cost, price);
  }

  /** Two legs on one side, four that are not two calls and two puts, and any other
      number of legs but one are reported as without risk, profit or collateral. */
  lemma UnknownStructures(legs: seq<Leg>, cost: real, price: real)
    requires |legs| != 1
    requires |legs| == 2 ==> legs[0].side == legs[1].side
    requires |legs| == 4 ==> !(|OfRight(legs, Call)| == |OfRight(legs, Put)| == 2)
    ensures ComputeRisk(legs, cost, price) == Risk(Finite(0.0), Finite(0.0), 0.0)
  {
  }

  // ---- the economics gate --------------------------------------------------

  datatype Verdict = Accepted | Rejected(reason: string)

  const TINY := 0.000000001

  /** `_validate_spread_economics` */
  function ValidateSpreadEconomics(legs: seq<Leg>, cost: real): Verdict {
    if legs == [] then Rejected("no_legs")
    else if |set i | 0 <= i < |legs| && legs[i].expiry != "" :: legs[i].expiry| > 1 then Rejected("expiry_mismatch")
    else if |legs| == 2 then
      var width := Abs(legs[0].strike - legs[1].strike);
      if legs[0].side == legs[1].side then Rejected("missing_long_or_short")
      else if width <= TINY then Rejected("zero_width")
      else if Abs(cost) <= TINY then Rejected("zero_premium")
      else if Abs(cost) >= width then Rejected("premium_ge_width")
      else Accepted
    else if |legs| == 4 then
      if !ValidCondor(legs) then Rejected("iron_condor_invariants")
      else if cost >= 0.0 then Rejected("iron_condor_not_credit")
      else
        var wide := Max(WingWidth(OfRight(legs, Put)), WingWidth(OfRight(legs, Call)));
        if wide <= 0.0 then Rejected("iron_condor_invalid_width")
        else if Abs(cost) >= wide then Rejected("iron_condor_credit_ge_width")
        else Accepted
    else Accepted
  }

  /** A condor the gate accepts always has exact figures.  A vertical it accepts
      has exact figures if and only if its cost has the sign of its structure,
      which the gate does not look at. */
  lemma AcceptedFiguresExactIff(legs: seq<Leg>, cost: real, price: real)
    requires ValidateSpreadEconomics(legs, cost).Accepted? && forall l | l in legs :: l.strike >= 0.0
    ensures |legs| == 4 ==> Exact(legs, cost, price)
    ensures IsVertical(legs) ==> (Exact(legs, cost, price) <==> (DebitStructure(legs) <==> cost > 0.0))
  {
    if |legs| == 4 { CondorExactIff(legs, cost, price); }
    if IsVertical(legs) { VerticalExactIff(legs, cost, price); }
  }

  /** Two legs name different expiries. */
  ghost predicate MixedExpiries(legs: seq<Leg>) {
    exists i, j :: 0 <= i < |legs| && 0 <= j < |legs| && legs[i].expiry != "" && legs[j].expiry != ""
                   && legs[i].expiry != legs[j].expiry
  }

  lemma ExpiriesDiffer(legs: seq<Leg>)
    ensures |set i | 0 <= i < |legs| && legs[i].expiry != "" :: legs[i].expiry| > 1 <==> MixedExpiries(legs)
  {
    var names := set i | 0 <= i < |legs| && legs[i].expiry != "" :: legs[i].expiry;
    if MixedExpiries(legs) {
      var i, j :| 0 <= i < |legs| && 0 <= j < |legs| && legs[i].expiry != "" && legs[j].expiry != ""
                  && legs[i].expiry != legs[j].expiry;
      SubsetSize({legs[i].expiry, legs[j].expiry}, names);
    } else if names != {} {
      var x :| x in names;
      assert names == {x};
    }
  }

  /** What the gate accepts.  Beyond two and four legs it looks at the expiries
      only. */
  lemma AcceptedIff(legs: seq<Leg>, cost: real)
    ensures ValidateSpreadEconomics(legs, cost).Accepted? <==>
            && legs != [] && !MixedExpiries(legs)
            && (|legs| == 2 ==>
                  && legs[0].side != legs[1].side
                  && TINY < Abs(cost) < Abs(legs[0].strike - legs[1].strike))
            && (|legs| == 4 ==>
                  && ValidCondor(legs)
                  && 0.0 < -cost < Max(WingWidth(OfRight(legs, Put)), WingWidth(OfRight(legs, Call))))
  {
    ExpiriesDiffer(legs);
  }

  /** And the reason names the first thing that is wrong. */
  lemma RejectedFor(legs: seq<Leg>, cost: real)
    requires ValidateSpreadEconomics(legs, cost).Rejected?
    ensures var reason := ValidateSpreadEconomics(legs, cost).reason;
            && (reason == "no_legs" <==> legs == [])
            && (reason == "expiry_mismatch" <==> MixedExpiries(legs))
            && (!MixedExpiries(legs) && |legs| == 2 ==>
                  var width := Abs(legs[0].strike - legs[1].strike);
                  if legs[0].side == legs[1].side then reason == "missing_long_or_short"
                  else if width <= TINY then reason == "zero_width"
                  else if Abs(cost) <= TINY then reason == "zero_premium"
                  else reason == "premium_ge_width" && Abs(cost) >= width)
            && (!MixedExpiries(legs) && |legs| == 4 ==>
                  if !ValidCondor(legs) then reason == "iron_condor_invariants"
                  else if cost >= 0.0 then reason == "iron_condor_not_credit"
                  else reason == "iron_condor_credit_ge_width")
  {
    ExpiriesDiffer(legs);
  }
}
