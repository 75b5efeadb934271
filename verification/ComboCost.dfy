/** The separately written price figures of a leg list: the directional total
    built during selection, the mid reprice, the cost range and the spread sum. */
module ComboCost {
  import opened Common
  import opened OptionTypes
  import LegSelection

  /** The quote test of the cost helpers: they do not test the ask's sign. */
  predicate Quoted(leg: Leg) {
    leg.bid.Some? && leg.ask.Some? && leg.bid.value > 0.0 && leg.ask.value >= leg.bid.value
  }

  /** It is the same test as the selector's. */
  lemma QuotedIsValidNbbo(leg: Leg)
    ensures Quoted(leg) <==> ValidNbbo(leg.bid, leg.ask)
  {
  }

  ghost predicate AllQuoted(legs: seq<Leg>) {
    forall i | 0 <= i < |legs| :: Quoted(legs[i])
  }

  datatype CostRange = CostRange(costMin: real, costMax: real, comboSpread: real)

  // Each figure as a sum over the legs, taken on its own.

  function BestCost(legs: seq<Leg>): real
    requires AllQuoted(legs)
  {
    if legs == [] then 0.0
    else
      var l := legs[|legs| - 1];
      assert Quoted(l);
      BestCost(legs[..|legs| - 1]) + (if l.side.Buy? then l.bid.value else -l.ask.value)
  }

  function WorstCost(legs: seq<Leg>): real
    requires AllQuoted(legs)
  {
    if legs == [] then 0.0
    else
      var l := legs[|legs| - 1];
      assert Quoted(l);
      WorstCost(legs[..|legs| - 1]) + (if l.side.Buy? then l.ask.value else -l.bid.value)
  }

  function SpreadSum(legs: seq<Leg>): real
    requires AllQuoted(legs)
  {
    if legs == [] then 0.0
    else
      var l := legs[|legs| - 1];
      assert Quoted(l);
      SpreadSum(legs[..|legs| - 1]) + (l.ask.value - l.bid.value)
  }

  method ComboCostRangeFromLegs(legs: seq<Leg>) returns (r: Option<CostRange>)
    ensures r.Some? <==> legs != [] && AllQuoted(legs)
    ensures r.Some? ==> r.value == CostRange(BestCost(legs), WorstCost(legs), WorstCost(legs) - BestCost(legs))
  {
    if legs == [] { return None; }
    var buyBid, buyAsk, sellBid, sellAsk := 0.0, 0.0, 0.0, 0.0;
    for k := 0 to |legs|
      invariant AllQuoted(legs[..k])
      invariant BestCost(legs[..k]) == buyBid - sellAsk
      invariant WorstCost(legs[..k]) == buyAsk - sellBid
    {
      var leg := legs[k];
      if leg.bid.None? || leg.ask.None? { return None; }
      var bid, ask := leg.bid.value, leg.ask.value;
      if bid <= 0.0 || ask < bid { return None; }
      assert legs[..k + 1][..k] == legs[..k];
      if leg.side.Buy? {
        buyBid, buyAsk := buyBid + bid, buyAsk + ask;
      } else {
        sellBid, sellAsk := sellBid + bid, sellAsk + ask;
      }
    }
    assert legs[..|legs|] == legs;
    var costMin := buyBid - sellAsk;
    var costMax := buyAsk - sellBid;
    r := Some(CostRange(costMin, costMax, costMax - costMin));
  }

  method SumLegSpreadsShare(legs: seq<Leg>) returns (r: Option<real>)
    ensures r.Some? <==> legs != [] && AllQuoted(legs)
    ensures r.Some? ==> r.value == SpreadSum(legs)
  {
    if legs == [] { return None; }
    var total := 0.0;
    for k := 0 to |legs|
      invariant AllQuoted(legs[..k]) && total == SpreadSum(legs[..k])
    {
      var leg := legs[k];
      if leg.bid.None? || leg.ask.None? { return None; }
      if leg.bid.value <= 0.0 || leg.ask.value < leg.bid.value { return None; }
      assert legs[..k + 1][..k] == legs[..k];
      total := total + (leg.ask.value - leg.bid.value);
    }
    assert legs[..|legs|] == legs;
    r := Some(total);
  }

  /** A leg's price for repricing: its mid, else its premium; a mid of zero is
      taken for a missing one. */
  function RepricePremium(leg: Leg): real {
    if leg.mid in {None, Some(0.0)} then leg.premium else leg.mid.value
  }

  function RepriceSum(legs: seq<Leg>): real {
    if legs == [] then 0.0
    else RepriceSum(legs[..|legs| - 1]) + Signed(legs[|legs| - 1].side, RepricePremium(legs[|legs| - 1]))
  }

  method RepriceTotalCostFromLegs(legs: seq<Leg>) returns (r: Option<real>)
    ensures r.Some? <==> legs != [] && forall i | 0 <= i < |legs| ::
              if legs[i].mid.Some? && legs[i].mid.value != 0.0 then legs[i].mid.value > 0.0 else legs[i].premium > 0.0
    ensures r.Some? ==> r.value == RepriceSum(legs)
  {
    if legs == [] { return None; }
    var total := 0.0;
    for k := 0 to |legs|
      invariant total == RepriceSum(legs[..k])
      invariant forall i | 0 <= i < k :: RepricePremium(legs[i]) > 0.0
    {
      var premium := RepricePremium(legs[k]);
      if premium <= 0.0 { return None; }
      assert legs[..k + 1][..k] == legs[..k];
      if legs[k].side.Buy? { total := total + premium; } else { total := total - premium; }
    }
    assert legs[..|legs|] == legs;
    r := Some(total);
  }

  /** Legs without a mid reprice to what the selectors make of their premiums. */
  lemma {:induction false} WithoutMids(legs: seq<Leg>)
    requires forall i | 0 <= i < |legs| :: legs[i].mid.None? || legs[i].mid == Some(0.0)
    ensures RepriceSum(legs) == TotalCost(legs)
  {
    if legs != [] {
      var front := legs[..|legs| - 1];
      assert forall i | 0 <= i < |front| :: front[i] == legs[i];
      WithoutMids(front);
    }
  }

  /** A leg as the selectors build it from a valid quote. */
  predicate PricedFromQuote(leg: Leg) {
    && Quoted(leg)
    && leg.premium == DirectionalPrice(leg.bid.value, leg.ask.value, leg.side)
    && leg.mid == Some((leg.bid.value + leg.ask.value) / 2.0)
  }

  /** For legs priced from valid quotes the four figures agree: the directional
      total is the worst cost, the mid reprice succeeds and is the middle of the
      range, and the range is as wide as the legs' spreads together. */
  lemma {:induction false} FiguresAgree(legs: seq<Leg>)
    requires forall i | 0 <= i < |legs| :: PricedFromQuote(legs[i])
    ensures AllQuoted(legs)
    ensures TotalCost(legs) == WorstCost(legs)
    ensures RepriceSum(legs) == (BestCost(legs) + WorstCost(legs)) / 2.0
    ensures WorstCost(legs) - BestCost(legs) == SpreadSum(legs) >= 0.0
    ensures forall i | 0 <= i < |legs| :: RepricePremium(legs[i]) > 0.0
  {
    if legs != [] {
      var front := legs[..|legs| - 1];
      assert forall i | 0 <= i < |front| :: front[i] == legs[i];
      FiguresAgree(front);
      assert PricedFromQuote(legs[|legs| - 1]);
    }
  }

  ghost predicate QuotedChain(cands: seq<Contract>) {
    forall c | c in cands :: ValidNbbo(c.bid, c.ask)
  }

  lemma MadeLegIsPriced(c: Contract, d: LegSelection.LegDef)
    requires ValidNbbo(c.bid, c.ask)
    ensures PricedFromQuote(LegSelection.MakeLeg(c, d))
  {
  }

  lemma SelectedLegIsPriced(
    calls: seq<Contract>, puts: seq<Contract>, defs: seq<LegSelection.LegDef>, price: real, i: nat)
    requires QuotedChain(calls) && QuotedChain(puts) && i < |LegSelection.LegsFor(calls, puts, defs, price)|
    ensures PricedFromQuote(LegSelection.LegsFor(calls, puts, defs, price)[i])
  {
    var leg := LegSelection.LegsFor(calls, puts, defs, price)[i];
    LegSelection.LegsComeFromChain(calls, puts, defs, price, i);
    var c, k :| 0 <= k < |defs| && c in LegSelection.Candidates(calls, puts, defs[k])
                && leg == LegSelection.MakeLeg(c, defs[k]);
    MadeLegIsPriced(c, defs[k]);
  }

  /** On a quoted chain the selector's legs are priced so, and its running total
      is the worst cost of the legs it returns. */
  lemma SelectionCostsWorst(calls: seq<Contract>, puts: seq<Contract>, defs: seq<LegSelection.LegDef>, price: real)
    requires QuotedChain(calls) && QuotedChain(puts)
    ensures var legs := LegSelection.LegsFor(calls, puts, defs, price);
            && (forall i | 0 <= i < |legs| :: PricedFromQuote(legs[i]))
            && AllQuoted(legs) && TotalCost(legs) == WorstCost(legs)
  {
    var legs := LegSelection.LegsFor(calls, puts, defs, price);
    forall i | 0 <= i < |legs| ensures PricedFromQuote(legs[i]) {
      SelectedLegIsPriced(calls, puts, defs, price, i);
    }
    FiguresAgree(legs);
  }
}
