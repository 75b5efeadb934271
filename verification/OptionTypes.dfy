/** Contracts, legs, and the choice of the first smallest element. */
module OptionTypes {
  import opened Common

  datatype Side = Buy | Sell

  datatype Right = Call | Put | OtherRight

  datatype Contract = Contract(
    symbol: string, strike: real, expiry: string, right: Option<Right>,
    delta: Option<real>, bid: Option<real>, ask: Option<real>, premium: Option<real>)

  datatype Leg = Leg(
    symbol: string, strike: real, expiry: string, right: Right, side: Side,
    premium: real, delta: real, bid: Option<real>, ask: Option<real>, mid: Option<real>)

  /** `_is_valid_nbbo`: a two-sided, uncrossed quote. */
  predicate ValidNbbo(bid: Option<real>, ask: Option<real>) {
    bid.Some? && ask.Some? && bid.value > 0.0 && ask.value > 0.0 && ask.value >= bid.value
  }

  /** `x or fallback` for a number that may be missing: zero is falsy. */
  function OrElse(x: Option<real>, fallback: real): real {
    if x.Some? && x.value != 0.0 then x.value else fallback
  }

  /** The size of a contract's delta; a missing one counts as zero. */
  function DeltaSize(c: Contract): real {
    if c.delta.Some? then Abs(c.delta.value) else 0.0
  }

  /** Buy at the ask, sell at the bid. */
  function DirectionalPrice(bid: real, ask: real, side: Side): real {
    if side.Sell? then bid else ask
  }

  /** What a leg adds to the cost of the position. */
  function Signed(side: Side, amount: real): real {
    if side.Buy? then amount else -amount
  }

  function TotalCost(legs: seq<Leg>): real {
    if legs == [] then 0.0
    else TotalCost(legs[..|legs| - 1]) + Signed(legs[|legs| - 1].side, legs[|legs| - 1].premium)
  }

  lemma TotalCostAppend(legs: seq<Leg>, leg: Leg)
    ensures TotalCost(legs + [leg]) == TotalCost(legs) + Signed(leg.side, leg.premium)
  {
    assert (legs + [leg])[..|legs|] == legs;
  }

  /** Python's `min(xs, key=...)`: the first index with the smallest key. */
  function FirstMin(keys: seq<real>): (best: nat)
    requires keys != []
    ensures best < |keys|
  {
    if |keys| == 1 then 0
    else
      var last := |keys| - 1;
      var b := FirstMin(keys[..last]);
      if keys[last] < keys[b] then last else b
  }

  lemma {:induction false} FirstMinIsFirst(keys: seq<real>)
    requires keys != []
    ensures forall i | 0 <= i < |keys| :: keys[FirstMin(keys)] <= keys[i]
    ensures forall i | 0 <= i < FirstMin(keys) :: keys[FirstMin(keys)] < keys[i]
  {
    if |keys| > 1 {
      var front := keys[..|keys| - 1];
      FirstMinIsFirst(front);
      assert forall i | 0 <= i < |front| :: front[i] == keys[i];
    }
  }

  /** Two key lists that cannot tell each other's first smallest apart have the
      same one. */
  lemma SameFirst(a: seq<real>, b: seq<real>)
    requires a != [] && |a| == |b|
    requires a[FirstMin(a)] == a[FirstMin(b)] && b[FirstMin(a)] == b[FirstMin(b)]
    ensures FirstMin(a) == FirstMin(b)
  {
    FirstMinIsFirst(a);
    FirstMinIsFirst(b);
  }

  function StrikeGaps(cands: seq<Contract>, k: real): (gaps: seq<real>)
    ensures |gaps| == |cands|
  {
    seq(|cands|, i requires 0 <= i < |cands| => Abs(cands[i].strike - k))
  }

  lemma NearestStrike(cands: seq<Contract>, k: real, c: Contract)
    requires c in cands
    ensures Abs(cands[FirstMin(StrikeGaps(cands, k))].strike - k) <= Abs(c.strike - k)
  {
    var gaps := StrikeGaps(cands, k);
    FirstMinIsFirst(gaps);
    var i :| 0 <= i < |cands| && cands[i] == c;
    assert gaps[FirstMin(gaps)] <= gaps[i];
  }
}
