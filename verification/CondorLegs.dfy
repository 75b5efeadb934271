/** Building one iron condor for a target delta and a wing width. */
module CondorLegs {
  import opened Common
  import opened OptionTypes
  import opened RiskPrimitives
  import ComboCost

  datatype Quad = Quad(shortPut: Contract, longPut: Contract, shortCall: Contract, longCall: Contract)

  function DeltaGap(c: Contract, target: real): real {
    Abs(Abs(OrElse(c.delta, 0.0)) - target)
  }

  function DeltaGaps(cands: seq<Contract>, target: real): (gaps: seq<real>)
    ensures |gaps| == |cands|
  {
    seq(|cands|, i requires 0 <= i < |cands| => DeltaGap(cands[i], target))
  }

  predicate Beyond(c: Contract, short: Contract, right: Right) {
    if right.Call? then c.strike > short.strike else c.strike < short.strike
  }

  /** The contracts strictly further out of the money than the short. */
  function Wing(cands: seq<Contract>, short: Contract, right: Right): seq<Contract> {
    if cands == [] then []
    else
      var last := cands[|cands| - 1];
      Wing(cands[..|cands| - 1], short, right) + (if Beyond(last, short, right) then [last] else [])
  }

  lemma {:induction false} WingMembers(cands: seq<Contract>, short: Contract, right: Right, c: Contract)
    ensures c in Wing(cands, short, right) <==> c in cands && Beyond(c, short, right)
  {
    if cands != [] {
      WingMembers(cands[..|cands| - 1], short, right, c);
      assert cands == cands[..|cands| - 1] + [cands[|cands| - 1]];
    }
  }

  function ShortOf(cands: seq<Contract>, target: real): Contract
    requires cands != []
  {
    cands[FirstMin(DeltaGaps(cands, target))]
  }

  function LongStrike(short: Contract, width: real, right: Right): real {
    if right.Call? then short.strike + width else short.strike - width
  }

  function LongOf(wing: seq<Contract>, short: Contract, width: real, right: Right): Contract
    requires wing != []
  {
    wing[FirstMin(StrikeGaps(wing, LongStrike(short, width, right)))]
  }

  function PickQuad(calls: seq<Contract>, puts: seq<Contract>, target: real, width: real): Option<Quad> {
    if calls == [] || puts == [] then None
    else
      var (sc, sp) := (ShortOf(calls, target), ShortOf(puts, target));
      var (wc, wp) := (Wing(calls, sc, Call), Wing(puts, sp, Put));
      if wc == [] || wp == [] then None
      else Some(Quad(sp, LongOf(wp, sp, width, Put), sc, LongOf(wc, sc, width, Call)))
  }

  lemma ShortIsClosest(cands: seq<Contract>, target: real, c: Contract)
    requires c in cands
    ensures ShortOf(cands, target) in cands
    ensures DeltaGap(ShortOf(cands, target), target) <= DeltaGap(c, target)
  {
    var gaps := DeltaGaps(cands, target);
    FirstMinIsFirst(gaps);
    var i :| 0 <= i < |cands| && cands[i] == c;
    assert gaps[FirstMin(gaps)] <= gaps[i];
  }

  lemma LongIsClosest(cands: seq<Contract>, short: Contract, width: real, right: Right, c: Contract)
    requires c in cands && Beyond(c, short, right)
    ensures Wing(cands, short, right) != []
    ensures var long := LongOf(Wing(cands, short, right), short, width, right);
            && long in cands && Beyond(long, short, right)
            && Abs(long.strike - LongStrike(short, width, right)) <= Abs(c.strike - LongStrike(short, width, right))
  {
    var wing := Wing(cands, short, right);
    WingMembers(cands, short, right, c);
    var long := LongOf(wing, short, width, right);
    WingMembers(cands, short, right, long);
    NearestStrike(wing, LongStrike(short, width, right), c);
  }

  lemma WingEmptyIff(cands: seq<Contract>, short: Contract, right: Right)
    ensures Wing(cands, short, right) == [] <==> forall c | c in cands :: !Beyond(c, short, right)
  {
    var wing := Wing(cands, short, right);
    forall c | c in cands ensures c in wing <==> Beyond(c, short, right) {
      WingMembers(cands, short, right, c);
    }
    if wing != [] {
      WingMembers(cands, short, right, wing[0]);
      assert wing[0] in cands && Beyond(wing[0], short, right);
    }
  }

  /** What the constructor picks: the shorts nearest the target delta in the
      whole chain, the longs nearest the wing strike among those strictly
      further out; and it picks nothing exactly when a side has no such long. */
  lemma QuadIsClosest(calls: seq<Contract>, puts: seq<Contract>, target: real, width: real, c: Contract)
    requires PickQuad(calls, puts, target, width).Some?
    ensures var q := PickQuad(calls, puts, target, width).value;
            && q.shortCall in calls && q.longCall in calls && q.shortPut in puts && q.longPut in puts
            && q.longPut.strike < q.shortPut.strike && q.shortCall.strike < q.longCall.strike
            && (c in calls ==> Abs(DeltaSize(q.shortCall) - target) <= Abs(DeltaSize(c) - target))
            && (c in puts ==> Abs(DeltaSize(q.shortPut) - target) <= Abs(DeltaSize(c) - target))
            && (c in calls && c.strike > q.shortCall.strike ==>
                  Abs(q.longCall.strike - (q.shortCall.strike + width)) <= Abs(c.strike - (q.shortCall.strike + width)))
            && (c in puts && c.strike < q.shortPut.strike ==>
                  Abs(q.longPut.strike - (q.shortPut.strike - width)) <= Abs(c.strike - (q.shortPut.strike - width)))
  {
    var q := PickQuad(calls, puts, target, width).value;
    ShortIsClosest(calls, target, calls[0]);
    ShortIsClosest(puts, target, puts[0]);
    WingMembers(calls, q.shortCall, Call, q.longCall);
    WingMembers(puts, q.shortPut, Put, q.longPut);
    if c in calls {
      ShortIsClosest(calls, target, c);
      if c.strike > q.shortCall.strike { LongIsClosest(calls, q.shortCall, width, Call, c); }
    }
    if c in puts {
      ShortIsClosest(puts, target, c);
      if c.strike < q.shortPut.strike { LongIsClosest(puts, q.shortPut, width, Put, c); }
    }
  }

  /** A leg of the condor; built only from a valid quote. */
  function CondorLeg(c: Contract, side: Side, hint: Right): Leg
    requires ValidNbbo(c.bid, c.ask)
  {
    Leg(c.symbol, c.strike, c.expiry, if c.right.Some? then c.right.value else hint, side,
        DirectionalPrice(c.bid.value, c.ask.value, side), OrElse(c.delta, 0.0), c.bid, c.ask,
        Some((c.bid.value + c.ask.value) / 2.0))
  }

  function Selected(q: Quad): seq<(Contract, Side, Right)> {
    [(q.shortPut, Sell, Put), (q.longPut, Buy, Put), (q.shortCall, Sell, Call), (q.longCall, Buy, Call)]
  }

  predicate QuotedQuad(q: Quad) {
    && ValidNbbo(q.shortPut.bid, q.shortPut.ask) && ValidNbbo(q.longPut.bid, q.longPut.ask)
    && ValidNbbo(q.shortCall.bid, q.shortCall.ask) && ValidNbbo(q.longCall.bid, q.longCall.ask)
  }

  function QuadLegs(q: Quad): seq<Leg>
    requires QuotedQuad(q)
  {
    [CondorLeg(q.shortPut, Sell, Put), CondorLeg(q.longPut, Buy, Put),
     CondorLeg(q.shortCall, Sell, Call), CondorLeg(q.longCall, Buy, Call)]
  }

  function SelectLegs(calls: seq<Contract>, puts: seq<Contract>, target: real, width: real): (r: Option<seq<Leg>>)
    ensures r.Some? ==> |r.value| == 4
  {
    var q := PickQuad(calls, puts, target, width);
    if q.Some? && QuotedQuad(q.value) then Some(QuadLegs(q.value)) else None
  }

  predicate QuotedFirst(selected: seq<(Contract, Side, Right)>, k: nat)
    requires k <= |selected|
  {
    k == 0 || (QuotedFirst(selected, k - 1) && ValidNbbo(selected[k - 1].0.bid, selected[k - 1].0.ask))
  }

  function LegsOf(selected: seq<(Contract, Side, Right)>, k: nat): seq<Leg>
    requires k <= |selected| && QuotedFirst(selected, k)
  {
    if k == 0 then []
    else
      var (contract, side, hint) := selected[k - 1];
      LegsOf(selected, k - 1) + [CondorLeg(contract, side, hint)]
  }

  lemma {:induction false} QuotedUpto(selected: seq<(Contract, Side, Right)>, j: nat, k: nat)
    requires j <= k <= |selected| && QuotedFirst(selected, k)
    ensures QuotedFirst(selected, j)
  {
    if j < k { QuotedUpto(selected, j, k - 1); }
  }

  lemma QuadIsSelected(q: Quad)
    ensures QuotedQuad(q) <==> QuotedFirst(Selected(q), 4)
    ensures QuotedQuad(q) ==> QuadLegs(q) == LegsOf(Selected(q), 4)
  {
    var selected := Selected(q);
    assert QuotedFirst(selected, 1) <==> ValidNbbo(q.shortPut.bid, q.shortPut.ask);
    assert QuotedFirst(selected, 2) <==> QuotedFirst(selected, 1) && ValidNbbo(q.longPut.bid, q.longPut.ask);
    assert QuotedFirst(selected, 3) <==> QuotedFirst(selected, 2) && ValidNbbo(q.shortCall.bid, q.shortCall.ask);
    if QuotedQuad(q) {
      assert LegsOf(selected, 1) == QuadLegs(q)[..1];
      assert LegsOf(selected, 2) == QuadLegs(q)[..2];
      assert LegsOf(selected, 3) == QuadLegs(q)[..3];
    }
  }

  /** The pricing loop: all four legs, or none when a quote is missing. */
  method PriceLegs(q: Quad) returns (legs: seq<Leg>, totalCost: real)
    ensures legs == (if QuotedQuad(q) then QuadLegs(q) else [])
    ensures totalCost == TotalCost(legs)
  {
    var selected := Selected(q);
    QuadIsSelected(q);
    legs, totalCost := [], 0.0;
    for k := 0 to 4
      invariant QuotedFirst(selected, k) && legs == LegsOf(selected, k) && totalCost == TotalCost(legs)
    {
      var (contract, side, hint) := selected[k];
      if !ValidNbbo(contract.bid, contract.ask) {
        if QuotedQuad(q) { QuotedUpto(selected, k + 1, 4); }
        return [], 0.0;
      }
      var mid := (contract.bid.value + contract.ask.value) / 2.0;
      if mid <= 0.0 { return [], 0.0; }
      var leg := CondorLeg(contract, side, hint);
      TotalCostAppend(legs, leg);
      legs := legs + [leg];
      totalCost := if side.Buy? then totalCost + leg.premium else totalCost - leg.premium;
    }
  }

  method SelectIronCondorLegsParam(calls: seq<Contract>, puts: seq<Contract>, target: real, width: real)
    returns (legs: seq<Leg>, totalCost: real)
    ensures var r := SelectLegs(calls, puts, target, width);
            && legs == (if r.Some? then r.value else [])
            && totalCost == TotalCost(legs)
  {
    if calls == [] || puts == [] { return [], 0.0; }
    var shortCall, shortPut := ShortOf(calls, target), ShortOf(puts, target);
    var validLongCalls, validLongPuts := Wing(calls, shortCall, Call), Wing(puts, shortPut, Put);
    if validLongCalls == [] || validLongPuts == [] { return [], 0.0; }
    var longCall := LongOf(validLongCalls, shortCall, width, Call);
    var longPut := LongOf(validLongPuts, shortPut, width, Put);
    WingMembers(calls, shortCall, Call, longCall);
    WingMembers(puts, shortPut, Put, longPut);
    if longCall.strike <= shortCall.strike || longPut.strike >= shortPut.strike { return [], 0.0; }
    legs, totalCost := PriceLegs(Quad(shortPut, longPut, shortCall, longCall));
  }

  predicate Typed(c: Contract, right: Right) {
    c.right.None? || c.right.value == right
  }

  /** On a chain whose contracts carry no other type, a constructed condor can
      fail its four-leg check only on a repeated symbol, mixed expiries, or
      shorts that touch or cross. */
  lemma InvariantsOfSelected(q: Quad)
    requires QuotedQuad(q) && q.longPut.strike < q.shortPut.strike && q.shortCall.strike < q.longCall.strike
    requires Typed(q.shortPut, Put) && Typed(q.longPut, Put) && Typed(q.shortCall, Call) && Typed(q.longCall, Call)
    ensures ValidCondor(QuadLegs(q)) <==>
            && |{q.shortPut.symbol, q.longPut.symbol, q.shortCall.symbol, q.longCall.symbol}| == 4
            && q.shortPut.expiry == q.longPut.expiry == q.shortCall.expiry == q.longCall.expiry
            && q.shortPut.strike < q.shortCall.strike
  {
    var legs := QuadLegs(q);
    var a, b, c, d := legs[0], legs[1], legs[2], legs[3];
    assert (set i | 0 <= i < |legs| :: legs[i].symbol) == {a.symbol, b.symbol, c.symbol, d.symbol};
    var expiries := set i | 0 <= i < |legs| :: legs[i].expiry;
    assert expiries == {a.expiry, b.expiry, c.expiry, d.expiry};
    OneElement(a.expiry, b.expiry, c.expiry, d.expiry);
    SplitByRight(a, b, c, d);
  }

  /** What a condor costs: its longs at their asks less its shorts at their bids;
      and it is priced as the cost helpers assume. */
  lemma QuadCost(q: Quad)
    requires QuotedQuad(q)
    ensures TotalCost(QuadLegs(q)) ==
            q.longPut.ask.value + q.longCall.ask.value - q.shortPut.bid.value - q.shortCall.bid.value
    ensures forall i | 0 <= i < 4 :: ComboCost.PricedFromQuote(QuadLegs(q)[i])
    ensures ComboCost.AllQuoted(QuadLegs(q)) && TotalCost(QuadLegs(q)) == ComboCost.WorstCost(QuadLegs(q))
  {
    var legs := QuadLegs(q);
    var l1, l2, l3 := legs[..3], legs[..2], legs[..1];
    assert l1[..2] == l2 && l2[..1] == l3 && l3[..0] == [];
    assert TotalCost(l3) == -q.shortPut.bid.value;
    assert TotalCost(l2) == TotalCost(l3) + q.longPut.ask.value;
    assert TotalCost(l1) == TotalCost(l2) - q.shortCall.bid.value;
    assert TotalCost(legs) == TotalCost(l1) + q.longCall.ask.value;
    ComboCost.FiguresAgree(legs);
  }

  lemma OneElement(a: string, b: string, c: string, d: string)
    ensures |{a, b, c, d}| == 1 <==> a == b == c == d
  {
    if a == b == c == d {
      assert {a, b, c, d} == {a};
    } else {
      var x := if b != a then b else if c != a then c else d;
      SubsetSize({a, x}, {a, b, c, d});
    }
  }

  lemma OfRightCons(l: Leg, rest: seq<Leg>, right: Right)
    ensures OfRight([l] + rest, right) == (if l.right == right then [l] else []) + OfRight(rest, right)
  {
    assert ([l] + rest)[1..] == rest;
  }

  lemma SplitByRight(a: Leg, b: Leg, c: Leg, d: Leg)
    requires a.right == Put && b.right == Put && c.right == Call && d.right == Call
    ensures OfRight([a, b, c, d], Put) == [a, b] && OfRight([a, b, c, d], Call) == [c, d]
  {
    assert [a, b, c, d] == [a] + ([b] + ([c] + ([d] + [])));
    OfRightCons(a, [b] + ([c] + ([d] + [])), Put);
    OfRightCons(b, [c] + ([d] + []), Put);
    OfRightCons(c, [d] + [], Put);
    OfRightCons(d, [], Put);
    OfRightCons(a, [b] + ([c] + ([d] + [])), Call);
    OfRightCons(b, [c] + ([d] + []), Call);
    OfRightCons(c, [d] + [], Call);
    OfRightCons(d, [], Call);
  }
}
