/** Selecting legs from a strike-sorted chain: drop the contracts without a
    delta, bisect for the target, and take the nearer of two neighbours; or fall
    back to moneyness when a type has no deltas at all. */
module LegSelection {
  import opened Common
  import opened OptionTypes

  datatype LegDef = LegDef(deltaTarget: real, side: Side, right: Right)

  /** `bisect_left`: where `target` would be inserted before equal keys. */
  function BisectLeft(keys: seq<real>, target: real, lo: nat, hi: nat): (idx: nat)
    requires lo <= hi <= |keys|
    ensures lo <= idx <= hi
    decreases hi - lo
  {
    if lo == hi then lo
    else
      var mid := (lo + hi) / 2;
      if keys[mid] < target then BisectLeft(keys, target, mid + 1, hi)
      else BisectLeft(keys, target, lo, mid)
  }

  ghost predicate Ascending(keys: seq<real>) {
    forall i, j | 0 <= i <= j < |keys| :: keys[i] <= keys[j]
  }

  lemma {:induction false} BisectSplits(keys: seq<real>, target: real, lo: nat, hi: nat)
    requires lo <= hi <= |keys| && Ascending(keys)
    requires forall i | 0 <= i < lo :: keys[i] < target
    requires forall i | hi <= i < |keys| :: target <= keys[i]
    ensures var idx := BisectLeft(keys, target, lo, hi);
            && (forall i | 0 <= i < idx :: keys[i] < target)
            && (forall i | idx <= i < |keys| :: target <= keys[i])
    decreases hi - lo
  {
    if lo < hi {
      var mid := (lo + hi) / 2;
      if keys[mid] < target {
        BisectSplits(keys, target, mid + 1, hi);
      } else {
        BisectSplits(keys, target, lo, mid);
      }
    }
  }

  // ---- the delta branch ----------------------------------------------------

  function AbsDelta(c: Contract): real {
    Abs(OrElse(c.delta, 0.0))
  }

  /** Calls are negated so that both types ascend with the strike. */
  function SortKey(right: Right, c: Contract): real {
    if right.Call? then -AbsDelta(c) else AbsDelta(c)
  }

  function SortKeys(right: Right, cands: seq<Contract>): (keys: seq<real>)
    ensures |keys| == |cands|
  {
    seq(|cands|, i requires 0 <= i < |cands| => SortKey(right, cands[i]))
  }

  function Distance(c: Contract, target: real): real {
    Abs(AbsDelta(c) - Abs(target))
  }

  /** The better of the element left of the insertion point and the one at it,
      the left one on a tie. */
  function Nearer(cands: seq<Contract>, idx: nat, target: real): (best: nat)
    requires cands != [] && idx <= |cands|
    ensures best < |cands|
  {
    if idx == 0 then 0
    else if idx == |cands| then idx - 1
    else if Distance(cands[idx], target) < Distance(cands[idx - 1], target) then idx
    else idx - 1
  }

  function Goal(right: Right, target: real): real {
    if right.Call? then -Abs(target) else Abs(target)
  }

  function ClosestByDelta(right: Right, cands: seq<Contract>, target: real): (best: nat)
    requires cands != []
    ensures best < |cands|
  {
    Nearer(cands, BisectLeft(SortKeys(right, cands), Goal(right, target), 0, |cands|), target)
  }

  /** The premise of the bisection: deltas are monotone in the strike. */
  ghost predicate DeltaMonotone(right: Right, cands: seq<Contract>) {
    forall i, j | 0 <= i <= j < |cands| ::
      if right.Call? then AbsDelta(cands[i]) >= AbsDelta(cands[j]) else AbsDelta(cands[i]) <= AbsDelta(cands[j])
  }

  /** A key between another and the goal is at least as close. */
  lemma NearerKey(right: Right, far: Contract, near: Contract, target: real)
    requires var goal := Goal(right, target);
             var (f, n) := (SortKey(right, far), SortKey(right, near));
             f <= n <= goal || goal <= n <= f
    ensures Distance(near, target) <= Distance(far, target)
  {
  }

  lemma KeysAscend(right: Right, cands: seq<Contract>)
    requires DeltaMonotone(right, cands)
    ensures Ascending(SortKeys(right, cands))
  {
  }

  lemma NearerOfTwo(cands: seq<Contract>, idx: nat, target: real)
    requires cands != [] && idx <= |cands|
    ensures var chosen := Distance(cands[Nearer(cands, idx, target)], target);
            && (idx > 0 ==> chosen <= Distance(cands[idx - 1], target))
            && (idx < |cands| ==> chosen <= Distance(cands[idx], target))
  {
  }

  /** On monotone deltas the two-neighbour choice is as close to the target as
      any contract in the list: the binary search replaces the linear scan. */
  lemma ClosestAttainsMinimum(right: Right, cands: seq<Contract>, target: real, i: nat)
    requires cands != [] && DeltaMonotone(right, cands) && i < |cands|
    ensures Distance(cands[ClosestByDelta(right, cands, target)], target) <= Distance(cands[i], target)
  {
    var keys := SortKeys(right, cands);
    var goal := Goal(right, target);
    KeysAscend(right, cands);
    BisectSplits(keys, goal, 0, |cands|);
    var idx := BisectLeft(keys, goal, 0, |cands|);
    NearerOfTwo(cands, idx, target);
    if i < idx {
      assert keys[i] <= keys[idx - 1] < goal;
      NearerKey(right, cands[i], cands[idx - 1], target);
    } else {
      assert goal <= keys[idx] <= keys[i];
      NearerKey(right, cands[i], cands[idx], target);
    }
  }

  /** Of two different deltas equally close, one on either side of the target, the
      one that comes first by strike is taken. */
  lemma TieGoesLeft(right: Right, cands: seq<Contract>, target: real, i: nat)
    requires cands != [] && DeltaMonotone(right, cands) && i < |cands|
    requires var best := cands[ClosestByDelta(right, cands, target)];
             Distance(cands[i], target) == Distance(best, target) && AbsDelta(cands[i]) != AbsDelta(best)
    ensures ClosestByDelta(right, cands, target) < i
  {
    var keys := SortKeys(right, cands);
    var goal := Goal(right, target);
    KeysAscend(right, cands);
    BisectSplits(keys, goal, 0, |cands|);
    var idx := BisectLeft(keys, goal, 0, |cands|);
    if i < idx {
      assert keys[i] <= keys[idx - 1] < goal;
      NearerKey(right, cands[i], cands[idx - 1], target);
    }
  }

  /** On any list, what the bisection has compared: the key left of where it
      ends is smaller than the target, and the key it ends at is not. */
  lemma {:induction false} BisectCompared(keys: seq<real>, target: real, lo: nat, hi: nat)
    requires lo <= hi <= |keys|
    ensures var idx := BisectLeft(keys, target, lo, hi);
            && (lo < idx ==> keys[idx - 1] < target)
            && (idx < hi ==> target <= keys[idx])
    decreases hi - lo
  {
    if lo < hi {
      var mid := (lo + hi) / 2;
      if keys[mid] < target {
        BisectCompared(keys, target, mid + 1, hi);
      } else {
        BisectCompared(keys, target, lo, mid);
      }
    }
  }

  /** On any list, a greater target is never inserted earlier. */
  lemma {:induction false} BisectGrows(keys: seq<real>, t1: real, t2: real, lo: nat, hi: nat)
    requires lo <= hi <= |keys| && t1 <= t2
    ensures BisectLeft(keys, t1, lo, hi) <= BisectLeft(keys, t2, lo, hi)
    decreases hi - lo
  {
    if lo < hi {
      var mid := (lo + hi) / 2;
      if keys[mid] < t1 {
        BisectGrows(keys, t1, t2, mid + 1, hi);
      } else if keys[mid] >= t2 {
        BisectGrows(keys, t1, t2, lo, mid);
      }
    }
  }

  ghost predicate DistinctDeltas(cands: seq<Contract>) {
    forall i, j | 0 <= i < j < |cands| :: AbsDelta(cands[i]) != AbsDelta(cands[j])
  }

  /** The choice attains the minimum for every target. */
  ghost predicate AlwaysClosest(right: Right, cands: seq<Contract>)
    requires cands != []
  {
    forall target, i | 0 <= i < |cands| ::
      Distance(cands[ClosestByDelta(right, cands, target)], target) <= Distance(cands[i], target)
  }

  /** If so, each distinct key is inserted at its own place. */
  lemma KeyFindsItself(right: Right, cands: seq<Contract>, k: nat)
    requires cands != [] && DistinctDeltas(cands) && AlwaysClosest(right, cands) && k < |cands|
    ensures BisectLeft(SortKeys(right, cands), SortKey(right, cands[k]), 0, |cands|) == k
  {
    var target := AbsDelta(cands[k]);
    assert Goal(right, target) == SortKey(right, cands[k]);
    assert Distance(cands[k], target) == 0.0;
    assert AbsDelta(cands[ClosestByDelta(right, cands, target)]) == AbsDelta(cands[k]);
    BisectCompared(SortKeys(right, cands), Goal(right, target), 0, |cands|);
  }

  /** For distinct deltas the two-neighbour choice is right for every target
      exactly when the deltas are monotone in the strike. */
  lemma AlwaysClosestIff(right: Right, cands: seq<Contract>)
    requires cands != [] && DistinctDeltas(cands)
    ensures AlwaysClosest(right, cands) <==> DeltaMonotone(right, cands)
  {
    if DeltaMonotone(right, cands) {
      forall target, i | 0 <= i < |cands|
        ensures Distance(cands[ClosestByDelta(right, cands, target)], target) <= Distance(cands[i], target)
      {
        ClosestAttainsMinimum(right, cands, target, i);
      }
    }
    if AlwaysClosest(right, cands) {
      forall i, j | 0 <= i < j < |cands| ensures SortKey(right, cands[i]) <= SortKey(right, cands[j]) {
        KeyFindsItself(right, cands, i);
        KeyFindsItself(right, cands, j);
        if SortKey(right, cands[j]) < SortKey(right, cands[i]) {
          BisectGrows(SortKeys(right, cands), SortKey(right, cands[j]), SortKey(right, cands[i]), 0, |cands|);
        }
      }
    }
  }

  // ---- null deltas ---------------------------------------------------------

  function DeltaBearing(cands: seq<Contract>): seq<Contract> {
    if cands == [] then []
    else
      var last := cands[|cands| - 1];
      DeltaBearing(cands[..|cands| - 1]) + (if last.delta.Some? then [last] else [])
  }

  lemma {:induction false} DeltaBearingMembers(cands: seq<Contract>, c: Contract)
    ensures c in DeltaBearing(cands) <==> c in cands && c.delta.Some?
  {
    if cands != [] {
      DeltaBearingMembers(cands[..|cands| - 1], c);
      assert cands == cands[..|cands| - 1] + [cands[|cands| - 1]];
    }
  }

  ghost predicate StrikeSorted(cands: seq<Contract>) {
    forall i, j | 0 <= i <= j < |cands| :: cands[i].strike <= cands[j].strike
  }

  /** Dropping contracts keeps the strike order. */
  lemma {:induction false} FilterKeepsStrikeOrder(cands: seq<Contract>)
    requires StrikeSorted(cands)
    ensures StrikeSorted(DeltaBearing(cands))
  {
    if cands != [] {
      var front := cands[..|cands| - 1];
      FilterKeepsStrikeOrder(front);
      var kept, last := DeltaBearing(front), cands[|cands| - 1];
      forall i | 0 <= i < |kept| ensures kept[i].strike <= last.strike {
        DeltaBearingMembers(front, kept[i]);
      }
    }
  }

  // ---- the moneyness branch ------------------------------------------------

  function Moneyness(d: LegDef): real {
    if d.right.Call? then
      if d.deltaTarget > 0.5 then 0.95 else if d.deltaTarget < 0.5 then 1.05 else 1.0
    else
      if d.deltaTarget > 0.5 then 1.05 else if d.deltaTarget < 0.5 then 0.95 else 1.0
  }

  /** The strike aimed at when there is no delta to go by. */
  function MoneynessStrike(d: LegDef, price: real): real {
    price * Moneyness(d)
  }

  // ---- one leg -------------------------------------------------------------

  function Candidates(calls: seq<Contract>, puts: seq<Contract>, d: LegDef): seq<Contract> {
    if d.right.Call? then calls else puts
  }

  /** The list searched: the delta-bearing contracts, if there are any. */
  function Pool(cands: seq<Contract>): (pool: seq<Contract>)
    ensures cands != [] ==> pool != []
  {
    var bearing := DeltaBearing(cands);
    if bearing != [] then bearing else cands
  }

  function Pick(pool: seq<Contract>, d: LegDef, price: real): (best: nat)
    requires pool != []
    ensures best < |pool|
  {
    if pool[0].delta.Some? then ClosestByDelta(d.right, pool, d.deltaTarget)
    else FirstMin(StrikeGaps(pool, MoneynessStrike(d, price)))
  }

  function Choose(cands: seq<Contract>, d: LegDef, price: real): Contract
    requires cands != []
  {
    var pool := Pool(cands);
    pool[Pick(pool, d, price)]
  }

  ghost predicate AtLeastAsClose(a: Contract, b: Contract, target: real) {
    Distance(a, target) <= Distance(b, target)
  }

  ghost predicate StrikeAtLeastAsClose(a: Contract, b: Contract, k: real) {
    Abs(a.strike - k) <= Abs(b.strike - k)
  }

  lemma PickIsClosest(pool: seq<Contract>, d: LegDef, price: real, i: nat)
    requires pool != [] && i < |pool| && DeltaMonotone(d.right, pool)
    ensures var best := pool[Pick(pool, d, price)];
            if pool[0].delta.Some? then AtLeastAsClose(best, pool[i], d.deltaTarget)
            else StrikeAtLeastAsClose(best, pool[i], MoneynessStrike(d, price))
  {
    if pool[0].delta.Some? {
      ClosestAttainsMinimum(d.right, pool, d.deltaTarget, i);
    } else {
      NearestStrike(pool, MoneynessStrike(d, price), pool[i]);
    }
  }

  lemma PoolCases(cands: seq<Contract>, c: Contract)
    requires cands != []
    ensures c in Pool(cands) ==> c in cands && (c.delta.Some? <==> DeltaBearing(cands) != [])
    ensures c in cands && c.delta.Some? ==> c in Pool(cands)
    ensures c in cands && DeltaBearing(cands) == [] ==> c in Pool(cands)
  {
    DeltaBearingMembers(cands, c);
  }

  /** Over the whole chain, the contract chosen has a delta whenever any does,
      and then no contract with a delta is closer to the target; otherwise no
      strike is closer to the moneyness target. */
  lemma ChoiceIsClosest(cands: seq<Contract>, d: LegDef, price: real, c: Contract)
    requires c in cands && DeltaMonotone(d.right, Pool(cands))
    ensures var best := Choose(cands, d, price);
            && best in cands
            && (c.delta.Some? ==> best.delta.Some? && AtLeastAsClose(best, c, d.deltaTarget))
            && (best.delta.None? ==> StrikeAtLeastAsClose(best, c, MoneynessStrike(d, price)))
  {
    var pool := Pool(cands);
    PoolCases(cands, pool[0]);
    PoolCases(cands, Choose(cands, d, price));
    PoolCases(cands, c);
    if c in pool {
      var i :| 0 <= i < |pool| && pool[i] == c;
      PickIsClosest(pool, d, price, i);
    }
  }

  /** Directional pricing off a valid quote, else the listed premium. */
  function MakeLeg(c: Contract, d: LegDef): Leg {
    var quoted := ValidNbbo(c.bid, c.ask);
    Leg(c.symbol, c.strike, c.expiry, d.right, d.side,
        if quoted then DirectionalPrice(c.bid.value, c.ask.value, d.side) else OrElse(c.premium, 0.0),
        OrElse(c.delta, d.deltaTarget), c.bid, c.ask,
        if quoted then Some((c.bid.value + c.ask.value) / 2.0) else None)
  }

  function LegsFor(calls: seq<Contract>, puts: seq<Contract>, defs: seq<LegDef>, price: real): seq<Leg> {
    if defs == [] then []
    else
      var front, d := LegsFor(calls, puts, defs[..|defs| - 1], price), defs[|defs| - 1];
      var cands := Candidates(calls, puts, d);
      if cands == [] then front else front + [MakeLeg(Choose(cands, d, price), d)]
  }

  /** The leg was made for one of the definitions, from a contract of its type. */
  ghost predicate FromChain(calls: seq<Contract>, puts: seq<Contract>, defs: seq<LegDef>, leg: Leg) {
    exists c, k :: 0 <= k < |defs| && c in Candidates(calls, puts, defs[k]) && leg == MakeLeg(c, defs[k])
  }

  ghost predicate NoneSkipped(calls: seq<Contract>, puts: seq<Contract>, defs: seq<LegDef>) {
    forall k | 0 <= k < |defs| :: Candidates(calls, puts, defs[k]) != []
  }

  lemma NoneSkippedSplit(calls: seq<Contract>, puts: seq<Contract>, defs: seq<LegDef>)
    requires defs != []
    ensures var last := |defs| - 1;
            NoneSkipped(calls, puts, defs) <==>
            NoneSkipped(calls, puts, defs[..last]) && Candidates(calls, puts, defs[last]) != []
  {
    var front := defs[..|defs| - 1];
    assert forall k | 0 <= k < |front| :: front[k] == defs[k];
  }

  /** All legs are built exactly when every definition's type has contracts. */
  lemma {:induction false} LegCount(calls: seq<Contract>, puts: seq<Contract>, defs: seq<LegDef>, price: real)
    ensures |LegsFor(calls, puts, defs, price)| <= |defs|
    ensures |LegsFor(calls, puts, defs, price)| == |defs| <==> NoneSkipped(calls, puts, defs)
  {
    if defs != [] {
      LegCount(calls, puts, defs[..|defs| - 1], price);
      NoneSkippedSplit(calls, puts, defs);
    }
  }

  lemma FromChainGrows(calls: seq<Contract>, puts: seq<Contract>, front: seq<LegDef>, d: LegDef, leg: Leg)
    requires FromChain(calls, puts, front, leg)
    ensures FromChain(calls, puts, front + [d], leg)
  {
    var c, k :| 0 <= k < |front| && c in Candidates(calls, puts, front[k]) && leg == MakeLeg(c, front[k]);
    assert (front + [d])[k] == front[k];
  }

  lemma FromChainNew(calls: seq<Contract>, puts: seq<Contract>, front: seq<LegDef>, d: LegDef, c: Contract)
    requires c in Candidates(calls, puts, d)
    ensures FromChain(calls, puts, front + [d], MakeLeg(c, d))
  {
    assert (front + [d])[|front|] == d;
  }

  /** Each leg is made from a contract of the chain for one of the definitions. */
  lemma {:induction false} LegsComeFromChain(
    calls: seq<Contract>, puts: seq<Contract>, defs: seq<LegDef>, price: real, i: nat)
    requires i < |LegsFor(calls, puts, defs, price)|
    ensures FromChain(calls, puts, defs, LegsFor(calls, puts, defs, price)[i])
  {
    var front, d := defs[..|defs| - 1], defs[|defs| - 1];
    assert defs == front + [d];
    var before := LegsFor(calls, puts, front, price);
    if i < |before| {
      LegsComeFromChain(calls, puts, front, price, i);
      FromChainGrows(calls, puts, front, d, before[i]);
    } else {
      var cands := Candidates(calls, puts, d);
      PoolCases(cands, Choose(cands, d, price));
      FromChainNew(calls, puts, front, d, Choose(cands, d, price));
    }
  }

  // ---- what the legs are ---------------------------------------------------

  /** The contracts of the definition's type. */
  ghost function ListOf(calls: seq<Contract>, puts: seq<Contract>, d: LegDef): seq<Contract> {
    match d.right
    case Call => calls
    case _ => puts
  }

  /** The definitions whose type has contracts, in their order. */
  ghost function Kept(calls: seq<Contract>, puts: seq<Contract>, defs: seq<LegDef>): seq<LegDef> {
    if defs == [] then []
    else
      var front, last := Kept(calls, puts, defs[..|defs| - 1]), defs[|defs| - 1];
      if ListOf(calls, puts, last) == [] then front else front + [last]
  }

  /** The leg is this contract on the definition's side: bought at the ask or
      sold at the bid where there is a two-sided quote, else at its listed
      premium, a missing one counting as zero; with its own delta, or the target
      where that is missing or zero. */
  ghost predicate LegIs(leg: Leg, c: Contract, d: LegDef) {
    var twoSided := c.bid.Some? && c.ask.Some? && 0.0 < c.bid.value <= c.ask.value;
    && leg.symbol == c.symbol && leg.strike == c.strike && leg.expiry == c.expiry
    && leg.bid == c.bid && leg.ask == c.ask
    && leg.side == d.side && leg.right == d.right
    && (twoSided && d.side.Buy? ==> leg.premium == c.ask.value)
    && (twoSided && d.side.Sell? ==> leg.premium == c.bid.value)
    && (!twoSided && c.premium.Some? ==> leg.premium == c.premium.value)
    && (!twoSided && c.premium.None? ==> leg.premium == 0.0)
    && (leg.mid.Some? <==> twoSided)
    && (twoSided ==> leg.mid.value - c.bid.value == c.ask.value - leg.mid.value)
    && leg.delta == (if c.delta.Some? && c.delta.value != 0.0 then c.delta.value else d.deltaTarget)
  }

  /** Where the delta is missing throughout, the strike aimed at: in the money for
      a target above one half, out of it for one below, by 5% of the price. */
  ghost function Aim(d: LegDef, price: real): real {
    if d.deltaTarget == 0.5 then price
    else if (d.deltaTarget > 0.5) == d.right.Call? then price - price / 20.0
    else price + price / 20.0
  }

  lemma AimIsMoneyness(d: LegDef, price: real)
    ensures MoneynessStrike(d, price) == Aim(d, price)
  {
  }

  /** A contract with a delta if the list has one, and then none is closer to the
      target in size; else none is closer in strike to the aim. */
  ghost predicate Closest(c: Contract, list: seq<Contract>, d: LegDef, price: real) {
    && c in list
    && (forall o | o in list && o.delta.Some? ::
          c.delta.Some? && Abs(Abs(c.delta.value) - Abs(d.deltaTarget)) <= Abs(Abs(o.delta.value) - Abs(d.deltaTarget)))
    && (c.delta.None? ==> forall o | o in list :: Abs(c.strike - Aim(d, price)) <= Abs(o.strike - Aim(d, price)))
  }

  /** The leg is a contract of its definition's type, the closest of them where
      the deltas are monotone in the strike. */
  ghost predicate MadeFor(calls: seq<Contract>, puts: seq<Contract>, d: LegDef, price: real, leg: Leg) {
    var list := ListOf(calls, puts, d);
    exists c :: c in list && LegIs(leg, c, d) && (DeltaMonotone(d.right, Pool(list)) ==> Closest(c, list, d, price))
  }

  lemma ChoiceIsMade(calls: seq<Contract>, puts: seq<Contract>, d: LegDef, price: real)
    requires ListOf(calls, puts, d) != []
    ensures MadeFor(calls, puts, d, price, MakeLeg(Choose(Candidates(calls, puts, d), d, price), d))
  {
    var list := ListOf(calls, puts, d);
    var c := Choose(list, d, price);
    PoolCases(list, c);
    assert LegIs(MakeLeg(c, d), c, d);
    AimIsMoneyness(d, price);
    if DeltaMonotone(d.right, Pool(list)) {
      forall o | o in list
        ensures o.delta.Some? ==> c.delta.Some?
        ensures o.delta.Some? ==>
                  Abs(Abs(c.delta.value) - Abs(d.deltaTarget)) <= Abs(Abs(o.delta.value) - Abs(d.deltaTarget))
        ensures c.delta.None? ==> Abs(c.strike - Aim(d, price)) <= Abs(o.strike - Aim(d, price))
      {
        ChoiceIsClosest(list, d, price, o);
      }
    }
  }

  /** There is one leg for every definition whose type has contracts, in their
      order, and each is made for its definition. */
  lemma {:induction false} LegsAreMade(calls: seq<Contract>, puts: seq<Contract>, defs: seq<LegDef>, price: real)
    ensures var (legs, kept) := (LegsFor(calls, puts, defs, price), Kept(calls, puts, defs));
            |legs| == |kept| && forall k | 0 <= k < |legs| :: MadeFor(calls, puts, kept[k], price, legs[k])
  {
    if defs != [] {
      var front, last := defs[..|defs| - 1], defs[|defs| - 1];
      LegsAreMade(calls, puts, front, price);
      if ListOf(calls, puts, last) != [] { ChoiceIsMade(calls, puts, last, price); }
    }
  }

  /** With contracts of every type none is skipped. */
  lemma {:induction false} AllKept(calls: seq<Contract>, puts: seq<Contract>, defs: seq<LegDef>)
    ensures Kept(calls, puts, defs) == defs <==> forall k | 0 <= k < |defs| :: ListOf(calls, puts, defs[k]) != []
    ensures |Kept(calls, puts, defs)| <= |defs|
  {
    if defs != [] {
      var front, last := defs[..|defs| - 1], defs[|defs| - 1];
      AllKept(calls, puts, front);
      assert defs == front + [last];
      assert Kept(calls, puts, defs) == defs ==> |Kept(calls, puts, front)| >= |front|;
    }
  }

  lemma LegsForStep(calls: seq<Contract>, puts: seq<Contract>, defs: seq<LegDef>, k: nat, price: real)
    requires k < |defs|
    ensures var (front, cands) := (LegsFor(calls, puts, defs[..k], price), Candidates(calls, puts, defs[k]));
            LegsFor(calls, puts, defs[..k + 1], price)
            == if cands == [] then front else front + [MakeLeg(Choose(cands, defs[k], price), defs[k])]
  {
    assert defs[..k + 1][..k] == defs[..k];
  }

  /** The selection loop.  A definition whose type has no contracts is skipped. */
  method SelectLegsFromChain(calls: seq<Contract>, puts: seq<Contract>, defs: seq<LegDef>, price: real)
    returns (legs: seq<Leg>, totalCost: real)
    ensures legs == LegsFor(calls, puts, defs, price)
    ensures var kept := Kept(calls, puts, defs);
            |legs| == |kept| && forall k | 0 <= k < |legs| :: MadeFor(calls, puts, kept[k], price, legs[k])
    ensures totalCost == TotalCost(legs)
  {
    LegsAreMade(calls, puts, defs, price);
    legs, totalCost := [], 0.0;
    for k := 0 to |defs|
      invariant legs == LegsFor(calls, puts, defs[..k], price) && totalCost == TotalCost(legs)
    {
      var d := defs[k];
      LegsForStep(calls, puts, defs, k, price);
      var cands := Candidates(calls, puts, d);
      if cands != [] {
        var leg := MakeLeg(Choose(cands, d, price), d);
        TotalCostAppend(legs, leg);
        legs := legs + [leg];
        totalCost := if d.side.Buy? then totalCost + leg.premium else totalCost - leg.premium;
      }
    }
    assert defs[..|defs|] == defs;
  }
}
