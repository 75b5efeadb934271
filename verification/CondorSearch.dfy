/** The EV-aware grid search for an iron condor and its memo. */
module CondorSearch {
  import opened Common
  import opened OptionTypes
  import opened RiskPrimitives
  import opened CondorLegs

  // ---- one grid point ------------------------------------------------------

  datatype EvInputs = EvInputs(
    credit: real, widthPut: real, widthCall: real,
    dShortPut: real, dShortCall: real, dLongPut: real, dLongCall: real)

  /** What happens to a grid point, in the order of the tests. */
  datatype Fate = NoQuote | BadShape | LowCredit | WideSpread | EvFailed | Scored(ev: real)

  datatype Gate = Stopped(fate: Fate) | Pass(x: EvInputs)

  datatype Search = Search(calls: seq<Contract>, puts: seq<Contract>, threshold: real, minCredit: real)

  datatype Point = Point(target: real, width: real)

  function LegSpreadPct(l: Leg): Option<real> {
    if ValidNbbo(l.bid, l.ask) then
      Some((l.ask.value - l.bid.value) / ((l.bid.value + l.ask.value) / 2.0))
    else None
  }

  /** None stands for infinity: no leg has a valid quote. */
  function MaxLegSpreadPct(legs: seq<Leg>): Option<real> {
    if legs == [] then None
    else
      var (rest, p) := (MaxLegSpreadPct(legs[..|legs| - 1]), LegSpreadPct(legs[|legs| - 1]));
      if p.None? then rest else if rest.None? then p else Some(Max(rest.value, p.value))
  }

  function InputsOf(legs: seq<Leg>): EvInputs
    requires ValidCondor(legs)
  {
    var (calls, puts) := (OfRight(legs, Call), OfRight(legs, Put));
    EvInputs(CondorCredit(TotalCost(legs)), WingWidth(puts), WingWidth(calls),
             Abs(Upper(puts).delta), Abs(Lower(calls).delta), Abs(Lower(puts).delta), Abs(Upper(calls).delta))
  }

  predicate TooWide(legs: seq<Leg>, threshold: real) {
    var m := MaxLegSpreadPct(legs);
    m.None? || m.value > threshold
  }

  /** A leg whose quote is wider than the threshold, told without dividing. */
  predicate WiderThan(l: Leg, threshold: real) {
    ValidNbbo(l.bid, l.ask) && 2.0 * (l.ask.value - l.bid.value) > threshold * (l.bid.value + l.ask.value)
  }

  lemma SpreadOverMid(l: Leg, threshold: real)
    requires ValidNbbo(l.bid, l.ask)
    ensures LegSpreadPct(l).value > threshold <==> WiderThan(l, threshold)
  {
    var (mid, spread) := ((l.bid.value + l.ask.value) / 2.0, l.ask.value - l.bid.value);
    var pct := LegSpreadPct(l).value;
    assert pct * mid == spread;
    SignOfProduct(pct - threshold, mid);
    assert (pct - threshold) * mid == spread - threshold * mid;
    assert threshold * mid * 2.0 == threshold * (l.bid.value + l.ask.value);
  }

  /** Legs that all have quotes fail the spread test exactly when one of them is
      wider than the threshold. */
  lemma {:induction false} TooWideIff(legs: seq<Leg>, threshold: real)
    requires legs != [] && forall i | 0 <= i < |legs| :: ValidNbbo(legs[i].bid, legs[i].ask)
    ensures MaxLegSpreadPct(legs).Some?
    ensures TooWide(legs, threshold) <==> exists i :: 0 <= i < |legs| && WiderThan(legs[i], threshold)
  {
    var front, last := legs[..|legs| - 1], legs[|legs| - 1];
    assert legs == front + [last];
    SpreadOverMid(last, threshold);
    assert MaxLegSpreadPct([]).None?;
    if front != [] {
      TooWideIff(front, threshold);
      if TooWide(front, threshold) {
        var i :| 0 <= i < |front| && WiderThan(front[i], threshold);
        assert legs[i] == front[i];
      }
      if i :| 0 <= i < |legs| && WiderThan(legs[i], threshold) {
        assert i < |front| ==> WiderThan(front[i], threshold);
      }
    }
    assert WiderThan(last, threshold) ==> WiderThan(legs[|front|], threshold);
  }

  /** Sorting by strike and taking first and second recovers the roles: the EV
      is computed of the wings and deltas of the contracts that were picked. */
  lemma RolesRecovered(q: Quad)
    requires QuotedQuad(q) && ValidCondor(QuadLegs(q))
    requires q.longPut.strike < q.shortPut.strike && q.shortCall.strike < q.longCall.strike
    requires Typed(q.shortPut, Put) && Typed(q.longPut, Put) && Typed(q.shortCall, Call) && Typed(q.longCall, Call)
    ensures InputsOf(QuadLegs(q)) ==
            EvInputs(CondorCredit(TotalCost(QuadLegs(q))),
                     q.shortPut.strike - q.longPut.strike, q.longCall.strike - q.shortCall.strike,
                     Abs(OrElse(q.shortPut.delta, 0.0)), Abs(OrElse(q.shortCall.delta, 0.0)),
                     Abs(OrElse(q.longPut.delta, 0.0)), Abs(OrElse(q.longCall.delta, 0.0)))
  {
    var legs := QuadLegs(q);
    SplitByRight(legs[0], legs[1], legs[2], legs[3]);
  }

  function GateOf(s: Search, p: Point): Gate {
    var r := SelectLegs(s.calls, s.puts, p.target, p.width);
    if r.None? then Stopped(NoQuote)
    else if !ValidCondor(r.value) then Stopped(BadShape)
    else if CondorCredit(TotalCost(r.value)) < s.minCredit then Stopped(LowCredit)
    else if TooWide(r.value, s.threshold) then Stopped(WideSpread)
    else Pass(InputsOf(r.value))
  }

  // ---- what a point must have ----------------------------------------------

  /** The lists are split by type before the search. */
  predicate TypedChain(s: Search) {
    (forall c | c in s.calls :: Typed(c, Call)) && (forall c | c in s.puts :: Typed(c, Put))
  }

  function PickedAt(s: Search, p: Point): Option<Quad> {
    PickQuad(s.calls, s.puts, p.target, p.width)
  }

  predicate TwoSided(c: Contract) {
    c.bid.Some? && c.ask.Some? && 0.0 < c.bid.value <= c.ask.value
  }

  /** Four contracts with two-sided quotes were picked. */
  predicate QuotedAt(s: Search, p: Point) {
    PickedAt(s, p).Some? &&
    var q := PickedAt(s, p).value;
    TwoSided(q.shortPut) && TwoSided(q.longPut) && TwoSided(q.shortCall) && TwoSided(q.longCall)
  }

  predicate AllDistinct(a: string, b: string, c: string, d: string) {
    a != b && a != c && a != d && b != c && b != d && c != d
  }

  /** Four symbols, one expiry, and the shorts apart. */
  predicate Shaped(q: Quad) {
    && AllDistinct(q.shortPut.symbol, q.longPut.symbol, q.shortCall.symbol, q.longCall.symbol)
    && q.shortPut.expiry == q.longPut.expiry == q.shortCall.expiry == q.longCall.expiry
    && q.shortPut.strike < q.shortCall.strike
  }

  predicate ShapedAt(s: Search, p: Point) {
    QuotedAt(s, p) && Shaped(PickedAt(s, p).value)
  }

  /** What the shorts bring at their bids less what the longs cost at their asks. */
  function NetCredit(q: Quad): real
    requires TwoSided(q.shortPut) && TwoSided(q.longPut) && TwoSided(q.shortCall) && TwoSided(q.longCall)
  {
    q.shortPut.bid.value + q.shortCall.bid.value - q.longPut.ask.value - q.longCall.ask.value
  }

  /** And it pays enough: nothing is paid by a condor done for a debit. */
  predicate PaysAt(s: Search, p: Point) {
    ShapedAt(s, p) && Max(0.0, NetCredit(PickedAt(s, p).value)) >= s.minCredit
  }

  /** The spread is no more than the threshold's share of the middle. */
  predicate Tight(c: Contract, threshold: real)
    requires TwoSided(c)
  {
    2.0 * (c.ask.value - c.bid.value) <= threshold * (c.bid.value + c.ask.value)
  }

  /** And all four spreads are tight. */
  predicate TradeableAt(s: Search, p: Point) {
    PaysAt(s, p) &&
    var q := PickedAt(s, p).value;
    && Tight(q.shortPut, s.threshold) && Tight(q.longPut, s.threshold)
    && Tight(q.shortCall, s.threshold) && Tight(q.longCall, s.threshold)
  }

  /** The numbers the EV of such a condor is computed of. */
  function ModelInputs(q: Quad): EvInputs
    requires TwoSided(q.shortPut) && TwoSided(q.longPut) && TwoSided(q.shortCall) && TwoSided(q.longCall)
  {
    EvInputs(Max(0.0, NetCredit(q)), q.shortPut.strike - q.longPut.strike, q.longCall.strike - q.shortCall.strike,
             DeltaSize(q.shortPut), DeltaSize(q.shortCall), DeltaSize(q.longPut), DeltaSize(q.longCall))
  }

  /** No quad is picked exactly when a list is empty or one of the shorts has
      nothing strictly further out. */
  lemma PickedIff(s: Search, p: Point)
    ensures PickedAt(s, p).Some? <==>
            && s.calls != [] && s.puts != []
            && (exists c :: c in s.calls && c.strike > ShortOf(s.calls, p.target).strike)
            && (exists c :: c in s.puts && c.strike < ShortOf(s.puts, p.target).strike)
  {
    if s.calls != [] && s.puts != [] {
      WingEmptyIff(s.calls, ShortOf(s.calls, p.target), Call);
      WingEmptyIff(s.puts, ShortOf(s.puts, p.target), Put);
    }
  }

  lemma FourSymbolsIff(a: string, b: string, c: string, d: string)
    ensures |{a, b, c, d}| == 4 <==> AllDistinct(a, b, c, d)
  {
    SizeWithout({a, b, c, d}, a);
    SizeWithout({b, c, d}, b);
    SizeWithout({c, d}, c);
    SizeWithout({d}, d);
    if AllDistinct(a, b, c, d) {
      assert {a, b, c, d} - {a} == {b, c, d} && {b, c, d} - {b} == {c, d} && {c, d} - {c} == {d} && {d} - {d} == {};
    } else {
      ThreeAtMost(a, b, c, d);
    }
  }

  lemma ThreeAtMost(a: string, b: string, c: string, d: string)
    requires !AllDistinct(a, b, c, d)
    ensures |{a, b, c, d}| <= 3
  {
    if a == b || a == c || a == d {
      assert {a, b, c, d} == {b, c, d};
      SetOfThree(b, c, d);
    } else if b == c || b == d {
      assert {a, b, c, d} == {a, c, d};
      SetOfThree(a, c, d);
    } else {
      assert {a, b, c, d} == {a, b, c};
      SetOfThree(a, b, c);
    }
  }

  lemma SetOfThree(a: string, b: string, c: string)
    ensures |{a, b, c}| <= 3
  {
    assert {a, b, c} == {a} + {b} + {c};
    assert |{a} + {b} + {c}| <= |{a} + {b}| + |{c}| && |{a} + {b}| <= |{a}| + |{b}|;
  }

  /** What the picked contracts are, on such a chain. */
  lemma PickedRoles(s: Search, p: Point)
    requires TypedChain(s) && PickedAt(s, p).Some?
    ensures var q := PickedAt(s, p).value;
            && q.longPut.strike < q.shortPut.strike && q.shortCall.strike < q.longCall.strike
            && Typed(q.shortPut, Put) && Typed(q.longPut, Put) && Typed(q.shortCall, Call) && Typed(q.longCall, Call)
  {
    QuadIsClosest(s.calls, s.puts, p.target, p.width, PickedAt(s, p).value.shortCall);
  }

  lemma ShapeMeaning(s: Search, p: Point)
    requires TypedChain(s)
    ensures QuotedAt(s, p) <==> SelectLegs(s.calls, s.puts, p.target, p.width).Some?
    ensures ShapedAt(s, p) <==> QuotedAt(s, p) && ValidCondor(SelectLegs(s.calls, s.puts, p.target, p.width).value)
  {
    if QuotedAt(s, p) {
      var q := PickedAt(s, p).value;
      PickedRoles(s, p);
      InvariantsOfSelected(q);
      FourSymbolsIff(q.shortPut.symbol, q.longPut.symbol, q.shortCall.symbol, q.longCall.symbol);
    }
  }

  lemma CreditMeaning(s: Search, p: Point)
    requires TypedChain(s) && QuotedAt(s, p)
    ensures CondorCredit(TotalCost(SelectLegs(s.calls, s.puts, p.target, p.width).value))
            == Max(0.0, NetCredit(PickedAt(s, p).value))
  {
    QuadCost(PickedAt(s, p).value);
  }

  lemma TightLeg(c: Contract, side: Side, hint: Right, threshold: real)
    requires TwoSided(c)
    ensures WiderThan(CondorLeg(c, side, hint), threshold) <==> !Tight(c, threshold)
  {
  }

  lemma OneOfFour(legs: seq<Leg>, threshold: real)
    requires |legs| == 4
    ensures (exists i :: 0 <= i < |legs| && WiderThan(legs[i], threshold)) <==>
            WiderThan(legs[0], threshold) || WiderThan(legs[1], threshold)
            || WiderThan(legs[2], threshold) || WiderThan(legs[3], threshold)
  {
  }

  lemma LegsTight(q: Quad, threshold: real)
    requires TwoSided(q.shortPut) && TwoSided(q.longPut) && TwoSided(q.shortCall) && TwoSided(q.longCall)
    ensures TooWide(QuadLegs(q), threshold) <==>
            !(Tight(q.shortPut, threshold) && Tight(q.longPut, threshold)
              && Tight(q.shortCall, threshold) && Tight(q.longCall, threshold))
  {
    var legs := QuadLegs(q);
    TooWideIff(legs, threshold);
    OneOfFour(legs, threshold);
    TightLeg(q.shortPut, Sell, Put, threshold);
    TightLeg(q.longPut, Buy, Put, threshold);
    TightLeg(q.shortCall, Sell, Call, threshold);
    TightLeg(q.longCall, Buy, Call, threshold);
  }

  /** What happens to a point, told from the quotes, symbols, expiries and strikes
      of the contracts picked: the first thing it lacks stops it, and a point
      that lacks nothing is valued on its own credit, widths and deltas. */
  lemma GateMeaning(s: Search, p: Point)
    requires TypedChain(s)
    ensures GateOf(s, p) ==
            if !QuotedAt(s, p) then Stopped(NoQuote)
            else if !ShapedAt(s, p) then Stopped(BadShape)
            else if !PaysAt(s, p) then Stopped(LowCredit)
            else if !TradeableAt(s, p) then Stopped(WideSpread)
            else Pass(ModelInputs(PickedAt(s, p).value))
  {
    ShapeMeaning(s, p);
    if QuotedAt(s, p) {
      CreditMeaning(s, p);
      LegsTight(PickedAt(s, p).value, s.threshold);
      if ShapedAt(s, p) {
        PickedRoles(s, p);
        RolesRecovered(PickedAt(s, p).value);
      }
    }
  }

  /** The fate of a point when its EV is computed afresh.  `ev` is the model:
      None is an exception. */
  function FateOf(g: Gate, ev: EvInputs -> Option<real>): Fate {
    match g
    case Stopped(f) => f
    case Pass(x) => var v := ev(x); if v.Some? then Scored(v.value) else EvFailed
  }

  // ---- the memo ------------------------------------------------------------

  /** Round to the nearest integer, ties to even. */
  function RoundHalfEven(x: real): (n: int)
    ensures -0.5 <= n as real - x <= 0.5
    ensures n as real == x <==> x.Floor as real == x
  {
    var f := x.Floor;
    var r := x - f as real;
    if r < 0.5 then f else if r > 0.5 then f + 1 else if f % 2 == 0 then f else f + 1
  }

  /** And a half goes to the even neighbour. */
  lemma HalvesToEven(x: real)
    requires x == x.Floor as real + 0.5
    ensures RoundHalfEven(x) % 2 == 0
  {
  }

  /** The memo key: four decimals of the credit and short deltas, two of the
      widths.  The long deltas are not part of it. */
  datatype Key = Key(credit: int, widthPut: int, widthCall: int, dShortPut: int, dShortCall: int)

  function Round4(x: real): int { RoundHalfEven(x * 10000.0) }

  function Round2(x: real): int { RoundHalfEven(x * 100.0) }

  function KeyOf(x: EvInputs): Key {
    Key(Round4(x.credit), Round2(x.widthPut), Round2(x.widthCall), Round4(x.dShortPut), Round4(x.dShortCall))
  }

  type Memo = map<Key, real>

  /** One evaluation through the memo; failures are not stored. */
  function Visit(memo: Memo, g: Gate, ev: EvInputs -> Option<real>): (Fate, Memo) {
    match g
    case Stopped(f) => (f, memo)
    case Pass(x) =>
      if KeyOf(x) in memo then (Scored(memo[KeyOf(x)]), memo)
      else
        var v := ev(x);
        if v.Some? then (Scored(v.value), memo[KeyOf(x) := v.value]) else (EvFailed, memo)
  }

  function MemoRun(gates: seq<Gate>, ev: EvInputs -> Option<real>): (r: (seq<Fate>, Memo))
    ensures |r.0| == |gates|
  {
    if gates == [] then ([], map[])
    else
      var (fates, memo) := MemoRun(gates[..|gates| - 1], ev);
      var (fate, after) := Visit(memo, gates[|gates| - 1], ev);
      (fates + [fate], after)
  }

  ghost predicate Stored(gates: seq<Gate>, ev: EvInputs -> Option<real>, key: Key, v: real) {
    exists i :: 0 <= i < |gates| && gates[i].Pass? && KeyOf(gates[i].x) == key && ev(gates[i].x) == Some(v)
  }

  /** Every stored entry is the EV of a visited point with that key. */
  lemma {:induction false} MemoEntriesAreEvs(gates: seq<Gate>, ev: EvInputs -> Option<real>, key: Key)
    requires key in MemoRun(gates, ev).1
    ensures Stored(gates, ev, key, MemoRun(gates, ev).1[key])
  {
    var front, g := gates[..|gates| - 1], gates[|gates| - 1];
    var memo := MemoRun(front, ev).1;
    if key in memo {
      MemoEntriesAreEvs(front, ev, key);
      var i :| 0 <= i < |front| && front[i].Pass? && KeyOf(front[i].x) == key && ev(front[i].x) == Some(memo[key]);
      assert gates[i] == front[i];
    } else {
      assert g.Pass? && KeyOf(g.x) == key;
    }
  }

  /** A point's memoised fate: its own fate, or the EV of an earlier point that
      rounds to the same key. */
  ghost predicate FromEarlier(gates: seq<Gate>, ev: EvInputs -> Option<real>, i: nat, fate: Fate)
    requires i < |gates|
  {
    && gates[i].Pass? && fate.Scored?
    && exists j :: 0 <= j < i && gates[j].Pass? && KeyOf(gates[j].x) == KeyOf(gates[i].x)
                   && ev(gates[j].x) == Some(fate.ev)
  }

  lemma {:induction false} MemoisedFate(gates: seq<Gate>, ev: EvInputs -> Option<real>, i: nat)
    requires i < |gates|
    ensures var fate := MemoRun(gates, ev).0[i];
            fate == FateOf(gates[i], ev) || FromEarlier(gates, ev, i, fate)
  {
    var front := gates[..|gates| - 1];
    if i < |front| {
      MemoisedFate(front, ev, i);
      var fate := MemoRun(front, ev).0[i];
      if fate != FateOf(gates[i], ev) {
        var j :| 0 <= j < i && front[j].Pass? && KeyOf(front[j].x) == KeyOf(front[i].x)
                 && ev(front[j].x) == Some(fate.ev);
        assert gates[j] == front[j] && gates[i] == front[i];
      }
    } else if gates[i].Pass? && KeyOf(gates[i].x) in MemoRun(front, ev).1 {
      var key := KeyOf(gates[i].x);
      MemoEntriesAreEvs(front, ev, key);
      var j :| 0 <= j < |front| && front[j].Pass? && KeyOf(front[j].x) == key
               && ev(front[j].x) == Some(MemoRun(front, ev).1[key]);
      assert gates[j] == front[j];
    }
  }

  ghost predicate EvRespectsKey(gates: seq<Gate>, ev: EvInputs -> Option<real>) {
    forall i, j | 0 <= j < i < |gates| && gates[i].Pass? && gates[j].Pass? ::
      KeyOf(gates[j].x) == KeyOf(gates[i].x) ==> ev(gates[j].x) == ev(gates[i].x)
  }

  lemma {:induction false} MemoHolds(gates: seq<Gate>, ev: EvInputs -> Option<real>, j: nat)
    requires j < |gates| && gates[j].Pass? && ev(gates[j].x).Some?
    ensures var (fates, memo) := MemoRun(gates, ev);
            KeyOf(gates[j].x) in memo && fates[j] == Scored(memo[KeyOf(gates[j].x)])
  {
    if j < |gates| - 1 {
      MemoHolds(gates[..|gates| - 1], ev, j);
    }
  }

  lemma {:induction false} SameKeySameFate(gates: seq<Gate>, ev: EvInputs -> Option<real>, j: nat, i: nat)
    requires j < i < |gates| && gates[i].Pass? && gates[j].Pass?
    requires ev(gates[j].x).Some? && KeyOf(gates[j].x) == KeyOf(gates[i].x)
    ensures MemoRun(gates, ev).0[i] == MemoRun(gates, ev).0[j]
  {
    var front := gates[..|gates| - 1];
    if i < |front| {
      SameKeySameFate(front, ev, j, i);
    } else {
      MemoHolds(front, ev, j);
    }
  }

  ghost predicate Transparent(gates: seq<Gate>, ev: EvInputs -> Option<real>) {
    forall i | 0 <= i < |gates| :: MemoRun(gates, ev).0[i] == FateOf(gates[i], ev)
  }

  ghost predicate NoFailures(gates: seq<Gate>, ev: EvInputs -> Option<real>) {
    forall i | 0 <= i < |gates| && gates[i].Pass? :: ev(gates[i].x).Some?
  }

  /** The memo is invisible when points with one key have one EV; and, when no
      evaluation fails, only then. */
  lemma MemoTransparentIff(gates: seq<Gate>, ev: EvInputs -> Option<real>)
    ensures EvRespectsKey(gates, ev) ==> Transparent(gates, ev)
    ensures NoFailures(gates, ev) ==> (EvRespectsKey(gates, ev) <==> Transparent(gates, ev))
  {
    if EvRespectsKey(gates, ev) {
      forall i | 0 <= i < |gates| ensures MemoRun(gates, ev).0[i] == FateOf(gates[i], ev) {
        MemoisedFate(gates, ev, i);
      }
    }
    if NoFailures(gates, ev) && Transparent(gates, ev) {
      forall i, j | 0 <= j < i < |gates| && gates[i].Pass? && gates[j].Pass? && KeyOf(gates[j].x) == KeyOf(gates[i].x)
        ensures ev(gates[j].x) == ev(gates[i].x)
      {
        SameKeySameFate(gates, ev, j, i);
        assert MemoRun(gates, ev).0[i] == FateOf(gates[i], ev);
        assert MemoRun(gates, ev).0[j] == FateOf(gates[j], ev);
      }
    }
  }

  // ---- the search ----------------------------------------------------------

  /** The points before column `j` of row `i`, in the order of the loops. */
  function Upto(deltas: seq<real>, widths: seq<real>, i: nat, j: nat): seq<Point>
    requires i <= |deltas| && j <= |widths| && (j > 0 ==> i < |deltas|)
    decreases i, j
  {
    if j > 0 then Upto(deltas, widths, i, j - 1) + [Point(deltas[i], widths[j - 1])]
    else if i > 0 then Upto(deltas, widths, i - 1, |widths|)
    else []
  }

  function Grid(deltas: seq<real>, widths: seq<real>): seq<Point> {
    Upto(deltas, widths, |deltas|, 0)
  }

  lemma RowStep(deltas: seq<real>, widths: seq<real>, i: nat, j: nat)
    requires i < |deltas| && j < |widths|
    ensures Upto(deltas, widths, i, j + 1) == Upto(deltas, widths, i, j) + [Point(deltas[i], widths[j])]
  {
  }

  lemma RowDone(deltas: seq<real>, widths: seq<real>, i: nat)
    requires i < |deltas|
    ensures Upto(deltas, widths, i + 1, 0) == Upto(deltas, widths, i, |widths|)
  {
  }

  lemma {:induction false} UptoMembers(deltas: seq<real>, widths: seq<real>, i: nat, j: nat, p: Point)
    requires i <= |deltas| && j <= |widths| && (j > 0 ==> i < |deltas|)
    ensures p in Upto(deltas, widths, i, j) <==>
            || (p.target in deltas[..i] && p.width in widths)
            || (i < |deltas| && p.target == deltas[i] && p.width in widths[..j])
    decreases i, j
  {
    if j > 0 {
      UptoMembers(deltas, widths, i, j - 1, p);
      assert widths[..j] == widths[..j - 1] + [widths[j - 1]];
    } else if i > 0 {
      UptoMembers(deltas, widths, i - 1, |widths|, p);
      assert widths[..|widths|] == widths;
      assert deltas[..i] == deltas[..i - 1] + [deltas[i - 1]];
    }
  }

  /** Every combination of a target and a width is tried. */
  lemma GridMembers(deltas: seq<real>, widths: seq<real>, p: Point)
    ensures p in Grid(deltas, widths) <==> p.target in deltas && p.width in widths
  {
    UptoMembers(deltas, widths, |deltas|, 0, p);
    assert deltas[..|deltas|] == deltas;
  }

  function Gates(s: Search, points: seq<Point>): (gates: seq<Gate>)
    ensures |gates| == |points|
  {
    seq(|points|, i requires 0 <= i < |points| => GateOf(s, points[i]))
  }

  /** How far a point got: 1 quoted, 2 enough credit, 3 tight enough, 4 scored. */
  function Stage(f: Fate): nat {
    match f
    case NoQuote => 0
    case BadShape => 1
    case LowCredit => 1
    case WideSpread => 2
    case EvFailed => 3
    case Scored(_) => 4
  }

  function Reachers(fates: seq<Fate>, stage: nat): set<nat> {
    set i: nat | i < |fates| && Stage(fates[i]) >= stage
  }

  function Failures(fates: seq<Fate>): set<nat> {
    set i: nat | i < |fates| && Stage(fates[i]) == 3
  }

  /** How many points got at least that far. */
  function Reached(fates: seq<Fate>, stage: nat): nat {
    |Reachers(fates, stage)|
  }

  lemma ReachedNested(fates: seq<Fate>, lo: nat, hi: nat)
    requires lo <= hi
    ensures Reached(fates, hi) <= Reached(fates, lo)
  {
    SubsetSize(Reachers(fates, hi), Reachers(fates, lo));
  }

  ghost predicate NoneReached(fates: seq<Fate>, stage: nat) {
    forall i | 0 <= i < |fates| :: Stage(fates[i]) < stage
  }

  lemma ReachedZeroIff(fates: seq<Fate>, stage: nat)
    ensures Reached(fates, stage) == 0 <==> NoneReached(fates, stage)
  {
    var who := Reachers(fates, stage);
    if who == {} {
      forall i | 0 <= i < |fates| ensures Stage(fates[i]) < stage {
        assert i !in who;
      }
    } else {
      var i :| i in who;
      assert Stage(fates[i]) >= stage;
    }
  }

  lemma ReachedOneMore(fates: seq<Fate>, f: Fate, stage: nat)
    ensures Reached(fates + [f], stage) == Reached(fates, stage) + (if Stage(f) >= stage then 1 else 0)
  {
    var who := Reachers(fates, stage);
    assert Reachers(fates + [f], stage) == who + (if Stage(f) >= stage then {|fates|} else {});
  }

  lemma {:induction false} ReachedAll(fates: seq<Fate>)
    ensures Reached(fates, 0) == |fates|
  {
    if fates == [] {
      assert Reachers(fates, 0) == {};
    } else {
      var front, last := fates[..|fates| - 1], fates[|fates| - 1];
      ReachedAll(front);
      ReachedOneMore(front, last, 0);
      assert fates == front + [last];
    }
  }

  datatype Counters = Counters(tried: nat, quoted: nat, passCredit: nat, passSpread: nat, computed: nat, errors: nat)

  datatype Reason =
    | EmptyChain | NoDeltasInChain | NoValidNbbo | CreditBelowMin | SpreadAboveThreshold | EvNotComputed | NoPositiveEv

  /** The counters of a finished search: how many points got how far, and how
      many passed every test but had no EV. */
  function TallyOf(fates: seq<Fate>): Counters {
    Counters(|fates|, Reached(fates, 1), Reached(fates, 2), Reached(fates, 3), Reached(fates, 4),
             |Failures(fates)|)
  }

  /** The earliest point of the greatest EV. */
  ghost predicate EarliestBest(fates: seq<Fate>, i: int) {
    && 0 <= i < |fates| && fates[i].Scored?
    && (forall j | 0 <= j < |fates| && fates[j].Scored? :: fates[j].ev <= fates[i].ev)
    && (forall j | 0 <= j < i && fates[j].Scored? :: fates[j].ev < fates[i].ev)
  }

  ghost predicate NonePositive(fates: seq<Fate>) {
    forall j | 0 <= j < |fates| && fates[j].Scored? :: fates[j].ev <= 0.0
  }

  function FirstEmptyStage(c: Counters): Reason {
    if c.quoted == 0 then NoValidNbbo
    else if c.passCredit == 0 then CreditBelowMin
    else if c.passSpread == 0 then SpreadAboveThreshold
    else if c.computed == 0 then EvNotComputed
    else NoPositiveEv
  }

  lemma CountersNested(fates: seq<Fate>)
    ensures var c := TallyOf(fates);
            c.tried >= c.quoted >= c.passCredit >= c.passSpread == c.computed + c.errors
  {
    ReachedAll(fates);
    ReachedNested(fates, 0, 1);
    ReachedNested(fates, 1, 2);
    ReachedNested(fates, 2, 3);
    ReachedNested(fates, 3, 4);
    assert Reachers(fates, 3) == Reachers(fates, 4) + Failures(fates);
  }

  lemma NestedNone(fates: seq<Fate>, lo: nat, hi: nat)
    requires lo <= hi && NoneReached(fates, lo)
    ensures NoneReached(fates, hi)
  {
  }

  /** The reason is the first stage nobody passed, in terms of the points
      themselves.  "Credit below minimum" is also what a search reports whose
      every quoted condor failed the four-leg check. */
  lemma ReasonNamesFirstEmptyStage(fates: seq<Fate>)
    ensures var reason := FirstEmptyStage(TallyOf(fates));
            && (reason == NoValidNbbo <==> NoneReached(fates, 1))
            && (reason == CreditBelowMin <==> !NoneReached(fates, 1) && NoneReached(fates, 2))
            && (reason == SpreadAboveThreshold <==> !NoneReached(fates, 2) && NoneReached(fates, 3))
            && (reason == EvNotComputed <==> !NoneReached(fates, 3) && NoneReached(fates, 4))
            && (reason == NoPositiveEv <==> !NoneReached(fates, 4))
  {
    ReachedZeroIff(fates, 1);
    ReachedZeroIff(fates, 2);
    ReachedZeroIff(fates, 3);
    ReachedZeroIff(fates, 4);
    if NoneReached(fates, 1) { NestedNone(fates, 1, 2); }
    if NoneReached(fates, 2) { NestedNone(fates, 2, 3); }
    if NoneReached(fates, 3) { NestedNone(fates, 3, 4); }
  }

  datatype Best = Best(point: Point, ev: real, legs: seq<Leg>, cost: real)

  datatype Outcome = Outcome(
    legs: seq<Leg>, cost: real, reason: Option<Reason>, counters: Option<Counters>, best: Option<(Point, real)>)

  /** The best positive point so far, with the legs it was built of. */
  ghost predicate HoldsPositive(s: Search, points: seq<Point>, fates: seq<Fate>, best: Option<Best>)
    requires |points| == |fates|
  {
    match best
    case None => NonePositive(fates)
    case Some(b) =>
      exists i :: EarliestBest(fates, i) && fates[i].ev == b.ev > 0.0 && points[i] == b.point
                  && SelectLegs(s.calls, s.puts, b.point.target, b.point.width) == Some(b.legs)
                  && b.cost == TotalCost(b.legs)
  }

  /** The best point so far, positive or not. */
  ghost predicate HoldsOverall(points: seq<Point>, fates: seq<Fate>, best: Option<(Point, real)>)
    requires |points| == |fates|
  {
    match best
    case None => forall j | 0 <= j < |fates| :: !fates[j].Scored?
    case Some(b) => exists i :: EarliestBest(fates, i) && points[i] == b.0 && fates[i].ev == b.1
  }

  lemma BestStays(fates: seq<Fate>, i: int, f: Fate)
    requires EarliestBest(fates, i) && (f.Scored? ==> f.ev <= fates[i].ev)
    ensures EarliestBest(fates + [f], i)
  {
  }

  lemma PositiveAdvances(s: Search, points: seq<Point>, fates: seq<Fate>, best: Option<Best>, p: Point, f: Fate)
    requires |points| == |fates| && HoldsPositive(s, points, fates, best)
    ensures f.Scored? && f.ev > 0.0 && (best.None? || f.ev > best.value.ev) && GateOf(s, p).Pass? ==>
              var legs := SelectLegs(s.calls, s.puts, p.target, p.width).value;
              HoldsPositive(s, points + [p], fates + [f], Some(Best(p, f.ev, legs, TotalCost(legs))))
    ensures !(f.Scored? && f.ev > 0.0 && (best.None? || f.ev > best.value.ev)) ==>
              HoldsPositive(s, points + [p], fates + [f], best)
  {
    var fates', points' := fates + [f], points + [p];
    if f.Scored? && f.ev > 0.0 && (best.None? || f.ev > best.value.ev) {
      assert EarliestBest(fates', |fates|);
    } else if best.Some? {
      var b := best.value;
      var i :| EarliestBest(fates, i) && fates[i].ev == b.ev > 0.0 && points[i] == b.point
               && SelectLegs(s.calls, s.puts, b.point.target, b.point.width) == Some(b.legs)
               && b.cost == TotalCost(b.legs);
      BestStays(fates, i, f);
      assert points'[i] == points[i] && fates'[i] == fates[i];
    }
  }

  lemma OverallAdvances(points: seq<Point>, fates: seq<Fate>, best: Option<(Point, real)>, p: Point, f: Fate)
    requires |points| == |fates| && HoldsOverall(points, fates, best)
    ensures var better := f.Scored? && (best.None? || f.ev > best.value.1);
            HoldsOverall(points + [p], fates + [f], if better then Some((p, f.ev)) else best)
  {
    var fates', points' := fates + [f], points + [p];
    if f.Scored? && (best.None? || f.ev > best.value.1) {
      assert EarliestBest(fates', |fates|);
    } else if best.Some? {
      var i :| EarliestBest(fates, i) && points[i] == best.value.0 && fates[i].ev == best.value.1;
      BestStays(fates, i, f);
      assert points'[i] == points[i] && fates'[i] == fates[i];
    }
  }

  /** The counters after one more point with fate `f`. */
  function Bump(c: Counters, f: Fate): Counters {
    Counters(c.tried + 1,
             c.quoted + (if Stage(f) >= 1 then 1 else 0),
             c.passCredit + (if Stage(f) >= 2 then 1 else 0),
             c.passSpread + (if Stage(f) >= 3 then 1 else 0),
             c.computed + (if Stage(f) >= 4 then 1 else 0),
             c.errors + (if Stage(f) == 3 then 1 else 0))
  }

  lemma FailedOneMore(fates: seq<Fate>, f: Fate)
    ensures |Failures(fates + [f])| == |Failures(fates)| + (if Stage(f) == 3 then 1 else 0)
  {
    assert Failures(fates + [f]) == Failures(fates) + (if Stage(f) == 3 then {|fates|} else {});
  }

  lemma TallyAdvances(fates: seq<Fate>, f: Fate)
    ensures TallyOf(fates + [f]) == Bump(TallyOf(fates), f)
  {
    ReachedOneMore(fates, f, 1);
    ReachedOneMore(fates, f, 2);
    ReachedOneMore(fates, f, 3);
    ReachedOneMore(fates, f, 4);
    FailedOneMore(fates, f);
  }

  lemma RunAdvances(s: Search, points: seq<Point>, p: Point, ev: EvInputs -> Option<real>)
    ensures var (fates, memo) := MemoRun(Gates(s, points), ev);
            var (f, after) := Visit(memo, GateOf(s, p), ev);
            MemoRun(Gates(s, points + [p]), ev) == (fates + [f], after)
  {
    assert Gates(s, points + [p])[..|points|] == Gates(s, points);
  }

  predicate AnyDelta(contracts: seq<Contract>) {
    exists i :: 0 <= i < |contracts| && contracts[i].delta.Some?
  }

  function FirstOnes(contracts: seq<Contract>): seq<Contract> {
    if |contracts| <= 25 then contracts else contracts[..25]
  }

  /** `_chain_has_any_delta`: it looks at the first 25 of each type. */
  predicate ChainHasDelta(s: Search) {
    AnyDelta(FirstOnes(s.calls) + FirstOnes(s.puts))
  }

  /** Some contract among the first 25 of a type has a delta. */
  lemma ChainHasDeltaIff(s: Search)
    ensures ChainHasDelta(s) <==>
            || (exists i :: 0 <= i < |s.calls| && i < 25 && s.calls[i].delta.Some?)
            || (exists i :: 0 <= i < |s.puts| && i < 25 && s.puts[i].delta.Some?)
  {
    var (calls, puts) := (FirstOnes(s.calls), FirstOnes(s.puts));
    var both := calls + puts;
    if i :| 0 <= i < |both| && both[i].delta.Some? {
      assert i < |calls| ==> s.calls[i].delta.Some?;
      assert i >= |calls| ==> s.puts[i - |calls|].delta.Some?;
    }
    if i :| 0 <= i < |s.calls| && i < 25 && s.calls[i].delta.Some? { assert both[i].delta.Some?; }
    if i :| 0 <= i < |s.puts| && i < 25 && s.puts[i].delta.Some? { assert both[|calls| + i].delta.Some?; }
  }

  ghost predicate Answers(s: Search, points: seq<Point>, fates: seq<Fate>, out: Outcome)
    requires |points| == |fates|
  {
    && out.counters.Some? && out.counters.value == TallyOf(fates)
    && HoldsOverall(points, fates, out.best)
    && if NonePositive(fates) then
         out.legs == [] && out.cost == 0.0 && out.reason == Some(FirstEmptyStage(out.counters.value))
       else
         && out.legs != [] && out.reason.None? && out.best.Some?
         && SelectLegs(s.calls, s.puts, out.best.value.0.target, out.best.value.0.width) == Some(out.legs)
         && out.cost == TotalCost(out.legs)
  }

  /** What the loops keep about the points done so far. */
  ghost predicate Progress(
    s: Search, points: seq<Point>, ev: EvInputs -> Option<real>,
    c: Counters, memo: Memo, pos: Option<Best>, all: Option<(Point, real)>)
  {
    var fates := MemoRun(Gates(s, points), ev).0;
    && MemoRun(Gates(s, points), ev) == (fates, memo) && c == TallyOf(fates)
    && HoldsPositive(s, points, fates, pos) && HoldsOverall(points, fates, all)
  }

  lemma ProgressStarts(s: Search, deltas: seq<real>, widths: seq<real>, ev: EvInputs -> Option<real>)
    ensures Progress(s, Upto(deltas, widths, 0, 0), ev, Counters(0, 0, 0, 0, 0, 0), map[], None, None)
  {
    assert |Gates(s, [])| == 0;
    assert MemoRun(Gates(s, []), ev) == ([], map[]);
    ReachedAll([]);
    ReachedNested([], 0, 1);
    ReachedNested([], 0, 2);
    ReachedNested([], 0, 3);
    ReachedNested([], 0, 4);
    assert TallyOf([]) == Counters(0, 0, 0, 0, 0, 0);
  }

  /** The running best: replaced only by a strictly greater EV. */
  function BetterOf(all: Option<(Point, real)>, p: Point, v: real): Option<(Point, real)> {
    if all.None? || v > all.value.1 then Some((p, v)) else all
  }

  function BetterPositive(pos: Option<Best>, b: Best): Option<Best> {
    if b.ev > 0.0 && (pos.None? || b.ev > pos.value.ev) then Some(b) else pos
  }

  /** The state one combination leaves. */
  ghost predicate Tried(
    s: Search, p: Point, ev: EvInputs -> Option<real>,
    c0: Counters, memo0: Memo, pos0: Option<Best>, all0: Option<(Point, real)>,
    c: Counters, memo: Memo, pos: Option<Best>, all: Option<(Point, real)>)
  {
    var f := Visit(memo0, GateOf(s, p), ev).0;
    && Visit(memo0, GateOf(s, p), ev) == (f, memo) && c == Bump(c0, f)
    && match f
       case Scored(v) =>
         var legs := SelectLegs(s.calls, s.puts, p.target, p.width);
         && all == BetterOf(all0, p, v)
         && legs.Some? && pos == BetterPositive(pos0, Best(p, v, legs.value, TotalCost(legs.value)))
       case _ => all == all0 && pos == pos0
  }

  lemma ProgressAdvances(
    s: Search, points: seq<Point>, p: Point, ev: EvInputs -> Option<real>,
    c0: Counters, memo0: Memo, pos0: Option<Best>, all0: Option<(Point, real)>,
    c: Counters, memo: Memo, pos: Option<Best>, all: Option<(Point, real)>)
    requires Progress(s, points, ev, c0, memo0, pos0, all0)
    requires Tried(s, p, ev, c0, memo0, pos0, all0, c, memo, pos, all)
    ensures Progress(s, points + [p], ev, c, memo, pos, all)
  {
    var fates := MemoRun(Gates(s, points), ev).0;
    var f := Visit(memo0, GateOf(s, p), ev).0;
    RunAdvances(s, points, p, ev);
    TallyAdvances(fates, f);
    PositiveAdvances(s, points, fates, pos0, p, f);
    OverallAdvances(points, fates, all0, p, f);
  }

  function Report(c: Counters, pos: Option<Best>, all: Option<(Point, real)>): Outcome {
    match pos
    case Some(b) => Outcome(b.legs, b.cost, None, Some(c), Some((b.point, b.ev)))
    case None => Outcome([], 0.0, Some(FirstEmptyStage(c)), Some(c), all)
  }

  lemma ProgressAnswers(
    s: Search, points: seq<Point>, ev: EvInputs -> Option<real>,
    c: Counters, memo: Memo, pos: Option<Best>, all: Option<(Point, real)>)
    requires Progress(s, points, ev, c, memo, pos, all)
    ensures Answers(s, points, MemoRun(Gates(s, points), ev).0, Report(c, pos, all))
  {
  }

  // ---- what the answer says of the quotes ----------------------------------

  lemma StoppedFate(gates: seq<Gate>, ev: EvInputs -> Option<real>, i: nat)
    requires i < |gates|
    ensures var fate := MemoRun(gates, ev).0[i];
            if gates[i].Stopped? then fate == gates[i].fate else fate.Scored? || fate.EvFailed?
  {
    MemoisedFate(gates, ev, i);
  }

  lemma GateStage(s: Search, p: Point)
    requires TypedChain(s)
    ensures var g := GateOf(s, p);
            && (g.Pass? <==> TradeableAt(s, p))
            && (g.Stopped? ==>
                  && Stage(g.fate) < 3
                  && (Stage(g.fate) >= 1 <==> QuotedAt(s, p)) && (Stage(g.fate) >= 2 <==> PaysAt(s, p)))
    ensures (TradeableAt(s, p) ==> PaysAt(s, p)) && (PaysAt(s, p) ==> QuotedAt(s, p))
  {
    GateMeaning(s, p);
  }

  lemma FateStage(g: Gate, fate: Fate, quoted: bool, pays: bool, tradeable: bool)
    requires (g.Pass? <==> tradeable) && (tradeable ==> pays) && (pays ==> quoted)
    requires g.Stopped? ==>
               Stage(g.fate) < 3 && (Stage(g.fate) >= 1 <==> quoted) && (Stage(g.fate) >= 2 <==> pays)
    requires if g.Stopped? then fate == g.fate else fate.Scored? || fate.EvFailed?
    ensures (Stage(fate) >= 1 <==> quoted) && (Stage(fate) >= 2 <==> pays) && (Stage(fate) >= 3 <==> tradeable)
  {
  }

  /** How far a point of a search got. */
  lemma StageMeaning(s: Search, points: seq<Point>, ev: EvInputs -> Option<real>, i: nat)
    requires TypedChain(s) && i < |points|
    ensures var stage := Stage(MemoRun(Gates(s, points), ev).0[i]);
            && (stage >= 1 <==> QuotedAt(s, points[i]))
            && (stage >= 2 <==> PaysAt(s, points[i]))
            && (stage >= 3 <==> TradeableAt(s, points[i]))
  {
    GateStage(s, points[i]);
    StoppedFate(Gates(s, points), ev, i);
    FateStage(GateOf(s, points[i]), MemoRun(Gates(s, points), ev).0[i],
              QuotedAt(s, points[i]), PaysAt(s, points[i]), TradeableAt(s, points[i]));
  }

  /** The positions of a search at which something holds. */
  ghost function Where(points: seq<Point>, holds: Point -> bool): set<nat> {
    set i: nat | i < |points| && holds(points[i])
  }

  /** The counters count the points with two-sided quotes, those that also have
      the shape and the credit, and those whose spreads are also tight. */
  lemma CountersMeaning(s: Search, points: seq<Point>, ev: EvInputs -> Option<real>)
    requires TypedChain(s)
    ensures var c := TallyOf(MemoRun(Gates(s, points), ev).0);
            && c.tried == |points|
            && c.quoted == |Where(points, p => QuotedAt(s, p))|
            && c.passCredit == |Where(points, p => PaysAt(s, p))|
            && c.passSpread == |Where(points, p => TradeableAt(s, p))|
  {
    var fates := MemoRun(Gates(s, points), ev).0;
    forall i | 0 <= i < |points|
      ensures (Stage(fates[i]) >= 1 <==> QuotedAt(s, points[i])) && (Stage(fates[i]) >= 2 <==> PaysAt(s, points[i]))
      ensures Stage(fates[i]) >= 3 <==> TradeableAt(s, points[i])
    {
      StageMeaning(s, points, ev, i);
    }
    assert Reachers(fates, 1) == Where(points, p => QuotedAt(s, p));
    assert Reachers(fates, 2) == Where(points, p => PaysAt(s, p));
    assert Reachers(fates, 3) == Where(points, p => TradeableAt(s, p));
  }

  ghost predicate SomeQuoted(s: Search, points: seq<Point>) {
    exists p :: p in points && QuotedAt(s, p)
  }

  ghost predicate SomePays(s: Search, points: seq<Point>) {
    exists p :: p in points && PaysAt(s, p)
  }

  ghost predicate SomeTradeable(s: Search, points: seq<Point>) {
    exists p :: p in points && TradeableAt(s, p)
  }

  ghost predicate SomeValued(s: Search, points: seq<Point>, ev: EvInputs -> Option<real>) {
    exists i :: 0 <= i < |points| && TradeableAt(s, points[i]) && EvAt(s, points[i], ev).Some?
  }

  lemma NoneReachedIff(s: Search, points: seq<Point>, ev: EvInputs -> Option<real>)
    requires TypedChain(s)
    ensures var fates := MemoRun(Gates(s, points), ev).0;
            && (NoneReached(fates, 1) <==> !SomeQuoted(s, points))
            && (NoneReached(fates, 2) <==> !SomePays(s, points))
            && (NoneReached(fates, 3) <==> !SomeTradeable(s, points))
  {
    var fates := MemoRun(Gates(s, points), ev).0;
    forall i | 0 <= i < |points|
      ensures points[i] in points
      ensures (Stage(fates[i]) >= 1 <==> QuotedAt(s, points[i])) && (Stage(fates[i]) >= 2 <==> PaysAt(s, points[i]))
      ensures Stage(fates[i]) >= 3 <==> TradeableAt(s, points[i])
    {
      StageMeaning(s, points, ev, i);
    }
  }

  /** The EV of a tradeable point, computed for itself. */
  function EvAt(s: Search, p: Point, ev: EvInputs -> Option<real>): Option<real>
    requires TradeableAt(s, p)
  {
    ev(ModelInputs(PickedAt(s, p).value))
  }

  /** A score comes from some point's own EV. */
  lemma ScoredSource(gates: seq<Gate>, ev: EvInputs -> Option<real>, i: nat) returns (j: nat)
    requires i < |gates| && MemoRun(gates, ev).0[i].Scored? && (gates[i].Stopped? ==> !gates[i].fate.Scored?)
    ensures j <= i && gates[j].Pass? && ev(gates[j].x) == Some(MemoRun(gates, ev).0[i].ev)
  {
    MemoisedFate(gates, ev, i);
    var fate := MemoRun(gates, ev).0[i];
    if fate == FateOf(gates[i], ev) {
      j := i;
    } else {
      j :| 0 <= j < i && gates[j].Pass? && ev(gates[j].x) == Some(fate.ev);
    }
  }

  lemma TradeablePasses(s: Search, points: seq<Point>, i: nat)
    requires TypedChain(s) && i < |points|
    ensures Gates(s, points)[i].Pass? <==> TradeableAt(s, points[i])
    ensures TradeableAt(s, points[i]) ==> Gates(s, points)[i].x == ModelInputs(PickedAt(s, points[i]).value)
    ensures Gates(s, points)[i].Stopped? ==> !Gates(s, points)[i].fate.Scored?
  {
    GateMeaning(s, points[i]);
  }

  lemma EvGivesScore(s: Search, points: seq<Point>, ev: EvInputs -> Option<real>, i: nat)
    requires TypedChain(s) && i < |points| && TradeableAt(s, points[i]) && EvAt(s, points[i], ev).Some?
    ensures MemoRun(Gates(s, points), ev).0[i].Scored?
  {
    TradeablePasses(s, points, i);
    MemoHolds(Gates(s, points), ev, i);
  }

  lemma ScoreNeedsEv(s: Search, points: seq<Point>, ev: EvInputs -> Option<real>, i: nat) returns (j: nat)
    requires TypedChain(s) && i < |points| && MemoRun(Gates(s, points), ev).0[i].Scored?
    ensures j < |points| && TradeableAt(s, points[j]) && EvAt(s, points[j], ev).Some?
  {
    TradeablePasses(s, points, i);
    j := ScoredSource(Gates(s, points), ev, i);
    TradeablePasses(s, points, j);
  }

  lemma ScoreReaches(fates: seq<Fate>, i: nat)
    requires i < |fates| && fates[i].Scored?
    ensures !NoneReached(fates, 4)
  {
    assert Stage(fates[i]) == 4;
  }

  lemma ValuedIsScored(s: Search, points: seq<Point>, ev: EvInputs -> Option<real>)
    requires TypedChain(s) && SomeValued(s, points, ev)
    ensures !NoneReached(MemoRun(Gates(s, points), ev).0, 4)
  {
    var i :| 0 <= i < |points| && TradeableAt(s, points[i]) && EvAt(s, points[i], ev).Some?;
    EvGivesScore(s, points, ev, i);
    ScoreReaches(MemoRun(Gates(s, points), ev).0, i);
  }

  /** No point is scored exactly when no tradeable one has an EV. */
  lemma NoneScoredIff(s: Search, points: seq<Point>, ev: EvInputs -> Option<real>)
    requires TypedChain(s)
    ensures NoneReached(MemoRun(Gates(s, points), ev).0, 4) <==> !SomeValued(s, points, ev)
  {
    var fates := MemoRun(Gates(s, points), ev).0;
    if SomeValued(s, points, ev) {
      ValuedIsScored(s, points, ev);
    } else if i :| 0 <= i < |fates| && Stage(fates[i]) >= 4 {
      var j := ScoreNeedsEv(s, points, ev, i);
      assert false;
    }
  }

  /** The first thing that no point of the search has. */
  ghost predicate ReasonFits(s: Search, points: seq<Point>, ev: EvInputs -> Option<real>, reason: Reason) {
    match reason
    case NoValidNbbo => !SomeQuoted(s, points)
    case CreditBelowMin => SomeQuoted(s, points) && !SomePays(s, points)
    case SpreadAboveThreshold => SomePays(s, points) && !SomeTradeable(s, points)
    case EvNotComputed => SomeTradeable(s, points) && !SomeValued(s, points, ev)
    case NoPositiveEv => SomeValued(s, points, ev)
    case _ => false
  }

  /** The reason a search reports, told from the quotes.  "Credit below minimum"
      is also what it reports when every quoted condor has the wrong shape. */
  lemma ReasonMeaning(s: Search, points: seq<Point>, ev: EvInputs -> Option<real>, reason: Reason)
    requires TypedChain(s)
    ensures reason == FirstEmptyStage(TallyOf(MemoRun(Gates(s, points), ev).0)) <==> ReasonFits(s, points, ev, reason)
  {
    ReasonNamesFirstEmptyStage(MemoRun(Gates(s, points), ev).0);
    NoneReachedIff(s, points, ev);
    NoneScoredIff(s, points, ev);
  }

  /** The leg is this contract bought at its ask or sold at its bid. */
  predicate LegOf(leg: Leg, c: Contract, side: Side, right: Right)
    requires TwoSided(c)
  {
    && leg.symbol == c.symbol && leg.strike == c.strike && leg.expiry == c.expiry
    && leg.right == right && leg.side == side
    && leg.premium == (if side.Buy? then c.ask.value else c.bid.value)
    && leg.delta == (if c.delta.Some? then c.delta.value else 0.0) && leg.bid == c.bid && leg.ask == c.ask
    && leg.mid.Some? && leg.mid.value - c.bid.value == c.ask.value - leg.mid.value
  }

  predicate BuiltFrom(legs: seq<Leg>, q: Quad)
    requires TwoSided(q.shortPut) && TwoSided(q.longPut) && TwoSided(q.shortCall) && TwoSided(q.longCall)
  {
    && |legs| == 4
    && LegOf(legs[0], q.shortPut, Sell, Put) && LegOf(legs[1], q.longPut, Buy, Put)
    && LegOf(legs[2], q.shortCall, Sell, Call) && LegOf(legs[3], q.longCall, Buy, Call)
  }

  /** The legs of a tradeable point of the search, at their cost. */
  ghost predicate FromTradeable(s: Search, points: seq<Point>, out: Outcome) {
    exists p :: p in points && TradeableAt(s, p)
                && BuiltFrom(out.legs, PickedAt(s, p).value) && out.cost == -NetCredit(PickedAt(s, p).value)
  }

  lemma TradeableLegs(s: Search, p: Point)
    requires TypedChain(s) && TradeableAt(s, p)
    ensures var (legs, q) := (SelectLegs(s.calls, s.puts, p.target, p.width), PickedAt(s, p).value);
            legs.Some? && BuiltFrom(legs.value, q) && TotalCost(legs.value) == -NetCredit(q)
  {
    var q := PickedAt(s, p).value;
    PickedRoles(s, p);
    QuadCost(q);
    QuadIsBuilt(q);
  }

  /** What a finished search answers, in terms of the quotes alone. */
  lemma AnswerMeaning(s: Search, points: seq<Point>, ev: EvInputs -> Option<real>, out: Outcome)
    requires TypedChain(s) && Answers(s, points, MemoRun(Gates(s, points), ev).0, out)
    ensures out.legs != [] ==> FromTradeable(s, points, out)
    ensures out.legs == [] ==> out.reason.Some? && ReasonFits(s, points, ev, out.reason.value)
  {
    if out.legs == [] {
      ReasonMeaning(s, points, ev, out.reason.value);
    } else {
      var fates := MemoRun(Gates(s, points), ev).0;
      var i :| EarliestBest(fates, i) && points[i] == out.best.value.0 && fates[i].ev == out.best.value.1;
      StageMeaning(s, points, ev, i);
      TradeableLegs(s, points[i]);
      assert points[i] in points;
    }
  }

  lemma QuadIsBuilt(q: Quad)
    requires QuotedQuad(q)
    requires Typed(q.shortPut, Put) && Typed(q.longPut, Put) && Typed(q.shortCall, Call) && Typed(q.longCall, Call)
    ensures BuiltFrom(QuadLegs(q), q)
  {
  }

  method SelectBestIronCondorEvAware(s: Search, deltas: seq<real>, widths: seq<real>, ev: EvInputs -> Option<real>)
    returns (out: Outcome)
    ensures s.calls == [] || s.puts == [] ==> out == Outcome([], 0.0, Some(EmptyChain), None, None)
    ensures s.calls != [] && s.puts != [] && !ChainHasDelta(s) ==>
              out == Outcome([], 0.0, Some(NoDeltasInChain), None, None)
    ensures s.calls != [] && s.puts != [] && ChainHasDelta(s) ==>
              Answers(s, Grid(deltas, widths), MemoRun(Gates(s, Grid(deltas, widths)), ev).0, out)
    ensures TypedChain(s) && out.legs != [] ==> FromTradeable(s, Grid(deltas, widths), out)
    ensures TypedChain(s) && out.legs == [] && s.calls != [] && s.puts != [] && ChainHasDelta(s) ==>
              out.reason.Some? && ReasonFits(s, Grid(deltas, widths), ev, out.reason.value)
  {
    if s.calls == [] || s.puts == [] { return Outcome([], 0.0, Some(EmptyChain), None, None); }
    if !ChainHasDelta(s) { return Outcome([], 0.0, Some(NoDeltasInChain), None, None); }
    var c, memo, bestPositive, bestOverall := SearchGrid(s, deltas, widths, ev);
    ProgressAnswers(s, Grid(deltas, widths), ev, c, memo, bestPositive, bestOverall);
    out := Report(c, bestPositive, bestOverall);
    if TypedChain(s) { AnswerMeaning(s, Grid(deltas, widths), ev, out); }
  }

  method SearchGrid(s: Search, deltas: seq<real>, widths: seq<real>, ev: EvInputs -> Option<real>)
    returns (c: Counters, memo: Memo, bestPositive: Option<Best>, bestOverall: Option<(Point, real)>)
    ensures Progress(s, Grid(deltas, widths), ev, c, memo, bestPositive, bestOverall)
  {
    c, memo, bestPositive, bestOverall := Counters(0, 0, 0, 0, 0, 0), map[], None, None;
    ProgressStarts(s, deltas, widths, ev);
    for i := 0 to |deltas|
      invariant Progress(s, Upto(deltas, widths, i, 0), ev, c, memo, bestPositive, bestOverall)
    {
      c, memo, bestPositive, bestOverall := SearchRow(s, deltas, widths, i, ev, c, memo, bestPositive, bestOverall);
      RowDone(deltas, widths, i);
    }
  }

  /** The inner loop: every width for one target. */
  method SearchRow(
    s: Search, deltas: seq<real>, widths: seq<real>, i: nat, ev: EvInputs -> Option<real>,
    c0: Counters, memo0: Memo, pos0: Option<Best>, all0: Option<(Point, real)>)
    returns (c: Counters, memo: Memo, bestPositive: Option<Best>, bestOverall: Option<(Point, real)>)
    requires i < |deltas| && Progress(s, Upto(deltas, widths, i, 0), ev, c0, memo0, pos0, all0)
    ensures Progress(s, Upto(deltas, widths, i, |widths|), ev, c, memo, bestPositive, bestOverall)
  {
    c, memo, bestPositive, bestOverall := c0, memo0, pos0, all0;
    for j := 0 to |widths|
      invariant Progress(s, Upto(deltas, widths, i, j), ev, c, memo, bestPositive, bestOverall)
    {
      var c', memo', positive', overall' := TryCombo(s, deltas[i], widths[j], ev, c, memo, bestPositive, bestOverall);
      ProgressAdvances(s, Upto(deltas, widths, i, j), Point(deltas[i], widths[j]), ev,
                       c, memo, bestPositive, bestOverall, c', memo', positive', overall');
      RowStep(deltas, widths, i, j);
      c, memo, bestPositive, bestOverall := c', memo', positive', overall';
    }
  }

  /** The EV of a point, through the memo. */
  method EvOf(memo0: Memo, x: EvInputs, ev: EvInputs -> Option<real>) returns (v: Option<real>, memo: Memo)
    ensures (if v.Some? then Scored(v.value) else EvFailed, memo) == Visit(memo0, Pass(x), ev)
  {
    memo := memo0;
    var key := KeyOf(x);
    if key in memo { return Some(memo[key]), memo; }
    v := ev(x);
    if v.Some? { memo := memo[key := v.value]; }
  }

  /** The counters of the tests before the EV. */
  function Screened(c: Counters, g: Gate): Counters {
    var stage := match g case Stopped(f) => Stage(f) case Pass(_) => 3;
    Counters(c.tried + 1,
             c.quoted + (if stage >= 1 then 1 else 0),
             c.passCredit + (if stage >= 2 then 1 else 0),
             c.passSpread + (if stage >= 3 then 1 else 0),
             c.computed, c.errors)
  }

  /** The first half of the loop body: build the legs and test them. */
  method Screen(s: Search, target: real, width: real, c0: Counters)
    returns (c: Counters, g: Gate, legs: seq<Leg>, totalCost: real)
    ensures g == GateOf(s, Point(target, width)) && c == Screened(c0, g)
    ensures g.Pass? ==> SelectLegs(s.calls, s.puts, target, width) == Some(legs) && totalCost == TotalCost(legs)
  {
    c := c0.(tried := c0.tried + 1);
    legs, totalCost := SelectIronCondorLegsParam(s.calls, s.puts, target, width);
    if legs == [] { return c, Stopped(NoQuote), legs, totalCost; }
    c := c.(quoted := c.quoted + 1);
    if !ValidCondor(legs) { return c, Stopped(BadShape), legs, totalCost; }
    var creditShare := CondorCredit(totalCost);
    if creditShare < s.minCredit { return c, Stopped(LowCredit), legs, totalCost; }
    c := c.(passCredit := c.passCredit + 1);
    var maxLegSpread := MaxLegSpreadPct(legs);
    if maxLegSpread.None? || maxLegSpread.value > s.threshold { return c, Stopped(WideSpread), legs, totalCost; }
    c := c.(passSpread := c.passSpread + 1);
    g := Pass(InputsOf(legs));
  }

  /** The body of the nested loops. */
  method TryCombo(
    s: Search, target: real, width: real, ev: EvInputs -> Option<real>,
    c0: Counters, memo0: Memo, pos0: Option<Best>, all0: Option<(Point, real)>)
    returns (c: Counters, memo: Memo, pos: Option<Best>, all: Option<(Point, real)>)
    ensures Tried(s, Point(target, width), ev, c0, memo0, pos0, all0, c, memo, pos, all)
  {
    memo, pos, all := memo0, pos0, all0;
    var g, legs, totalCost;
    c, g, legs, totalCost := Screen(s, target, width, c0);
    if g.Stopped? { return; }
    var computed;
    computed, memo := EvOf(memo, g.x, ev);
    if computed.None? {
      c := c.(errors := c.errors + 1);
      return;
    }
    c := c.(computed := c.computed + 1);
    var p := Point(target, width);
    all := BetterOf(all, p, computed.value);
    pos := BetterPositive(pos, Best(p, computed.value, legs, totalCost));
  }

  // ---- what the search returns ---------------------------------------------

  /** A combination that passes every test with a positive EV of its own. */
  ghost predicate Viable(s: Search, ev: EvInputs -> Option<real>, p: Point) {
    var f := FateOf(GateOf(s, p), ev);
    f.Scored? && f.ev > 0.0
  }

  /** The EV of a combination on its own, zero when it is not scored. */
  function OwnEv(s: Search, ev: EvInputs -> Option<real>, p: Point): real {
    match FateOf(GateOf(s, p), ev)
    case Scored(v) => v
    case _ => 0.0
  }

  ghost predicate ViableIn(s: Search, deltas: seq<real>, widths: seq<real>, ev: EvInputs -> Option<real>, p: Point) {
    p.target in deltas && p.width in widths && Viable(s, ev, p)
  }

  /** The first in grid order of the viable points of greatest own EV. */
  ghost predicate FirstBest(s: Search, deltas: seq<real>, widths: seq<real>, ev: EvInputs -> Option<real>, i: nat) {
    var points := Grid(deltas, widths);
    && i < |points| && ViableIn(s, deltas, widths, ev, points[i])
    && (forall p | ViableIn(s, deltas, widths, ev, p) :: OwnEv(s, ev, p) <= OwnEv(s, ev, points[i]))
    && (forall k | 0 <= k < i && ViableIn(s, deltas, widths, ev, points[k]) ::
          OwnEv(s, ev, points[k]) < OwnEv(s, ev, points[i]))
  }

  lemma ViableOnGrid(s: Search, deltas: seq<real>, widths: seq<real>, ev: EvInputs -> Option<real>, p: Point)
    ensures ViableIn(s, deltas, widths, ev, p) <==> p in Grid(deltas, widths) && Viable(s, ev, p)
  {
    GridMembers(deltas, widths, p);
  }

  /** The fates are the points' own. */
  ghost predicate OwnFates(s: Search, points: seq<Point>, ev: EvInputs -> Option<real>, fates: seq<Fate>) {
    |points| == |fates| && forall i | 0 <= i < |fates| :: fates[i] == FateOf(GateOf(s, points[i]), ev)
  }

  lemma TransparentFates(s: Search, points: seq<Point>, ev: EvInputs -> Option<real>)
    requires Transparent(Gates(s, points), ev)
    ensures OwnFates(s, points, ev, MemoRun(Gates(s, points), ev).0)
  {
    var gates := Gates(s, points);
    forall i | 0 <= i < |points| ensures MemoRun(gates, ev).0[i] == FateOf(GateOf(s, points[i]), ev) {
      assert gates[i] == GateOf(s, points[i]);
    }
  }

  lemma PositiveSomewhere(
    s: Search, deltas: seq<real>, widths: seq<real>, ev: EvInputs -> Option<real>, fates: seq<Fate>)
    requires OwnFates(s, Grid(deltas, widths), ev, fates)
    ensures !NonePositive(fates) <==> exists p :: ViableIn(s, deltas, widths, ev, p)
  {
    var points := Grid(deltas, widths);
    if j :| 0 <= j < |fates| && fates[j].Scored? && fates[j].ev > 0.0 {
      ViableOnGrid(s, deltas, widths, ev, points[j]);
    }
    if p :| ViableIn(s, deltas, widths, ev, p) {
      ViableOnGrid(s, deltas, widths, ev, p);
      var k :| 0 <= k < |points| && points[k] == p;
      assert fates[k].ev > 0.0;
    }
  }

  lemma NoneIsBetter(
    s: Search, deltas: seq<real>, widths: seq<real>, ev: EvInputs -> Option<real>, fates: seq<Fate>, i: nat, p: Point)
    requires OwnFates(s, Grid(deltas, widths), ev, fates) && EarliestBest(fates, i)
    requires ViableIn(s, deltas, widths, ev, p)
    ensures OwnEv(s, ev, p) <= fates[i].ev
  {
    var points := Grid(deltas, widths);
    ViableOnGrid(s, deltas, widths, ev, p);
    var k :| 0 <= k < |points| && points[k] == p;
    assert fates[k].ev <= fates[i].ev;
  }

  lemma EarliestIsFirstBest(
    s: Search, deltas: seq<real>, widths: seq<real>, ev: EvInputs -> Option<real>, fates: seq<Fate>, i: nat)
    requires OwnFates(s, Grid(deltas, widths), ev, fates) && EarliestBest(fates, i) && fates[i].ev > 0.0
    ensures FirstBest(s, deltas, widths, ev, i)
  {
    var points := Grid(deltas, widths);
    ViableOnGrid(s, deltas, widths, ev, points[i]);
    assert OwnEv(s, ev, points[i]) == fates[i].ev;
    forall p | ViableIn(s, deltas, widths, ev, p) ensures OwnEv(s, ev, p) <= OwnEv(s, ev, points[i]) {
      NoneIsBetter(s, deltas, widths, ev, fates, i, p);
    }
    forall k | 0 <= k < i && ViableIn(s, deltas, widths, ev, points[k])
      ensures OwnEv(s, ev, points[k]) < OwnEv(s, ev, points[i])
    {
      assert fates[k].ev < fates[i].ev;
    }
  }

  lemma BestOf(s: Search, points: seq<Point>, fates: seq<Fate>, out: Outcome) returns (i: nat)
    requires |points| == |fates| && Answers(s, points, fates, out) && out.legs != []
    ensures EarliestBest(fates, i) && fates[i].ev > 0.0
    ensures out.best.Some? && points[i] == out.best.value.0
    ensures SelectLegs(s.calls, s.puts, points[i].target, points[i].width) == Some(out.legs)
  {
    i :| EarliestBest(fates, i) && points[i] == out.best.value.0 && fates[i].ev == out.best.value.1;
    var j :| 0 <= j < |fates| && fates[j].Scored? && fates[j].ev > 0.0;
    assert fates[j].ev <= fates[i].ev;
  }

  /** Where the memo is invisible, legs come back exactly when some combination
      is viable, and then they are the legs of the earliest of greatest EV. */
  lemma SearchIsArgmax(
    s: Search, deltas: seq<real>, widths: seq<real>, ev: EvInputs -> Option<real>, out: Outcome)
    returns (i: nat)
    requires Transparent(Gates(s, Grid(deltas, widths)), ev)
    requires Answers(s, Grid(deltas, widths), MemoRun(Gates(s, Grid(deltas, widths)), ev).0, out)
    ensures out.legs != [] <==> exists p :: ViableIn(s, deltas, widths, ev, p)
    ensures out.legs != [] ==>
              && FirstBest(s, deltas, widths, ev, i)
              && var best := Grid(deltas, widths)[i];
                 SelectLegs(s.calls, s.puts, best.target, best.width) == Some(out.legs)
  {
    var points := Grid(deltas, widths);
    var fates := MemoRun(Gates(s, points), ev).0;
    TransparentFates(s, points, ev);
    PositiveSomewhere(s, deltas, widths, ev, fates);
    i := 0;
    if out.legs != [] {
      i := BestOf(s, points, fates, out);
      EarliestIsFirstBest(s, deltas, widths, ev, fates, i);
    }
  }
}
