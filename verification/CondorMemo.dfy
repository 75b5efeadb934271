/** What the memo of the grid search does to its answers. */
module CondorMemo {
  import opened Common
  import opened OptionTypes
  import opened RiskPrimitives
  import opened CondorLegs
  import opened CondorSearch
  import EvCalculator

  // ---- the strict model on the rounding grid -------------------------------

  function StrictEv(x: EvInputs): Option<real> {
    Some(EvCalculator.CondorEv(x.credit, x.widthPut, x.widthCall, x.dShortPut, x.dShortCall).expectedValue)
  }

  predicate Whole(x: real) { x.Floor as real == x }

  predicate OnGrid(x: real, scale: real) {
    Whole(x * scale)
  }

  lemma WholeSum(u: real, v: real)
    requires Whole(u) && Whole(v)
    ensures Whole(u + v) && Whole(u - v) && Whole(-u)
  {
    assert ((u.Floor + v.Floor) as real).Floor == u.Floor + v.Floor;
    assert ((u.Floor - v.Floor) as real).Floor == u.Floor - v.Floor;
    assert ((-u.Floor) as real).Floor == -u.Floor;
  }

  lemma OnGridSum(x: real, y: real, scale: real)
    requires OnGrid(x, scale) && OnGrid(y, scale)
    ensures OnGrid(x + y, scale) && OnGrid(x - y, scale) && OnGrid(-x, scale)
  {
    var u, v := x * scale, y * scale;
    WholeSum(u, v);
    assert (x + y) * scale == u + v;
    assert (x - y) * scale == u - v;
    assert -x * scale == -u;
  }

  lemma OnGridAbs(x: real, scale: real)
    requires OnGrid(x, scale)
    ensures OnGrid(Abs(x), scale)
  {
    OnGridSum(x, x, scale);
    var y := Abs(x);
    if x < 0.0 { assert y == -x; } else { assert y == x; }
  }

  /** Quotes and deltas to four decimals, strikes to two. */
  predicate ContractOnGrid(c: Contract) {
    && OnGrid(c.strike, 100.0)
    && (c.bid.Some? ==> OnGrid(c.bid.value, 10000.0)) && (c.ask.Some? ==> OnGrid(c.ask.value, 10000.0))
    && (c.delta.Some? ==> OnGrid(c.delta.value, 10000.0))
  }

  predicate ChainOnGrid(s: Search) {
    (forall c | c in s.calls :: ContractOnGrid(c)) && (forall c | c in s.puts :: ContractOnGrid(c))
  }

  predicate LegOnGrid(l: Leg) {
    OnGrid(l.strike, 100.0) && OnGrid(l.premium, 10000.0) && OnGrid(l.delta, 10000.0)
  }

  predicate InputsOnGrid(x: EvInputs) {
    && OnGrid(x.credit, 10000.0) && OnGrid(x.widthPut, 100.0) && OnGrid(x.widthCall, 100.0)
    && OnGrid(x.dShortPut, 10000.0) && OnGrid(x.dShortCall, 10000.0)
  }

  lemma {:induction false} CostOnGrid(legs: seq<Leg>)
    requires forall i | 0 <= i < |legs| :: LegOnGrid(legs[i])
    ensures OnGrid(TotalCost(legs), 10000.0)
  {
    if legs != [] {
      var front, last := legs[..|legs| - 1], legs[|legs| - 1];
      CostOnGrid(front);
      assert LegOnGrid(last);
      OnGridSum(TotalCost(front), last.premium, 10000.0);
    }
  }

  lemma SelectedOnGrid(s: Search, target: real, width: real, l: Leg)
    requires ChainOnGrid(s) && SelectLegs(s.calls, s.puts, target, width).Some?
    requires l in SelectLegs(s.calls, s.puts, target, width).value
    ensures LegOnGrid(l)
  {
    var q := PickQuad(s.calls, s.puts, target, width).value;
    QuadIsClosest(s.calls, s.puts, target, width, q.shortCall);
    assert ContractOnGrid(q.shortCall) && ContractOnGrid(q.longCall);
    assert ContractOnGrid(q.shortPut) && ContractOnGrid(q.longPut);
  }

  lemma PassOnGrid(s: Search, p: Point)
    requires ChainOnGrid(s) && GateOf(s, p).Pass?
    ensures InputsOnGrid(GateOf(s, p).x)
  {
    var legs := SelectLegs(s.calls, s.puts, p.target, p.width).value;
    forall l | l in legs ensures LegOnGrid(l) { SelectedOnGrid(s, p.target, p.width, l); }
    CostOnGrid(legs);
    OnGridAbs(TotalCost(legs), 10000.0);
    var (calls, puts) := (OfRight(legs, Call), OfRight(legs, Put));
    PairOnGrid(legs, Call);
    PairOnGrid(legs, Put);
  }

  lemma PairOnGrid(legs: seq<Leg>, right: Right)
    requires (forall l | l in legs :: LegOnGrid(l)) && |OfRight(legs, right)| == 2
    ensures var pair := OfRight(legs, right);
            && OnGrid(WingWidth(pair), 100.0)
            && OnGrid(Abs(Lower(pair).delta), 10000.0) && OnGrid(Abs(Upper(pair).delta), 10000.0)
  {
    var pair := OfRight(legs, right);
    OfRightMembers(legs, right);
    assert pair[0] in pair && pair[1] in pair;
    OnGridSum(Upper(pair).strike, Lower(pair).strike, 100.0);
    OnGridAbs(Upper(pair).strike - Lower(pair).strike, 100.0);
    OnGridAbs(Lower(pair).delta, 10000.0);
    OnGridAbs(Upper(pair).delta, 10000.0);
  }

  lemma RoundOnGrid(x: real, y: real)
    ensures OnGrid(x, 10000.0) && OnGrid(y, 10000.0) && Round4(x) == Round4(y) ==> x == y
    ensures OnGrid(x, 100.0) && OnGrid(y, 100.0) && Round2(x) == Round2(y) ==> x == y
  {
  }

  /** Quotes on the rounding grid: the key loses nothing, and the memoised
      search under the strict model is the unmemoised one. */
  lemma StrictMemoTransparent(s: Search, points: seq<Point>)
    requires ChainOnGrid(s)
    ensures Transparent(Gates(s, points), StrictEv)
  {
    var gates := Gates(s, points);
    forall i, j | 0 <= j < i < |gates| && gates[i].Pass? && gates[j].Pass? && KeyOf(gates[j].x) == KeyOf(gates[i].x)
      ensures StrictEv(gates[j].x) == StrictEv(gates[i].x)
    {
      PassOnGrid(s, points[i]);
      PassOnGrid(s, points[j]);
      SameKeySameInputs(gates[i].x, gates[j].x);
    }
    MemoTransparentIff(gates, StrictEv);
  }

  lemma SameKeySameInputs(x: EvInputs, y: EvInputs)
    requires InputsOnGrid(x) && InputsOnGrid(y) && KeyOf(x) == KeyOf(y)
    ensures x.credit == y.credit && x.widthPut == y.widthPut && x.widthCall == y.widthCall
    ensures x.dShortPut == y.dShortPut && x.dShortCall == y.dShortCall
  {
    RoundOnGrid(x.credit, y.credit);
    RoundOnGrid(x.widthPut, y.widthPut);
    RoundOnGrid(x.widthCall, y.widthCall);
    RoundOnGrid(x.dShortPut, y.dShortPut);
    RoundOnGrid(x.dShortCall, y.dShortCall);
  }

  /** So under the strict model on such a chain the memoised search returns legs
      exactly when some combination is viable, and the earliest best of them. */
  lemma StrictSearchIsExact(s: Search, deltas: seq<real>, widths: seq<real>, out: Outcome) returns (i: nat)
    requires ChainOnGrid(s)
    requires Answers(s, Grid(deltas, widths), MemoRun(Gates(s, Grid(deltas, widths)), StrictEv).0, out)
    ensures out.legs != [] <==> exists p :: ViableIn(s, deltas, widths, StrictEv, p)
    ensures out.legs != [] ==>
              && FirstBest(s, deltas, widths, StrictEv, i)
              && var best := Grid(deltas, widths)[i];
                 SelectLegs(s.calls, s.puts, best.target, best.width) == Some(out.legs)
  {
    StrictMemoTransparent(s, Grid(deltas, widths));
    i := SearchIsArgmax(s, deltas, widths, StrictEv, out);
  }

  // ---- the strict model off the grid ---------------------------------------

  lemma SameRoundIsClose(x: real, y: real)
    ensures Round4(x) == Round4(y) ==> Abs(x - y) <= 0.0001
    ensures Round2(x) == Round2(y) ==> Abs(x - y) <= 0.01
  {
  }

  lemma AbsProduct(x: real, y: real)
    ensures Abs(x * y) == Abs(x) * Abs(y)
  {
    if x >= 0.0 {
      if y >= 0.0 { MulNonNegative(x, y); } else { MulNonNegative(x, -y); assert x * -y == -(x * y); }
    } else {
      if y >= 0.0 {
        MulNonNegative(-x, y);
        assert -x * y == -(x * y);
      } else {
        MulNonNegative(-x, -y);
        assert -x * -y == x * y;
      }
    }
  }

  lemma MulBound(x: real, y: real, d: real, m: real) returns (xy: real)
    requires Abs(x) <= d && Abs(y) <= m
    ensures xy == x * y && Abs(xy) <= d * m
  {
    xy := x * y;
    AbsProduct(x, y);
    var a, b := Abs(x), Abs(y);
    var ab, db, dm := a * b, d * b, d * m;
    assert ab <= db by { MulMonotone(a, d, b); }
    assert db <= dm by { MulMonotone(b, m, d); }
  }

  /** A product, as a term of its own. */
  function Times(x: real, y: real): real { x * y }

  lemma ProductGap(w1: real, c1: real, w2: real, c2: real, dw: real, m1: real, dc: real) returns (s: real, t: real)
    requires Abs(w1 - w2) <= dw && Abs(c1) <= m1 && Abs(w2) <= 1.0 && Abs(c1 - c2) <= dc
    ensures s == w1 * c1 && t == w2 * c2 && Abs(s - t) <= dw * m1 + dc
  {
    s, t := w1 * c1, w2 * c2;
    var a := MulBound(w1 - w2, c1, dw, m1);
    var b := MulBound(w2, c1 - c2, 1.0, dc);
    assert s - t == a + b;
  }

  /** Two products of close factors, named, are close. */
  lemma TermGap(w1: real, c1: real, w2: real, c2: real, dw: real, m1: real, dc: real) returns (s: real, t: real)
    requires Abs(w1 - w2) <= dw && Abs(c1) <= m1 && Abs(w2) <= 1.0 && Abs(c1 - c2) <= dc
    ensures s == Times(w1, c1) && t == Times(w2, c2) && Abs(s - t) <= dw * m1 + dc
  {
    s, t := ProductGap(w1, c1, w2, c2, dw, m1, dc);
  }

  /** How far two inputs with one key can be apart in strict EV. */
  function MemoError(x: EvInputs): real {
    2.03 + 0.01 * (2.0 * Abs(x.credit) + Max(0.0, x.widthPut - x.credit) + Max(0.0, x.widthCall - x.credit))
  }

  lemma StrictGap(x: EvInputs, y: EvInputs)
    requires KeyOf(x) == KeyOf(y)
    ensures Abs(StrictEv(x).value - StrictEv(y).value) <= MemoError(x)
  {
    SameRoundIsClose(x.credit, y.credit);
    SameRoundIsClose(x.widthPut, y.widthPut);
    SameRoundIsClose(x.widthCall, y.widthCall);
    SameRoundIsClose(x.dShortPut, y.dShortPut);
    SameRoundIsClose(x.dShortCall, y.dShortCall);
    StrictClose(x, y);
  }

  lemma UnitClose(x: real, y: real, d: real)
    requires Abs(x - y) <= d
    ensures Abs(EvCalculator.Unit(Abs(x)) - EvCalculator.Unit(Abs(y))) <= d
    ensures 0.0 <= EvCalculator.Unit(Abs(x)) <= 1.0
  {
  }

  lemma RoomClose(w1: real, c1: real, w2: real, c2: real, dw: real, dc: real)
    requires Abs(w1 - w2) <= dw && Abs(c1 - c2) <= dc
    ensures Abs(Max(0.0, w1 - c1) - Max(0.0, w2 - c2)) <= dw + dc
  {
  }

  lemma WinClose(p1: real, q1: real, p2: real, q2: real, d: real)
    requires Abs(p1 - p2) <= d && Abs(q1 - q2) <= d && p2 >= 0.0 && q2 >= 0.0
    ensures Abs((1.0 - Min(1.0, p1 + q1)) - (1.0 - Min(1.0, p2 + q2))) <= 2.0 * d
    ensures 0.0 <= 1.0 - Min(1.0, p2 + q2) <= 1.0
  {
  }

  lemma SumGap(u1: real, u2: real, u3: real, v1: real, v2: real, v3: real, e1: real, e2: real, e3: real)
    requires Abs(u1 - v1) <= e1 && Abs(u2 - v2) <= e2 && Abs(u3 - v3) <= e3
    ensures Abs((u1 - u2 - u3) - (v1 - v2 - v3)) <= e1 + e2 + e3
  {
  }

  /** The products a strict EV is made of. */
  ghost predicate Terms(x: EvInputs, won: real, lostPut: real, lostCall: real) {
    && won == Times(
         1.0 - Min(1.0, EvCalculator.Unit(Abs(x.dShortPut)) + EvCalculator.Unit(Abs(x.dShortCall))), x.credit)
    && lostPut == Times(EvCalculator.Unit(Abs(x.dShortPut)), Max(0.0, x.widthPut - x.credit))
    && lostCall == Times(EvCalculator.Unit(Abs(x.dShortCall)), Max(0.0, x.widthCall - x.credit))
  }

  lemma TermsMakeEv(x: EvInputs, won: real, lostPut: real, lostCall: real)
    requires Terms(x, won, lostPut, lostCall)
    ensures StrictEv(x).value == (won - lostPut - lostCall) * 100.0
  {
    var w, a, b := EvCalculator.StrictValue(x.credit, x.widthPut, x.widthCall, x.dShortPut, x.dShortCall);
  }

  lemma TermsClose(x: EvInputs, y: EvInputs) returns (s1: real, s2: real, s3: real, t1: real, t2: real, t3: real)
    requires Abs(x.credit - y.credit) <= 0.0001
    requires Abs(x.widthPut - y.widthPut) <= 0.01 && Abs(x.widthCall - y.widthCall) <= 0.01
    requires Abs(x.dShortPut - y.dShortPut) <= 0.0001 && Abs(x.dShortCall - y.dShortCall) <= 0.0001
    ensures Terms(x, s1, s2, s3) && Terms(y, t1, t2, t3)
    ensures Abs(s1 - t1) <= 0.0002 * Abs(x.credit) + 0.0001
    ensures Abs(s2 - t2) <= 0.0001 * Max(0.0, x.widthPut - x.credit) + 0.0101
    ensures Abs(s3 - t3) <= 0.0001 * Max(0.0, x.widthCall - x.credit) + 0.0101
  {
    var p1, q1 := EvCalculator.Unit(Abs(x.dShortPut)), EvCalculator.Unit(Abs(x.dShortCall));
    var p2, q2 := EvCalculator.Unit(Abs(y.dShortPut)), EvCalculator.Unit(Abs(y.dShortCall));
    UnitClose(x.dShortPut, y.dShortPut, 0.0001);
    UnitClose(x.dShortCall, y.dShortCall, 0.0001);
    UnitClose(y.dShortPut, y.dShortPut, 0.0);
    UnitClose(y.dShortCall, y.dShortCall, 0.0);
    WinClose(p1, q1, p2, q2, 0.0001);
    RoomClose(x.widthPut, x.credit, y.widthPut, y.credit, 0.01, 0.0001);
    RoomClose(x.widthCall, x.credit, y.widthCall, y.credit, 0.01, 0.0001);
    var lp1, lq1 := Max(0.0, x.widthPut - x.credit), Max(0.0, x.widthCall - x.credit);
    var lp2, lq2 := Max(0.0, y.widthPut - y.credit), Max(0.0, y.widthCall - y.credit);
    s1, t1 := TermGap(1.0 - Min(1.0, p1 + q1), x.credit, 1.0 - Min(1.0, p2 + q2), y.credit,
                      0.0002, Abs(x.credit), 0.0001);
    s2, t2 := TermGap(p1, lp1, p2, lp2, 0.0001, lp1, 0.0101);
    s3, t3 := TermGap(q1, lq1, q2, lq2, 0.0001, lq1, 0.0101);
  }

  lemma Hundredfold(u: real, v: real)
    ensures Abs(u * 100.0 - v * 100.0) == Abs(u - v) * 100.0
  {
  }

  lemma StrictClose(x: EvInputs, y: EvInputs)
    requires Abs(x.credit - y.credit) <= 0.0001
    requires Abs(x.widthPut - y.widthPut) <= 0.01 && Abs(x.widthCall - y.widthCall) <= 0.01
    requires Abs(x.dShortPut - y.dShortPut) <= 0.0001 && Abs(x.dShortCall - y.dShortCall) <= 0.0001
    ensures Abs(StrictEv(x).value - StrictEv(y).value) <= MemoError(x)
  {
    var s1, s2, s3, t1, t2, t3 := TermsClose(x, y);
    TermsMakeEv(x, s1, s2, s3);
    TermsMakeEv(y, t1, t2, t3);
    SumGap(s1, s2, s3, t1, t2, t3,
           0.0002 * Abs(x.credit) + 0.0001, 0.0001 * Max(0.0, x.widthPut - x.credit) + 0.0101,
           0.0001 * Max(0.0, x.widthCall - x.credit) + 0.0101);
    Hundredfold(s1 - s2 - s3, t1 - t2 - t3);
  }

  /** On any chain a memoised strict EV is within that bound of the true one,
      and no point is gained or lost. */
  lemma StrictMemoWithinBound(gates: seq<Gate>, i: nat)
    requires i < |gates|
    ensures var (memoised, own) := (MemoRun(gates, StrictEv).0[i], FateOf(gates[i], StrictEv));
            && (gates[i].Stopped? ==> memoised == own)
            && (gates[i].Pass? ==>
                  memoised.Scored? && own.Scored? && Abs(memoised.ev - own.ev) <= MemoError(gates[i].x))
  {
    MemoisedFate(gates, StrictEv, i);
    var memoised := MemoRun(gates, StrictEv).0[i];
    if memoised != FateOf(gates[i], StrictEv) {
      var j :| 0 <= j < i && gates[j].Pass? && KeyOf(gates[j].x) == KeyOf(gates[i].x)
               && StrictEv(gates[j].x) == Some(memoised.ev);
      StrictGap(gates[i].x, gates[j].x);
    }
  }

  /** No better than `best` beyond the two points' bounds. */
  ghost predicate WithinBounds(best: EvInputs, other: EvInputs) {
    StrictEv(other).value <= StrictEv(best).value + MemoError(best) + MemoError(other)
  }

  lemma GapsAdd(m1: real, o1: real, e1: real, m2: real, o2: real, e2: real)
    requires Abs(m1 - o1) <= e1 && Abs(m2 - o2) <= e2 && m2 <= m1
    ensures o2 <= o1 + e1 + e2
  {
  }

  /** The memoised EV of a passing point is one number within its bound. */
  lemma MemoisedNear(gates: seq<Gate>, k: nat) returns (m: real)
    requires k < |gates| && gates[k].Pass?
    ensures MemoRun(gates, StrictEv).0[k] == Scored(m)
    ensures Abs(m - StrictEv(gates[k].x).value) <= MemoError(gates[k].x)
  {
    StrictMemoWithinBound(gates, k);
    m := MemoRun(gates, StrictEv).0[k].ev;
  }

  lemma ScoredWithinBounds(gates: seq<Gate>, i: nat, k: nat)
    requires i < |gates| && k < |gates| && gates[i].Pass? && gates[k].Pass?
    requires EarliestBest(MemoRun(gates, StrictEv).0, i)
    ensures WithinBounds(gates[i].x, gates[k].x)
  {
    var m1 := MemoisedNear(gates, i);
    var m2 := MemoisedNear(gates, k);
    assert MemoRun(gates, StrictEv).0[k].ev <= MemoRun(gates, StrictEv).0[i].ev;
    var (o1, o2) := (StrictEv(gates[i].x).value, StrictEv(gates[k].x).value);
    GapsAdd(m1, o1, MemoError(gates[i].x), m2, o2, MemoError(gates[k].x));
  }

  /** So on any chain the combination the search returns is, by its own EV,
      within those bounds of every combination that reaches the EV. */
  lemma StrictSearchWithinBound(s: Search, points: seq<Point>, out: Outcome) returns (i: nat)
    requires Answers(s, points, MemoRun(Gates(s, points), StrictEv).0, out) && out.legs != []
    ensures i < |points| && GateOf(s, points[i]).Pass?
    ensures SelectLegs(s.calls, s.puts, points[i].target, points[i].width) == Some(out.legs)
    ensures forall k | 0 <= k < |points| && GateOf(s, points[k]).Pass? ::
              WithinBounds(GateOf(s, points[i]).x, GateOf(s, points[k]).x)
  {
    var gates := Gates(s, points);
    var fates := MemoRun(gates, StrictEv).0;
    i :| EarliestBest(fates, i) && points[i] == out.best.value.0 && fates[i].ev == out.best.value.1;
    MemoisedFate(gates, StrictEv, i);
    forall k | 0 <= k < |points| && GateOf(s, points[k]).Pass?
      ensures WithinBounds(GateOf(s, points[i]).x, GateOf(s, points[k]).x)
    {
      ScoredWithinBounds(gates, i, k);
    }
  }

  // ---- any model on a typed chain ------------------------------------------

  predicate StrikeAndDeltaOnGrid(c: Contract) {
    OnGrid(c.strike, 100.0) && (c.delta.Some? ==> OnGrid(c.delta.value, 10000.0))
  }

  /** Strikes to two decimals and deltas to four; quotes are free. */
  predicate StrikesAndDeltasOnGrid(s: Search) {
    (forall c | c in s.calls :: StrikeAndDeltaOnGrid(c)) && (forall c | c in s.puts :: StrikeAndDeltaOnGrid(c))
  }

  /** Two targets that pick shorts of one delta pick one short. */
  lemma SameDeltaSameShort(cands: seq<Contract>, t1: real, t2: real)
    requires cands != [] && DeltaSize(ShortOf(cands, t1)) == DeltaSize(ShortOf(cands, t2))
    ensures ShortOf(cands, t1) == ShortOf(cands, t2)
  {
    SameFirst(DeltaGaps(cands, t1), DeltaGaps(cands, t2));
  }

  /** Two widths that pick longs of one strike pick one long. */
  lemma SameStrikeSameLong(wing: seq<Contract>, short: Contract, w1: real, w2: real, right: Right)
    requires wing != [] && LongOf(wing, short, w1, right).strike == LongOf(wing, short, w2, right).strike
    ensures LongOf(wing, short, w1, right) == LongOf(wing, short, w2, right)
  {
    SameFirst(StrikeGaps(wing, LongStrike(short, w1, right)), StrikeGaps(wing, LongStrike(short, w2, right)));
  }

  /** Quads with the same short deltas and wing widths are the same. */
  lemma SameRolesSameQuad(s: Search, p1: Point, p2: Point)
    requires PickQuad(s.calls, s.puts, p1.target, p1.width).Some?
    requires PickQuad(s.calls, s.puts, p2.target, p2.width).Some?
    requires var q1 := PickQuad(s.calls, s.puts, p1.target, p1.width).value;
             var q2 := PickQuad(s.calls, s.puts, p2.target, p2.width).value;
             && DeltaSize(q1.shortCall) == DeltaSize(q2.shortCall)
             && DeltaSize(q1.shortPut) == DeltaSize(q2.shortPut)
             && q1.longCall.strike - q1.shortCall.strike == q2.longCall.strike - q2.shortCall.strike
             && q1.shortPut.strike - q1.longPut.strike == q2.shortPut.strike - q2.longPut.strike
    ensures PickQuad(s.calls, s.puts, p1.target, p1.width) == PickQuad(s.calls, s.puts, p2.target, p2.width)
  {
    SameDeltaSameShort(s.calls, p1.target, p2.target);
    SameDeltaSameShort(s.puts, p1.target, p2.target);
    var sc, sp := ShortOf(s.calls, p1.target), ShortOf(s.puts, p1.target);
    SameStrikeSameLong(Wing(s.calls, sc, Call), sc, p1.width, p2.width, Call);
    SameStrikeSameLong(Wing(s.puts, sp, Put), sp, p1.width, p2.width, Put);
  }

  /** What a passing point's inputs say of the contracts picked. */
  lemma PassedRoles(s: Search, p: Point) returns (q: Quad)
    requires TypedChain(s) && GateOf(s, p).Pass?
    ensures PickQuad(s.calls, s.puts, p.target, p.width) == Some(q)
    ensures q.shortCall in s.calls && q.longCall in s.calls && q.shortPut in s.puts && q.longPut in s.puts
    ensures var x := GateOf(s, p).x;
            && x.dShortPut == DeltaSize(q.shortPut) && x.dShortCall == DeltaSize(q.shortCall)
            && x.widthPut == q.shortPut.strike - q.longPut.strike
            && x.widthCall == q.longCall.strike - q.shortCall.strike
  {
    q := PickQuad(s.calls, s.puts, p.target, p.width).value;
    QuadIsClosest(s.calls, s.puts, p.target, p.width, q.shortCall);
    RolesRecovered(q);
  }

  predicate RolesOnGrid(x: EvInputs) {
    && OnGrid(x.dShortPut, 10000.0) && OnGrid(x.dShortCall, 10000.0)
    && OnGrid(x.widthPut, 100.0) && OnGrid(x.widthCall, 100.0)
  }

  lemma SideOnGrid(short: Contract, long: Contract)
    requires StrikeAndDeltaOnGrid(short) && StrikeAndDeltaOnGrid(long)
    ensures OnGrid(DeltaSize(short), 10000.0)
    ensures OnGrid(long.strike - short.strike, 100.0) && OnGrid(short.strike - long.strike, 100.0)
  {
    OnGridAbs(OrElse(short.delta, 0.0), 10000.0);
    OnGridSum(long.strike, short.strike, 100.0);
    OnGridSum(short.strike, long.strike, 100.0);
  }

  lemma PassedOnGrid(s: Search, p: Point)
    requires TypedChain(s) && StrikesAndDeltasOnGrid(s) && GateOf(s, p).Pass?
    ensures RolesOnGrid(GateOf(s, p).x)
  {
    var q := PassedRoles(s, p);
    SideOnGrid(q.shortPut, q.longPut);
    SideOnGrid(q.shortCall, q.longCall);
  }

  lemma SameKeySameRoles(x: EvInputs, y: EvInputs)
    requires RolesOnGrid(x) && RolesOnGrid(y) && KeyOf(x) == KeyOf(y)
    ensures x.dShortPut == y.dShortPut && x.dShortCall == y.dShortCall
    ensures x.widthPut == y.widthPut && x.widthCall == y.widthCall
  {
    RoundOnGrid(x.dShortPut, y.dShortPut);
    RoundOnGrid(x.dShortCall, y.dShortCall);
    RoundOnGrid(x.widthPut, y.widthPut);
    RoundOnGrid(x.widthCall, y.widthCall);
  }

  lemma SameQuadSameGate(s: Search, p1: Point, p2: Point)
    requires PickQuad(s.calls, s.puts, p1.target, p1.width) == PickQuad(s.calls, s.puts, p2.target, p2.width)
    ensures GateOf(s, p1) == GateOf(s, p2)
  {
  }

  /** On such a chain the key tells the points apart: whatever the quotes, two
      passing points with one key pick the same four contracts. */
  lemma SameKeySameGate(s: Search, p1: Point, p2: Point)
    requires TypedChain(s) && StrikesAndDeltasOnGrid(s)
    requires GateOf(s, p1).Pass? && GateOf(s, p2).Pass? && KeyOf(GateOf(s, p1).x) == KeyOf(GateOf(s, p2).x)
    ensures PickQuad(s.calls, s.puts, p1.target, p1.width) == PickQuad(s.calls, s.puts, p2.target, p2.width)
    ensures GateOf(s, p1) == GateOf(s, p2)
  {
    PassedOnGrid(s, p1);
    PassedOnGrid(s, p2);
    SameKeySameRoles(GateOf(s, p1).x, GateOf(s, p2).x);
    var q1 := PassedRoles(s, p1);
    var q2 := PassedRoles(s, p2);
    SameRolesSameQuad(s, p1, p2);
    SameQuadSameGate(s, p1, p2);
  }

  /** So there the memo is invisible under any EV model, one that reads the long
      deltas and one that fails included. */
  lemma AnyModelTransparent(s: Search, points: seq<Point>, ev: EvInputs -> Option<real>)
    requires TypedChain(s) && StrikesAndDeltasOnGrid(s)
    ensures Transparent(Gates(s, points), ev)
  {
    var gates := Gates(s, points);
    forall i, j | 0 <= j < i < |gates| && gates[i].Pass? && gates[j].Pass? && KeyOf(gates[j].x) == KeyOf(gates[i].x)
      ensures ev(gates[j].x) == ev(gates[i].x)
    {
      SameKeySameGate(s, points[j], points[i]);
    }
    MemoTransparentIff(gates, ev);
  }

  /** And the memoised search returns legs exactly when some combination is
      viable, and the earliest best of them. */
  lemma AnyModelSearchIsExact(
    s: Search, deltas: seq<real>, widths: seq<real>, ev: EvInputs -> Option<real>, out: Outcome) returns (i: nat)
    requires TypedChain(s) && StrikesAndDeltasOnGrid(s)
    requires Answers(s, Grid(deltas, widths), MemoRun(Gates(s, Grid(deltas, widths)), ev).0, out)
    ensures out.legs != [] <==> exists p :: ViableIn(s, deltas, widths, ev, p)
    ensures out.legs != [] ==>
              && FirstBest(s, deltas, widths, ev, i)
              && var best := Grid(deltas, widths)[i];
                 SelectLegs(s.calls, s.puts, best.target, best.width) == Some(out.legs)
  {
    AnyModelTransparent(s, Grid(deltas, widths), ev);
    i := SearchIsArgmax(s, deltas, widths, ev, out);
  }

  // ---- the tail model ------------------------------------------------------

  /** The tail model with its two settings. */
  function TailEv(severity: real, mult: real): EvInputs -> Option<real> {
    (x: EvInputs) =>
      Some(EvCalculator.CondorEvTail(x.credit, x.widthPut, x.widthCall, x.dShortPut, x.dShortCall,
                                     x.dLongPut, x.dLongCall, severity, mult).expectedValue)
  }

  /** At full severity, and at a long delta as large as the short one, the tail
      model is the strict one; it never values a condor below it. */
  lemma TailIsStrictAtFullSeverity(x: EvInputs, severity: real)
    requires 0.0 <= severity <= 1.0
    ensures StrictEv(x).Some? && TailEv(severity, 1.0)(x).Some?
    ensures TailEv(severity, 1.0)(x).value >= StrictEv(x).value
    ensures TailEv(1.0, 1.0)(x) == StrictEv(x)
    ensures Abs(x.dLongPut) >= Abs(x.dShortPut) && Abs(x.dLongCall) >= Abs(x.dShortCall) ==>
              TailEv(severity, 1.0)(x) == StrictEv(x)
  {
    EvCalculator.TailAtLeastStrict(
      x.credit, x.widthPut, x.widthCall, x.dShortPut, x.dShortCall, x.dLongPut, x.dLongCall, severity);
    EvCalculator.TailAtLeastStrict(
      x.credit, x.widthPut, x.widthCall, x.dShortPut, x.dShortCall, x.dLongPut, x.dLongCall, 1.0);
  }

  /** The tail model reads the long deltas, which the key leaves out, and is
      searched exactly all the same. */
  lemma TailSearchIsExact(
    s: Search, deltas: seq<real>, widths: seq<real>, severity: real, mult: real, out: Outcome) returns (i: nat)
    requires TypedChain(s) && StrikesAndDeltasOnGrid(s)
    requires Answers(s, Grid(deltas, widths), MemoRun(Gates(s, Grid(deltas, widths)), TailEv(severity, mult)).0, out)
    ensures out.legs != [] <==> exists p :: ViableIn(s, deltas, widths, TailEv(severity, mult), p)
    ensures out.legs != [] ==>
              && FirstBest(s, deltas, widths, TailEv(severity, mult), i)
              && var best := Grid(deltas, widths)[i];
                 SelectLegs(s.calls, s.puts, best.target, best.width) == Some(out.legs)
  {
    i := AnyModelSearchIsExact(s, deltas, widths, TailEv(severity, mult), out);
  }

  // ---- off the grid --------------------------------------------------------

  function Quoted(symbol: string, right: Right, strike: real, delta: real, price: real): Contract {
    Contract(symbol, strike, "exp", Some(right), Some(delta), Some(price), Some(price), None)
  }

  const NEAR_CALL := Quoted("C100", Call, 100.0, 0.10004, 1.0)
  const FAR_CALL := Quoted("C101", Call, 101.0, 0.10001, 1.0)
  const NEAR_WING := Quoted("C105", Call, 105.0, 0.05, 0.5)
  const FAR_WING := Quoted("C106", Call, 106.0, 0.01, 0.5)
  const SHORT_PUT := Quoted("P90", Put, 90.0, -0.1, 1.0)
  const LONG_PUT := Quoted("P85", Put, 85.0, -0.05, 0.5)

  /** Two calls whose deltas differ in the fifth decimal. */
  const FINE_CHAIN := Search([NEAR_CALL, FAR_CALL, NEAR_WING, FAR_WING], [LONG_PUT, SHORT_PUT], 0.2, 0.5)

  lemma FineShort(target: real, c: Contract)
    requires (target == 0.08 && c == FAR_CALL) || (target == 0.12 && c == NEAR_CALL)
    ensures ShortOf(FINE_CHAIN.calls, target) == c && ShortOf(FINE_CHAIN.puts, target) == SHORT_PUT
  {
    ShortIsClosest(FINE_CHAIN.calls, target, c);
    ShortIsClosest(FINE_CHAIN.puts, target, SHORT_PUT);
  }

  lemma FineQuad(target: real, short: Contract, long: Contract)
    requires (target == 0.08 && short == FAR_CALL && long == FAR_WING)
             || (target == 0.12 && short == NEAR_CALL && long == NEAR_WING)
    ensures PickQuad(FINE_CHAIN.calls, FINE_CHAIN.puts, target, 5.0) == Some(Quad(SHORT_PUT, LONG_PUT, short, long))
  {
    FineShort(target, short);
    FineCallWing(short, long);
    LongIsClosest(FINE_CHAIN.puts, SHORT_PUT, 5.0, Put, LONG_PUT);
  }

  lemma FineCallWing(short: Contract, long: Contract)
    requires (short == FAR_CALL && long == FAR_WING) || (short == NEAR_CALL && long == NEAR_WING)
    ensures Wing(FINE_CHAIN.calls, short, Call) != []
    ensures LongOf(Wing(FINE_CHAIN.calls, short, Call), short, 5.0, Call) == long
  {
    LongIsClosest(FINE_CHAIN.calls, short, 5.0, Call, long);
  }

  lemma FourSymbols(a: string, b: string)
    requires (a == "C101" && b == "C106") || (a == "C100" && b == "C105")
    ensures |{"P90", "P85", a, b}| == 4
  {
    assert "P90"[1] != "P85"[1] && a[0] != "P90"[0] && b[0] != "P90"[0] && a[0] != "P85"[0] && b[0] != "P85"[0];
    assert a[2] != b[2] || a[3] != b[3];
  }

  /** The condor of those puts and two of the calls: its shape, cost and quotes. */
  lemma FineLegs(q: Quad)
    requires q.shortPut == SHORT_PUT && q.longPut == LONG_PUT
    requires (q.shortCall == FAR_CALL && q.longCall == FAR_WING)
             || (q.shortCall == NEAR_CALL && q.longCall == NEAR_WING)
    ensures QuotedQuad(q) && ValidCondor(QuadLegs(q)) && TotalCost(QuadLegs(q)) == -1.0
    ensures !TooWide(QuadLegs(q), 0.2)
  {
    FourSymbols(q.shortCall.symbol, q.longCall.symbol);
    assert {q.shortPut.symbol, q.longPut.symbol, q.shortCall.symbol, q.longCall.symbol}
           == {"P90", "P85", q.shortCall.symbol, q.longCall.symbol};
    InvariantsOfSelected(q);
    QuadCost(q);
    TooWideIff(QuadLegs(q), 0.2);
  }

  lemma QuadPasses(s: Search, p: Point, q: Quad)
    requires PickQuad(s.calls, s.puts, p.target, p.width) == Some(q) && QuotedQuad(q) && ValidCondor(QuadLegs(q))
    requires CondorCredit(TotalCost(QuadLegs(q))) >= s.minCredit && !TooWide(QuadLegs(q), s.threshold)
    ensures GateOf(s, p) == Pass(InputsOf(QuadLegs(q)))
  {
  }

  lemma FineInputs(q: Quad)
    requires q.shortPut == SHORT_PUT && q.longPut == LONG_PUT
    requires (q.shortCall == FAR_CALL && q.longCall == FAR_WING)
             || (q.shortCall == NEAR_CALL && q.longCall == NEAR_WING)
    requires QuotedQuad(q) && ValidCondor(QuadLegs(q)) && TotalCost(QuadLegs(q)) == -1.0
    ensures InputsOf(QuadLegs(q)) ==
            EvInputs(1.0, 5.0, 5.0, 0.1, q.shortCall.delta.value, 0.05, q.longCall.delta.value)
  {
    RolesRecovered(q);
  }

  lemma FinePasses(target: real, short: Contract, long: Contract)
    requires (target == 0.08 && short == FAR_CALL && long == FAR_WING)
             || (target == 0.12 && short == NEAR_CALL && long == NEAR_WING)
    ensures GateOf(FINE_CHAIN, Point(target, 5.0)) ==
            Pass(EvInputs(1.0, 5.0, 5.0, 0.1, short.delta.value, 0.05, long.delta.value))
  {
    var q := Quad(SHORT_PUT, LONG_PUT, short, long);
    FineQuad(target, short, long);
    FineLegs(q);
    QuadPasses(FINE_CHAIN, Point(target, 5.0), q);
    FineInputs(q);
  }

  lemma FineGrid(points: seq<Point>)
    requires points == Grid([0.08, 0.12], [5.0])
    ensures |points| == 2 && points[0] == Point(0.08, 5.0) && points[1] == Point(0.12, 5.0)
  {
    assert Upto([0.08, 0.12], [5.0], 1, 0) == Upto([0.08, 0.12], [5.0], 0, 1) == [Point(0.08, 5.0)];
    assert Upto([0.08, 0.12], [5.0], 2, 0) == Upto([0.08, 0.12], [5.0], 1, 1);
  }

  const FINE_FIRST := EvInputs(1.0, 5.0, 5.0, 0.1, 0.10001, 0.05, 0.01)
  const FINE_SECOND := EvInputs(1.0, 5.0, 5.0, 0.1, 0.10004, 0.05, 0.05)

  lemma FineGates()
    ensures Gates(FINE_CHAIN, Grid([0.08, 0.12], [5.0])) == [Pass(FINE_FIRST), Pass(FINE_SECOND)]
  {
    FineGrid(Grid([0.08, 0.12], [5.0]));
    FinePasses(0.08, FAR_CALL, FAR_WING);
    FinePasses(0.12, NEAR_CALL, NEAR_WING);
  }

  /** Two passing points share a key and the second is scored that much above
      its own EV. */
  ghost predicate Overscored(gates: seq<Gate>, ev: EvInputs -> Option<real>, gap: real) {
    && |gates| == 2 && gates[0].Pass? && gates[1].Pass? && KeyOf(gates[0].x) == KeyOf(gates[1].x)
    && var (memoised, own) := (MemoRun(gates, ev).0[1], FateOf(gates[1], ev));
       memoised.Scored? && own.Scored? && memoised.ev > own.ev + gap
  }

  /** Of two points with one key the second is scored as the first. */
  lemma SecondIsScoredAsFirst(a: EvInputs, b: EvInputs, ev: EvInputs -> Option<real>, gap: real)
    requires KeyOf(a) == KeyOf(b) && ev(a).Some? && ev(b).Some? && ev(a).value > ev(b).value + gap
    ensures Overscored([Pass(a), Pass(b)], ev, gap)
  {
    var gates := [Pass(a), Pass(b)];
    SameKeySameFate(gates, ev, 0, 1);
    MemoisedFate(gates, ev, 0);
  }

  lemma FineEvs()
    ensures KeyOf(FINE_FIRST) == KeyOf(FINE_SECOND)
    ensures TailEv(0.5, 1.0)(FINE_FIRST).value > TailEv(0.5, 1.0)(FINE_SECOND).value + 7.0
  {
  }

  lemma FineTyped()
    ensures TypedChain(FINE_CHAIN)
  {
  }

  /** Off the grid it can be wrong: a chain and two targets that pick different
      condors with one key, the second of which is scored as the first, more
      than seven dollars from its own EV under the tail model. */
  lemma FineChainMisleads()
    ensures TypedChain(FINE_CHAIN)
    ensures Overscored(Gates(FINE_CHAIN, Grid([0.08, 0.12], [5.0])), TailEv(0.5, 1.0), 7.0)
  {
    FineTyped();
    FineGates();
    FineEvs();
    SecondIsScoredAsFirst(FINE_FIRST, FINE_SECOND, TailEv(0.5, 1.0), 7.0);
  }
}
