/** Backtesting a weighted portfolio: aligned returns, compounding, and the
    one-pass maximum drawdown. */
module Backtest {
  import opened Common

  datatype History = History(symbol: string, rets: seq<real>)

  // ---- aligned returns -----------------------------------------------------

  function Weight(weights: map<string, real>, symbol: string): real {
    if symbol in weights then weights[symbol] else 0.0
  }

  /** The shortest history. */
  function MinLength(data: seq<History>): (n: nat)
    requires data != []
    ensures forall d | d in data :: n <= |d.rets|
    ensures exists d :: d in data && |d.rets| == n
  {
    var last := data[|data| - 1];
    if |data| == 1 then (assert last in data; |last.rets|)
    else
      var front := data[..|data| - 1];
      assert data == front + [last];
      var n := MinLength(front);
      if |last.rets| < n then (assert last in data; |last.rets|) else n
  }

  ghost predicate LongEnough(data: seq<History>, n: nat) {
    forall d | d in data :: n <= |d.rets|
  }

  /** The portfolio's return `back` days before the end: `returns[-back]`. */
  function DailyReturn(weights: map<string, real>, data: seq<History>, back: nat): real
    requires 0 < back && LongEnough(data, back)
  {
    if data == [] then 0.0
    else
      var last := data[|data| - 1];
      DailyReturn(weights, data[..|data| - 1], back)
      + Weight(weights, last.symbol) * last.rets[|last.rets| - back]
  }

  function PortfolioReturns(weights: map<string, real>, data: seq<History>, n: nat): (rs: seq<real>)
    requires LongEnough(data, n)
    ensures |rs| == n
  {
    seq(n, i requires 0 <= i < n && LongEnough(data, n) => DailyReturn(weights, data, n - i))
  }

  /** The two histories agree on the last `back` returns. */
  ghost predicate SameEnding(d: History, o: History, back: nat) {
    && d.symbol == o.symbol && back <= |d.rets| && back <= |o.rets|
    && d.rets[|d.rets| - back..] == o.rets[|o.rets| - back..]
  }

  lemma SameEntry(d: History, o: History, back: nat)
    requires SameEnding(d, o, back) && back > 0
    ensures d.rets[|d.rets| - back] == o.rets[|o.rets| - back]
  {
    assert d.rets[|d.rets| - back] == d.rets[|d.rets| - back..][0];
    assert o.rets[|o.rets| - back] == o.rets[|o.rets| - back..][0];
  }

  /** The alignment is at the end: histories that end alike give the same
      portfolio return, however long each of them is. */
  lemma {:induction false} AlignedAtTheEnd(
    weights: map<string, real>, data: seq<History>, other: seq<History>, back: nat)
    requires 0 < back && LongEnough(data, back) && LongEnough(other, back) && |data| == |other|
    requires forall k | 0 <= k < |data| :: SameEnding(data[k], other[k], back)
    ensures DailyReturn(weights, data, back) == DailyReturn(weights, other, back)
  {
    if data != [] {
      var last := |data| - 1;
      AlignedAtTheEnd(weights, data[..last], other[..last], back);
      SameEntry(data[last], other[last], back);
    }
  }

  /** All weights times the same factor. */
  function Scaled(weights: map<string, real>, c: real): map<string, real> {
    map symbol | symbol in weights :: c * weights[symbol]
  }

  /** A day's return is linear in the weights. */
  lemma {:induction false} LinearInWeights(weights: map<string, real>, c: real, data: seq<History>, back: nat)
    requires 0 < back && LongEnough(data, back)
    ensures DailyReturn(Scaled(weights, c), data, back) == c * DailyReturn(weights, data, back)
  {
    if data != [] {
      var front, last := data[..|data| - 1], data[|data| - 1];
      LinearInWeights(weights, c, front, back);
      var (w, r) := (Weight(weights, last.symbol), last.rets[|last.rets| - back]);
      assert Weight(Scaled(weights, c), last.symbol) == c * w;
      var (before, wr) := (DailyReturn(weights, front, back), w * r);
      assert (c * w) * r == c * wr;
      assert c * (before + wr) == c * before + c * wr;
    }
  }

  /** The returns of two portfolios held together are the sums. */
  lemma {:induction false} ReturnsAdd(weights: map<string, real>, data: seq<History>, more: seq<History>, back: nat)
    requires 0 < back && LongEnough(data, back) && LongEnough(more, back)
    ensures LongEnough(data + more, back)
    ensures DailyReturn(weights, data + more, back)
            == DailyReturn(weights, data, back) + DailyReturn(weights, more, back)
  {
    if more == [] {
      assert data + more == data;
    } else {
      var front, last := more[..|more| - 1], more[|more| - 1];
      ReturnsAdd(weights, data, front, back);
      assert (data + more)[..|data + more| - 1] == data + front;
    }
  }

  /** What one history contributes on a day: its weight, zero for a symbol with
      none, times its return of that day. */
  lemma OneHistory(weights: map<string, real>, d: History, back: nat)
    requires 0 < back <= |d.rets|
    ensures LongEnough([d], back)
    ensures d.symbol in weights ==>
              DailyReturn(weights, [d], back) == weights[d.symbol] * d.rets[|d.rets| - back]
    ensures d.symbol !in weights ==> DailyReturn(weights, [d], back) == 0.0
  {
    assert [d][..0] == [];
  }

  ghost predicate Unweighted(weights: map<string, real>, data: seq<History>) {
    forall d | d in data && d.symbol in weights :: weights[d.symbol] == 0.0
  }

  /** Symbols with no weight, or a weight of zero, contribute nothing. */
  lemma {:induction false} UnweightedIsZero(weights: map<string, real>, data: seq<History>, back: nat)
    requires 0 < back && LongEnough(data, back)
    requires Unweighted(weights, data)
    ensures DailyReturn(weights, data, back) == 0.0
  {
    if data != [] { UnweightedIsZero(weights, data[..|data| - 1], back); }
  }

  lemma OneDay(weights: map<string, real>, before: seq<History>, d: History, after: seq<History>, back: nat)
    requires 0 < back && LongEnough(before, back) && LongEnough(after, back) && back <= |d.rets|
    requires Unweighted(weights, before) && Unweighted(weights, after)
    requires d.symbol in weights && weights[d.symbol] == 1.0
    ensures LongEnough(before + [d] + after, back)
    ensures DailyReturn(weights, before + [d] + after, back) == d.rets[|d.rets| - back]
  {
    UnweightedIsZero(weights, before, back);
    UnweightedIsZero(weights, after, back);
    OneHistory(weights, d, back);
    ReturnsAdd(weights, before, [d], back);
    ReturnsAdd(weights, before + [d], after, back);
  }

  /** All the money is in history `k`, and no other history has its symbol. */
  ghost predicate AllIn(weights: map<string, real>, data: seq<History>, k: nat) {
    && k < |data| && data[k].symbol in weights && weights[data[k].symbol] == 1.0
    && (forall i | 0 <= i < |data| && i != k :: data[i].symbol != data[k].symbol)
    && (forall s | s in weights && s != data[k].symbol :: weights[s] == 0.0)
  }

  lemma OthersUnweighted(weights: map<string, real>, data: seq<History>, k: nat)
    requires AllIn(weights, data, k)
    ensures Unweighted(weights, data[..k]) && Unweighted(weights, data[k + 1..])
  {
    forall d | d in data[k + 1..] && d.symbol in weights ensures weights[d.symbol] == 0.0 {
      var j :| 0 <= j < |data[k + 1..]| && data[k + 1..][j] == d;
      assert data[k + 1 + j] == d;
    }
  }

  lemma OneDayOfAll(weights: map<string, real>, data: seq<History>, k: nat, back: nat)
    requires 0 < back && LongEnough(data, back) && AllIn(weights, data, k)
    ensures DailyReturn(weights, data, back) == data[k].rets[|data[k].rets| - back]
  {
    OthersUnweighted(weights, data, k);
    assert data == data[..k] + [data[k]] + data[k + 1..];
    OneDay(weights, data[..k], data[k], data[k + 1..], back);
  }

  /** All the money in one symbol gives that history's own last returns, day by
      day in their order. */
  lemma AllInOne(weights: map<string, real>, data: seq<History>, n: nat, k: nat)
    requires LongEnough(data, n) && AllIn(weights, data, k)
    ensures PortfolioReturns(weights, data, n) == data[k].rets[|data[k].rets| - n..]
  {
    var (rets, own) := (PortfolioReturns(weights, data, n), data[k].rets[|data[k].rets| - n..]);
    forall i | 0 <= i < n ensures rets[i] == own[i] {
      OneDayOfAll(weights, data, k, n - i);
    }
  }

  // ---- compounding ---------------------------------------------------------

  /** The value after each prefix of the returns. */
  function ValueAfter(initial: real, rets: seq<real>, k: nat): real
    requires k <= |rets|
  {
    if k == 0 then initial else ValueAfter(initial, rets, k - 1) * (1.0 + rets[k - 1])
  }

  function Values(initial: real, rets: seq<real>): (vs: seq<real>)
    ensures |vs| == |rets| + 1
  {
    seq(|rets| + 1, k requires 0 <= k <= |rets| => ValueAfter(initial, rets, k))
  }

  ghost predicate AboveRuin(rets: seq<real>) {
    forall i | 0 <= i < |rets| :: rets[i] > -1.0
  }

  /** Every value is the initial one times a growth that does not depend on it. */
  lemma {:induction false} ValueScales(initial: real, rets: seq<real>, k: nat)
    requires k <= |rets|
    ensures ValueAfter(initial, rets, k) == initial * ValueAfter(1.0, rets, k)
  {
    if k > 0 {
      ValueScales(initial, rets, k - 1);
      var g, r := ValueAfter(1.0, rets, k - 1), 1.0 + rets[k - 1];
      assert (initial * g) * r == initial * (g * r);
    }
  }

  lemma {:induction false} ValuePositive(initial: real, rets: seq<real>, k: nat)
    requires k <= |rets| && initial > 0.0 && AboveRuin(rets)
    ensures ValueAfter(initial, rets, k) > 0.0
  {
    if k > 0 {
      ValuePositive(initial, rets, k - 1);
      SignOfProduct(ValueAfter(initial, rets, k - 1), 1.0 + rets[k - 1]);
    }
  }

  ghost predicate Positive(values: seq<real>) {
    values != [] && forall i | 0 <= i < |values| :: values[i] > 0.0
  }

  /** From a positive start the values stay positive exactly when every return
      is above -1. */
  lemma PositiveIffAboveRuin(initial: real, rets: seq<real>)
    requires initial > 0.0
    ensures Positive(Values(initial, rets)) <==> AboveRuin(rets)
  {
    var values := Values(initial, rets);
    if AboveRuin(rets) {
      forall k | 0 <= k < |values| ensures values[k] > 0.0 { ValuePositive(initial, rets, k); }
    }
    if Positive(values) {
      forall i | 0 <= i < |rets| ensures rets[i] > -1.0 {
        assert values[i] > 0.0 && values[i + 1] > 0.0;
        SignOfProduct(1.0 + rets[i], ValueAfter(initial, rets, i));
      }
    }
  }

  // ---- drawdown ------------------------------------------------------------

  /** The fall from an earlier value to a later one, as a share of the earlier. */
  function Fall(values: seq<real>, i: nat, j: nat): real
    requires i <= j < |values| && values[i] != 0.0
  {
    (values[i] - values[j]) / values[i]
  }

  /** The quadratic specification: m is the greatest fall over all pairs. */
  ghost predicate GreatestFall(values: seq<real>, m: real)
    requires Positive(values)
  {
    && (forall i, j | 0 <= i <= j < |values| :: Fall(values, i, j) <= m)
    && (exists i, j :: 0 <= i <= j < |values| && Fall(values, i, j) == m)
  }

  lemma Divides(q: real, y: real, v: real)
    requires v > 0.0 && q * v == y
    ensures y / v == q
  {
    var t := y / v;
    assert t * v == y;
    assert (t - q) * v == 0.0;
    SignOfProduct(t - q, v);
  }

  lemma Ratio(v: real, w: real)
    requires v > 0.0
    ensures (v - w) / v == 1.0 - w / v
  {
    var q := w / v;
    assert q * v == w;
    assert (1.0 - q) * v == v - w;
    Divides(1.0 - q, v - w, v);
  }

  lemma FallAtMost(v: real, peak: real, w: real)
    requires 0.0 < v <= peak && 0.0 < w
    ensures (v - w) / v <= (peak - w) / peak < 1.0
  {
    Ratio(v, w);
    Ratio(peak, w);
    var x, y := w / v, w / peak;
    assert x * v == w && y * peak == w;
    SignOfProduct(y, peak);
    var yv := v * y;
    assert yv <= w by { MulMonotone(v, peak, y); assert peak * y == w; }
    assert (y - x) * v == yv - w;
    SignOfProduct(y - x, v);
  }

  /** The running peak. */
  function Peak(values: seq<real>, k: nat): real
    requires k < |values|
  {
    if k == 0 then values[0]
    else if values[k] > Peak(values, k - 1) then values[k] else Peak(values, k - 1)
  }

  lemma {:induction false} PeakIsGreatest(values: seq<real>, k: nat)
    requires k < |values|
    ensures forall i | 0 <= i <= k :: values[i] <= Peak(values, k)
    ensures exists i :: 0 <= i <= k && values[i] == Peak(values, k)
  {
    if k == 0 || values[k] > Peak(values, k - 1) {
      assert values[k] == Peak(values, k);
    }
    if k > 0 { PeakIsGreatest(values, k - 1); }
  }

  /** The drop from the running peak. */
  function Drop(values: seq<real>, k: nat): real
    requires k < |values| && Peak(values, k) != 0.0
  {
    (Peak(values, k) - values[k]) / Peak(values, k)
  }

  ghost predicate PeaksNonZero(values: seq<real>) {
    forall k | 0 <= k < |values| :: Peak(values, k) != 0.0
  }

  lemma {:induction false} PeakStaysUp(values: seq<real>, k: nat)
    requires k < |values|
    ensures Peak(values, k) >= values[0]
  {
    if k > 0 { PeakStaysUp(values, k - 1); }
  }

  lemma PositiveStart(values: seq<real>)
    requires values != [] && values[0] > 0.0
    ensures forall k | 0 <= k < |values| :: Peak(values, k) > 0.0
  {
    forall k | 0 <= k < |values| ensures Peak(values, k) > 0.0 { PeakStaysUp(values, k); }
  }

  ghost predicate GreatestDrop(values: seq<real>, m: real)
    requires PeaksNonZero(values)
  {
    && (forall k | 0 <= k < |values| :: Drop(values, k) <= m)
    && (exists k :: 0 <= k < |values| && Drop(values, k) == m)
  }

  /** One pass, keeping the running peak; None: a peak of zero to divide by. */
  method MaxDrawdown(values: seq<real>) returns (maxDd: Option<real>)
    requires values != []
    ensures maxDd.None? <==> !PeaksNonZero(values)
    ensures maxDd.Some? ==> GreatestDrop(values, maxDd.value) && maxDd.value >= 0.0
  {
    var (peak, most) := (values[0], 0.0);
    for k := 0 to |values|
      invariant peak == Peak(values, if k == 0 then 0 else k - 1)
      invariant forall i | 0 <= i < k :: Peak(values, i) != 0.0 && Drop(values, i) <= most
      invariant most >= 0.0
      invariant most == 0.0 || exists i :: 0 <= i < k && Drop(values, i) == most
    {
      var value := values[k];
      if value > peak { peak := value; }
      assert peak == Peak(values, k);
      if peak == 0.0 { return None; }
      var drawdown := (peak - value) / peak;
      assert drawdown == Drop(values, k);
      if drawdown > most { most := drawdown; }
    }
    assert Drop(values, 0) == 0.0;
    maxDd := Some(most);
  }

  /** While the values stay positive the one pass finds the greatest fall over
      all pairs. */
  lemma DropsAreFalls(values: seq<real>, m: real)
    requires Positive(values) && PeaksNonZero(values)
    ensures GreatestDrop(values, m) <==> GreatestFall(values, m)
    ensures GreatestDrop(values, m) ==> 0.0 <= m < 1.0
  {
    PositiveStart(values);
    forall i, j | 0 <= i <= j < |values| ensures Fall(values, i, j) <= Drop(values, j) < 1.0 {
      PeakIsGreatest(values, j);
      FallAtMost(values[i], Peak(values, j), values[j]);
    }
    forall j | 0 <= j < |values| ensures exists i :: 0 <= i <= j && Fall(values, i, j) == Drop(values, j) {
      PeakIsGreatest(values, j);
      var i :| 0 <= i <= j && values[i] == Peak(values, j);
      assert Fall(values, i, j) == Drop(values, j);
    }
    assert Fall(values, 0, 0) == 0.0 == Drop(values, 0);
    if GreatestDrop(values, m) {
      var k :| 0 <= k < |values| && Drop(values, k) == m;
      var i :| 0 <= i <= k && Fall(values, i, k) == Drop(values, k);
      assert Fall(values, i, k) == m;
    }
    if GreatestFall(values, m) {
      var i, j :| 0 <= i <= j < |values| && Fall(values, i, j) == m;
      assert Drop(values, j) == m;
    }
  }

  lemma DropAtLeastOne(peak: real, v: real)
    requires peak > 0.0 && v <= 0.0
    ensures (peak - v) / peak >= 1.0
  {
    Ratio(peak, v);
    var q := v / peak;
    assert q * peak == v;
    SignOfProduct(q, peak);
  }

  /** From a positive start the figure is below 1 exactly when no value ever
      reaches zero. */
  lemma BelowOneIffPositive(values: seq<real>, m: real)
    requires values != [] && values[0] > 0.0 && PeaksNonZero(values) && GreatestDrop(values, m)
    ensures m < 1.0 <==> Positive(values)
  {
    PositiveStart(values);
    if Positive(values) {
      DropsAreFalls(values, m);
    } else {
      var k :| 0 <= k < |values| && values[k] <= 0.0;
      DropAtLeastOne(Peak(values, k), values[k]);
      assert Drop(values, k) <= m;
    }
  }

  lemma GreatestFallUnique(values: seq<real>, m: real, n: real)
    requires Positive(values) && GreatestFall(values, m) && GreatestFall(values, n)
    ensures m == n
  {
  }

  /** Scaling all values by a positive factor changes no fall. */
  lemma FallScales(values: seq<real>, scaled: seq<real>, c: real, i: nat, j: nat)
    requires c > 0.0 && |values| == |scaled| && i <= j < |values| && values[i] != 0.0 && scaled[i] != 0.0
    requires scaled[i] == c * values[i] && scaled[j] == c * values[j]
    ensures Fall(values, i, j) == Fall(scaled, i, j)
  {
    var f := Fall(values, i, j);
    assert f * values[i] == values[i] - values[j];
    assert f * (c * values[i]) == c * (f * values[i]);
    assert f * scaled[i] == scaled[i] - scaled[j];
  }

  /** The figure is below 1 exactly when every return is above -1, and then it
      is the greatest fall. */
  lemma DrawdownMeaning(initial: real, rets: seq<real>, m: real)
    requires initial > 0.0 && PeaksNonZero(Values(initial, rets)) && GreatestDrop(Values(initial, rets), m)
    ensures m < 1.0 <==> AboveRuin(rets)
    ensures AboveRuin(rets) ==>
              && Positive(Values(initial, rets))
              && forall x :: GreatestFall(Values(initial, rets), x) <==> x == m
  {
    var values := Values(initial, rets);
    PositiveIffAboveRuin(initial, rets);
    BelowOneIffPositive(values, m);
    if AboveRuin(rets) {
      forall x ensures GreatestFall(values, x) <==> x == m {
        DropsAreFalls(values, m);
        if GreatestFall(values, x) { GreatestFallUnique(values, x, m); }
      }
    }
  }

  // ---- the backtest --------------------------------------------------------

  datatype Result = Result(totalReturn: real, maxDrawdown: real, winRate: real)

  function WinDays(rets: seq<real>): set<nat> {
    set k: nat | k < |rets| && rets[k] > 0.0
  }

  method AlignReturns(weights: map<string, real>, data: seq<History>, n: nat) returns (rets: seq<real>)
    requires LongEnough(data, n)
    ensures rets == PortfolioReturns(weights, data, n)
  {
    rets := [];
    for i := 0 to n
      invariant |rets| == i
      invariant forall k | 0 <= k < i :: rets[k] == DailyReturn(weights, data, n - k)
    {
      var daily := 0.0;
      for d := 0 to |data|
        invariant daily == DailyReturn(weights, data[..d], n - i)
      {
        assert data[..d + 1][..d] == data[..d];
        daily := daily + Weight(weights, data[d].symbol) * data[d].rets[|data[d].rets| - (n - i)];
      }
      assert data[..|data|] == data;
      rets := rets + [daily];
    }
  }

  method Compound(initial: real, rets: seq<real>) returns (values: seq<real>)
    ensures values == Values(initial, rets)
  {
    values := [initial];
    for k := 0 to |rets|
      invariant |values| == k + 1 && forall i | 0 <= i <= k :: values[i] == ValueAfter(initial, rets, i)
    {
      values := values + [values[|values| - 1] * (1.0 + rets[k])];
    }
  }

  method WinningDays(rets: seq<real>) returns (wins: nat)
    ensures wins == |WinDays(rets)|
  {
    wins := 0;
    for k := 0 to |rets|
      invariant wins == |WinDays(rets[..k])|
    {
      var more := if rets[k] > 0.0 then {k} else {};
      assert WinDays(rets[..k + 1]) == WinDays(rets[..k]) + more;
      if rets[k] > 0.0 { wins := wins + 1; }
    }
    assert rets[..|rets|] == rets;
  }

  /** NoData: there is no shortest history.  ZeroDivision: a running peak, or
      the initial value, is zero. */
  datatype Outcome = NoData | ZeroDivision | Tested(result: Result)

  method BacktestPortfolio(weights: map<string, real>, data: seq<History>, initial: real) returns (r: Outcome)
    ensures r.NoData? <==> data == []
    ensures data != [] ==>
              var rets := PortfolioReturns(weights, data, MinLength(data));
              var values := Values(initial, rets);
              && (r.ZeroDivision? <==> !PeaksNonZero(values))
              && (initial > 0.0 ==> r.Tested?)
              && (r.Tested? ==>
                    && initial != 0.0 && GreatestDrop(values, r.result.maxDrawdown)
                    && r.result.totalReturn == (values[|rets|] - initial) / initial
                    && r.result.winRate == (if rets == [] then 0.0
                                            else |set k: nat | k < |rets| && rets[k] > 0.0| as real / |rets| as real)
                    && (initial > 0.0 ==> (r.result.maxDrawdown < 1.0 <==> AboveRuin(rets)))
                    && (initial > 0.0 && AboveRuin(rets) ==>
                          && Positive(values)
                          && forall x :: GreatestFall(values, x) <==> x == r.result.maxDrawdown))
  {
    if data == [] { return NoData; }
    var rets := AlignReturns(weights, data, MinLength(data));
    var values := Compound(initial, rets);
    assert Peak(values, 0) == initial;
    if initial == 0.0 { return ZeroDivision; }
    var totalReturn := (values[|values| - 1] - initial) / initial;
    var maxDd := MaxDrawdown(values);
    if initial > 0.0 { PositiveStart(values); }
    if maxDd.None? { return ZeroDivision; }
    var wins := WinningDays(rets);
    r := Tested(Result(totalReturn, maxDd.value, if rets == [] then 0.0 else wins as real / |rets| as real));
    if initial > 0.0 { DrawdownMeaning(initial, rets, maxDd.value); }
  }

  /** Total return and drawdown do not depend on the positive initial value. */
  lemma ScaleFree(rets: seq<real>, a: real, b: real, m: real)
    requires a > 0.0 && b > 0.0 && AboveRuin(rets)
    ensures Positive(Values(a, rets)) && Positive(Values(b, rets))
    ensures (Values(a, rets)[|rets|] - a) / a == (Values(b, rets)[|rets|] - b) / b
    ensures GreatestFall(Values(a, rets), m) <==> GreatestFall(Values(b, rets), m)
  {
    UnitScale(rets, a, m);
    UnitScale(rets, b, m);
  }

  lemma UnitScale(rets: seq<real>, a: real, m: real)
    requires a > 0.0 && AboveRuin(rets)
    ensures Positive(Values(a, rets)) && Positive(Values(1.0, rets))
    ensures (Values(a, rets)[|rets|] - a) / a == Values(1.0, rets)[|rets|] - 1.0
    ensures GreatestFall(Values(a, rets), m) <==> GreatestFall(Values(1.0, rets), m)
  {
    var us, vs := Values(1.0, rets), Values(a, rets);
    forall k | 0 <= k <= |rets| ensures us[k] > 0.0 && vs[k] > 0.0 && vs[k] == a * us[k] {
      ValuePositive(1.0, rets, k);
      ValuePositive(a, rets, k);
      ValueScales(a, rets, k);
    }
    forall i, j | 0 <= i <= j < |us| ensures Fall(us, i, j) == Fall(vs, i, j) {
      FallScales(us, vs, a, i, j);
    }
    var g := us[|rets|];
    assert (g - 1.0) * a == a * g - a;
    Divides(g - 1.0, a * g - a, a);
    assert vs[|rets|] == a * g;
  }

  /** So for returns above -1 the whole drawdown figure is the greatest fall of
      the growth curve, whatever positive amount is invested. */
  lemma DrawdownOfGrowth(rets: seq<real>, initial: real, m: real)
    requires initial > 0.0 && AboveRuin(rets)
    requires PeaksNonZero(Values(initial, rets)) && GreatestDrop(Values(initial, rets), m)
    ensures Positive(Values(1.0, rets)) && GreatestFall(Values(1.0, rets), m) && 0.0 <= m < 1.0
  {
    UnitScale(rets, initial, m);
    DropsAreFalls(Values(initial, rets), m);
  }

  /** A return below -1 can break it: the pass reports 2, but the rise back from
      a negative value counts as a fall of 3. */
  lemma RuinCanBreakIt()
    ensures var values := [100.0, -100.0, 200.0];
            && Values(100.0, [-2.0, -3.0]) == values
            && (forall k | 0 <= k < 3 :: Peak(values, k) > 0.0 && Drop(values, k) <= 2.0)
            && Fall(values, 1, 2) == 3.0
  {
    var rets, values := [-2.0, -3.0], [100.0, -100.0, 200.0];
    assert ValueAfter(100.0, rets, 0) == 100.0;
    assert ValueAfter(100.0, rets, 1) == 100.0 * (1.0 + -2.0) == -100.0;
    assert ValueAfter(100.0, rets, 2) == -100.0 * (1.0 + -3.0) == 200.0;
    assert Values(100.0, rets) == values;
    assert Peak(values, 0) == 100.0 && Peak(values, 1) == 100.0 && Peak(values, 2) == 200.0;
  }
}
