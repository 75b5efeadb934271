/** From many threads to one list: trying a symbol's strategies in turn,
    collecting results in completion order, and the final sort. */
module ScanOrder {
  import opened Common

  datatype Candidate = Candidate(symbol: string, strategy: string, score: real, realIv: bool, fallback: Option<nat>)

  // ---- the sort key --------------------------------------------------------

  /** Python's order on strings: by code point, a prefix first. */
  predicate StringLess(a: string, b: string) {
    b != [] && (a == [] || a[0] < b[0] || (a[0] == b[0] && StringLess(a[1..], b[1..])))
  }

  lemma {:induction false} StringOrder(a: string, b: string)
    ensures !(StringLess(a, b) && StringLess(b, a))
    ensures a == b <==> !StringLess(a, b) && !StringLess(b, a)
  {
    if a != [] && b != [] {
      StringOrder(a[1..], b[1..]);
      assert a == [a[0]] + a[1..] && b == [b[0]] + b[1..];
    }
  }

  /** A proper prefix, or the smaller character at the first difference. */
  ghost predicate Before(a: string, b: string) {
    || (|a| < |b| && a == b[..|a|])
    || exists k :: 0 <= k < |a| && k < |b| && a[..k] == b[..k] && a[k] < b[k]
  }

  lemma BeforeTail(a: string, b: string)
    requires a != [] && b != [] && a[0] == b[0]
    ensures Before(a, b) <==> Before(a[1..], b[1..])
  {
    var x, y := a[1..], b[1..];
    assert a == [a[0]] + x && b == [a[0]] + y;
    if |x| < |y| && x == y[..|x|] { assert a == b[..|a|]; }
    if |a| < |b| && a == b[..|a|] { assert x == y[..|x|]; }
    if k :| 0 <= k < |x| && k < |y| && x[..k] == y[..k] && x[k] < y[k] {
      assert a[..k + 1] == b[..k + 1] && a[k + 1] < b[k + 1];
    }
    if k :| 0 <= k < |a| && k < |b| && a[..k] == b[..k] && a[k] < b[k] {
      assert k > 0;
      assert a[..k][1..] == x[..k - 1] && b[..k][1..] == y[..k - 1] && x[k - 1] < y[k - 1];
    }
  }

  lemma FirstDecides(a: string, b: string)
    requires a != [] && b != [] && a[0] != b[0]
    ensures Before(a, b) <==> a[0] < b[0]
  {
    assert a[..0] == b[..0];
    forall k | 1 <= k <= |a| && k <= |b| ensures a[..k] != b[..k] {
      assert a[..k][0] != b[..k][0];
    }
    assert a[..|a|] == a;
  }

  lemma {:induction false} StringLessIff(a: string, b: string)
    ensures StringLess(a, b) <==> Before(a, b)
  {
    if a != [] && b != [] {
      if a[0] == b[0] {
        StringLessIff(a[1..], b[1..]);
        BeforeTail(a, b);
      } else {
        FirstDecides(a, b);
      }
    }
  }

  lemma {:induction false} StringTransitive(a: string, b: string, c: string)
    requires StringLess(a, b) && !StringLess(c, b)
    ensures StringLess(a, c)
    decreases |a| + |b| + |c|
  {
    if a != [] {
      if a[0] == b[0] == c[0] {
        StringTransitive(a[1..], b[1..], c[1..]);
      }
    }
  }

  /** The key tuple, compared left to right; real-iv first when routing is on. */
  predicate KeyLess(routing: bool, a: Candidate, b: Candidate) {
    if routing && a.realIv != b.realIv then b.realIv
    else a.score < b.score || (a.score == b.score && StringLess(a.symbol, b.symbol))
  }

  predicate SameKey(routing: bool, a: Candidate, b: Candidate) {
    (routing ==> a.realIv == b.realIv) && a.score == b.score && a.symbol == b.symbol
  }

  lemma KeyOrder(routing: bool, a: Candidate, b: Candidate)
    ensures !(KeyLess(routing, a, b) && KeyLess(routing, b, a))
    ensures SameKey(routing, a, b) <==> !KeyLess(routing, a, b) && !KeyLess(routing, b, a)
  {
    StringOrder(a.symbol, b.symbol);
  }

  lemma KeyTransitive(routing: bool, a: Candidate, b: Candidate, c: Candidate)
    requires KeyLess(routing, a, b) && !KeyLess(routing, c, b)
    ensures KeyLess(routing, a, c)
  {
    if StringLess(a.symbol, b.symbol) && !StringLess(c.symbol, b.symbol) {
      StringTransitive(a.symbol, b.symbol, c.symbol);
    }
    StringOrder(b.symbol, c.symbol);
  }

  // ---- a stable descending sort --------------------------------------------

  /** Put `x` behind everything that is not smaller. */
  function Insert(routing: bool, sorted: seq<Candidate>, x: Candidate): seq<Candidate> {
    if sorted == [] then [x]
    else if KeyLess(routing, sorted[0], x) then [x] + sorted
    else [sorted[0]] + Insert(routing, sorted[1..], x)
  }

  /** `list.sort(key=..., reverse=True)`: descending, equal keys in input order. */
  function SortDescending(routing: bool, xs: seq<Candidate>): seq<Candidate> {
    if xs == [] then [] else Insert(routing, SortDescending(routing, xs[..|xs| - 1]), xs[|xs| - 1])
  }

  ghost predicate Descending(routing: bool, xs: seq<Candidate>) {
    forall i, j | 0 <= i < j < |xs| :: !KeyLess(routing, xs[i], xs[j])
  }

  lemma HeadContents(head: Candidate, tail: seq<Candidate>)
    ensures multiset([head] + tail) == multiset{head} + multiset(tail)
  {
  }

  lemma {:induction false} InsertContents(routing: bool, sorted: seq<Candidate>, x: Candidate)
    ensures multiset(Insert(routing, sorted, x)) == multiset(sorted) + multiset{x}
  {
    if sorted == [] || KeyLess(routing, sorted[0], x) {
      HeadContents(x, sorted);
      assert sorted == [] ==> [x] + sorted == [x];
    } else {
      var head, tail := sorted[0], sorted[1..];
      InsertContents(routing, tail, x);
      HeadContents(head, Insert(routing, tail, x));
      HeadContents(head, tail);
      assert sorted == [head] + tail;
    }
  }

  lemma {:induction false} InsertDescends(routing: bool, sorted: seq<Candidate>, x: Candidate)
    requires Descending(routing, sorted)
    ensures Descending(routing, Insert(routing, sorted, x))
  {
    if sorted != [] {
      var head, tail := sorted[0], sorted[1..];
      if KeyLess(routing, head, x) {
        forall i | 0 <= i < |sorted| ensures !KeyLess(routing, x, sorted[i]) {
          KeyOrder(routing, head, x);
          KeyOrder(routing, x, sorted[i]);
          if KeyLess(routing, x, sorted[i]) { KeyTransitive(routing, head, x, sorted[i]); }
        }
      } else {
        InsertDescends(routing, tail, x);
        InsertContents(routing, tail, x);
        var rest := Insert(routing, tail, x);
        forall j | 0 <= j < |rest| ensures !KeyLess(routing, head, rest[j]) {
          assert rest[j] in multiset(rest);
          if rest[j] != x { assert rest[j] in tail; }
        }
      }
    }
  }

  lemma InsertSorts(routing: bool, sorted: seq<Candidate>, front: seq<Candidate>, last: Candidate)
    requires multiset(sorted) == multiset(front) && Descending(routing, sorted)
    ensures multiset(Insert(routing, sorted, last)) == multiset(front + [last])
    ensures Descending(routing, Insert(routing, sorted, last))
  {
    InsertContents(routing, sorted, last);
    InsertDescends(routing, sorted, last);
  }

  lemma {:induction false} SortIsDescendingPermutation(routing: bool, xs: seq<Candidate>)
    ensures multiset(SortDescending(routing, xs)) == multiset(xs)
    ensures Descending(routing, SortDescending(routing, xs))
  {
    if xs != [] {
      var front, last := xs[..|xs| - 1], xs[|xs| - 1];
      SortIsDescendingPermutation(routing, front);
      InsertSorts(routing, SortDescending(routing, front), front, last);
      assert xs == front + [last];
    }
  }

  /** May stand before: with routing a real IV rank comes first; then the higher
      score, and on equal scores the symbol that is not before the other. */
  ghost predicate MayPrecede(routing: bool, a: Candidate, b: Candidate) {
    if routing && a.realIv != b.realIv then a.realIv
    else a.score >= b.score && (a.score == b.score ==> !Before(a.symbol, b.symbol))
  }

  /** Best first, the whole list through. */
  ghost predicate BestFirst(routing: bool, list: seq<Candidate>) {
    forall i, j | 0 <= i < j < |list| :: MayPrecede(routing, list[i], list[j])
  }

  lemma SortIsBestFirst(routing: bool, xs: seq<Candidate>)
    ensures BestFirst(routing, SortDescending(routing, xs))
  {
    var list := SortDescending(routing, xs);
    SortIsDescendingPermutation(routing, xs);
    forall i, j | 0 <= i < j < |list| ensures MayPrecede(routing, list[i], list[j]) {
      assert !KeyLess(routing, list[i], list[j]);
      StringLessIff(list[i].symbol, list[j].symbol);
    }
  }

  /** With routing off no lower score stands before a higher one; with routing on
      the same holds among those with a real IV rank and among those without,
      and none without stands before one with. */
  lemma FinalOrder(routing: bool, xs: seq<Candidate>, i: nat, j: nat)
    requires i < j < |SortDescending(routing, xs)|
    ensures var (a, b) := (SortDescending(routing, xs)[i], SortDescending(routing, xs)[j]);
            && (!routing || a.realIv == b.realIv ==> a.score >= b.score)
            && ((!routing || a.realIv == b.realIv) && a.score == b.score ==> !Before(a.symbol, b.symbol))
            && (routing && b.realIv ==> a.realIv)
  {
    SortIsBestFirst(routing, xs);
    assert MayPrecede(routing, SortDescending(routing, xs)[i], SortDescending(routing, xs)[j]);
  }

  /** The first element with the key of `k`. */
  function FirstWithKey(routing: bool, xs: seq<Candidate>, k: Candidate): Option<Candidate> {
    if xs == [] then None
    else if SameKey(routing, xs[0], k) then Some(xs[0])
    else FirstWithKey(routing, xs[1..], k)
  }

  lemma {:induction false} FirstOfInsert(routing: bool, sorted: seq<Candidate>, x: Candidate, k: Candidate)
    requires Descending(routing, sorted)
    ensures var before := FirstWithKey(routing, sorted, k);
            FirstWithKey(routing, Insert(routing, sorted, x), k)
            == if before.Some? then before else if SameKey(routing, x, k) then Some(x) else None
  {
    if sorted != [] {
      var head, tail := sorted[0], sorted[1..];
      assert sorted == [head] + tail;
      if KeyLess(routing, head, x) {
        assert ([x] + sorted)[1..] == sorted;
        if SameKey(routing, x, k) { NoneBelow(routing, sorted, x, k); }
      } else {
        FirstOfInsert(routing, tail, x, k);
        assert ([head] + Insert(routing, tail, x))[1..] == Insert(routing, tail, x);
      }
    } else {
      assert [x][1..] == [];
    }
  }

  /** Nothing behind a smaller head has the key. */
  lemma {:induction false} NoneBelow(routing: bool, sorted: seq<Candidate>, x: Candidate, k: Candidate)
    requires Descending(routing, sorted) && SameKey(routing, x, k)
    requires sorted != [] ==> KeyLess(routing, sorted[0], x)
    ensures FirstWithKey(routing, sorted, k).None?
  {
    if sorted != [] {
      var head, tail := sorted[0], sorted[1..];
      KeyOrder(routing, head, x);
      assert !SameKey(routing, head, k);
      if tail != [] { KeyTransitive2(routing, tail[0], head, x); }
      NoneBelow(routing, tail, x, k);
    }
  }

  lemma KeyTransitive2(routing: bool, a: Candidate, b: Candidate, c: Candidate)
    requires !KeyLess(routing, b, a) && KeyLess(routing, b, c)
    ensures KeyLess(routing, a, c)
  {
    if !KeyLess(routing, a, c) {
      KeyTransitive(routing, b, c, a);
    }
  }

  /** The sort is stable as far as the first of each key goes. */
  lemma {:induction false} SortKeepsFirst(routing: bool, xs: seq<Candidate>, k: Candidate)
    ensures FirstWithKey(routing, SortDescending(routing, xs), k) == FirstWithKey(routing, xs, k)
  {
    if xs != [] {
      var front, last := xs[..|xs| - 1], xs[|xs| - 1];
      SortKeepsFirst(routing, front, k);
      SortIsDescendingPermutation(routing, front);
      FirstOfInsert(routing, SortDescending(routing, front), last, k);
      FirstOfAppend(routing, front, last, k);
      assert xs == front + [last];
    }
  }

  lemma {:induction false} FirstOfAppend(routing: bool, xs: seq<Candidate>, x: Candidate, k: Candidate)
    ensures var before := FirstWithKey(routing, xs, k);
            FirstWithKey(routing, xs + [x], k)
            == if before.Some? then before else if SameKey(routing, x, k) then Some(x) else None
  {
    if xs != [] {
      FirstOfAppend(routing, xs[1..], x, k);
      assert (xs + [x])[1..] == xs[1..] + [x];
    } else {
      assert [x][1..] == [];
    }
  }

  // ---- independence of the completion order --------------------------------

  /** Different results never share a key. */
  ghost predicate NoTies(routing: bool, xs: seq<Candidate>) {
    forall a, b | a in xs && b in xs && SameKey(routing, a, b) :: a == b
  }

  ghost predicate OrderIndependent(routing: bool, xs: seq<Candidate>) {
    forall ys: seq<Candidate> | multiset(ys) == multiset(xs) ::
      SortDescending(routing, ys) == SortDescending(routing, xs)
  }

  lemma SameHead(routing: bool, xs: seq<Candidate>, ys: seq<Candidate>)
    requires multiset(xs) == multiset(ys) && xs != [] && ys != []
    requires Descending(routing, xs) && Descending(routing, ys) && NoTies(routing, xs)
    ensures xs[0] == ys[0]
  {
    assert xs[0] in multiset(xs) && ys[0] in multiset(ys);
    assert xs[0] in multiset(ys) && ys[0] in multiset(xs);
    var i :| 0 <= i < |ys| && ys[i] == xs[0];
    var j :| 0 <= j < |xs| && xs[j] == ys[0];
    KeyOrder(routing, xs[0], ys[0]);
  }

  lemma TailMultiset(xs: seq<Candidate>)
    requires xs != []
    ensures multiset(xs[1..]) == multiset(xs) - multiset{xs[0]}
  {
    assert xs == [xs[0]] + xs[1..];
  }

  lemma {:induction false} DescendingIsUnique(routing: bool, xs: seq<Candidate>, ys: seq<Candidate>)
    requires multiset(xs) == multiset(ys) && Descending(routing, xs) && Descending(routing, ys) && NoTies(routing, xs)
    ensures xs == ys
  {
    assert |multiset(xs)| == |xs| && |multiset(ys)| == |ys|;
    if xs != [] {
      SameHead(routing, xs, ys);
      TailMultiset(xs);
      TailMultiset(ys);
      DescendingIsUnique(routing, xs[1..], ys[1..]);
      assert xs == [xs[0]] + xs[1..] && ys == [ys[0]] + ys[1..];
    }
  }

  lemma MoveToFront(xs: seq<Candidate>, i: nat) returns (ys: seq<Candidate>)
    requires i < |xs|
    ensures multiset(ys) == multiset(xs) && ys != [] && ys[0] == xs[i]
  {
    ys := [xs[i]] + xs[..i] + xs[i + 1..];
    assert xs == xs[..i] + [xs[i]] + xs[i + 1..];
  }

  /** The list is a function of the results alone, whatever order the threads
      finish in, exactly when no two different results tie on the key. */
  lemma OrderIndependentIff(routing: bool, xs: seq<Candidate>)
    ensures OrderIndependent(routing, xs) <==> NoTies(routing, xs)
  {
    if NoTies(routing, xs) {
      forall ys: seq<Candidate> | multiset(ys) == multiset(xs)
        ensures SortDescending(routing, ys) == SortDescending(routing, xs)
      {
        SortIsDescendingPermutation(routing, xs);
        SortIsDescendingPermutation(routing, ys);
        SortHasNoTies(routing, xs);
        DescendingIsUnique(routing, SortDescending(routing, xs), SortDescending(routing, ys));
      }
    } else {
      var a, b :| a in xs && b in xs && SameKey(routing, a, b) && a != b;
      var i :| 0 <= i < |xs| && xs[i] == a;
      var j :| 0 <= j < |xs| && xs[j] == b;
      var ys := MoveToFront(xs, i);
      var zs := MoveToFront(xs, j);
      SortKeepsFirst(routing, ys, a);
      SortKeepsFirst(routing, zs, a);
      KeyOrder(routing, b, a);
      assert FirstWithKey(routing, SortDescending(routing, ys), a) == Some(a);
      assert FirstWithKey(routing, SortDescending(routing, zs), a) == Some(b);
    }
  }

  lemma SortHasNoTies(routing: bool, xs: seq<Candidate>)
    requires NoTies(routing, xs)
    ensures NoTies(routing, SortDescending(routing, xs))
  {
    SortIsDescendingPermutation(routing, xs);
    var sorted := SortDescending(routing, xs);
    forall a, b | a in sorted && b in sorted && SameKey(routing, a, b) ensures a == b {
      assert a in multiset(sorted) && b in multiset(sorted);
      assert a in multiset(xs) && b in multiset(xs);
    }
  }

  // ---- one symbol ----------------------------------------------------------

  /** What `process_symbol` returns for a symbol and its k-th candidate
      strategy, 0 being the primary pick. */
  type Attempt = (string, nat) -> Option<Candidate>

  /** The first of the strategies k, ..., n-1 that passes, marked as a fallback. */
  function FirstPass(sym: string, attempt: Attempt, k: nat, n: nat): Option<Candidate>
    decreases n - k
  {
    if k >= n then None
    else
      var r := attempt(sym, k);
      if r.Some? then Some(r.value.(fallback := Some(k))) else FirstPass(sym, attempt, k + 1, n)
  }

  function MultiResult(sym: string, attempt: Attempt, n: nat, enabled: bool): Option<Candidate> {
    var primary := attempt(sym, 0);
    if primary.Some? || !enabled then primary else FirstPass(sym, attempt, 1, n)
  }

  lemma {:induction false} FirstPassIsFirst(sym: string, attempt: Attempt, k: nat, n: nat) returns (w: nat)
    ensures FirstPass(sym, attempt, k, n).None? <==> forall i | k <= i < n :: attempt(sym, i).None?
    ensures FirstPass(sym, attempt, k, n).Some? ==>
              && k <= w < n && attempt(sym, w).Some? && (forall i | k <= i < w :: attempt(sym, i).None?)
              && FirstPass(sym, attempt, k, n) == Some(attempt(sym, w).value.(fallback := Some(w)))
    decreases n - k
  {
    w := k;
    if k < n && attempt(sym, k).None? {
      w := FirstPassIsFirst(sym, attempt, k + 1, n);
    }
  }

  /** A symbol yields a candidate exactly when some strategy tried for it passes:
      the primary alone when multi-strategy evaluation is off. */
  lemma SymbolYieldsIff(sym: string, attempt: Attempt, n: nat, enabled: bool)
    ensures MultiResult(sym, attempt, n, enabled).Some? <==>
            attempt(sym, 0).Some? || (enabled && exists k :: 1 <= k < n && attempt(sym, k).Some?)
  {
    var w := FirstPassIsFirst(sym, attempt, 1, n);
  }

  // ---- the counters --------------------------------------------------------

  /** The part of the rejection statistics the wrapper touches.  A counter keyed
      by strategy is a multiset of strategies. */
  class ScanStats {
    var emitted: multiset<string>
    var noFallback: nat
    var allRejected: nat

    constructor ()
      ensures emitted == multiset{} && noFallback == 0 && allRejected == 0
    {
      emitted, noFallback, allRejected := multiset{}, 0, 0;
    }

    method RecordEmission(strategy: string)
      modifies this
      ensures emitted == old(emitted) + multiset{strategy}
      ensures noFallback == old(noFallback) && allRejected == old(allRejected)
    {
      emitted := emitted + multiset{strategy};
    }
  }

  /** One attempt: a candidate is counted where it is emitted. */
  method ProcessSymbol(sym: string, attempt: Attempt, k: nat, stats: ScanStats) returns (r: Option<Candidate>)
    modifies stats
    ensures r == attempt(sym, k)
    ensures stats.emitted == old(stats.emitted) + (if r.Some? then multiset{r.value.strategy} else multiset{})
    ensures stats.noFallback == old(stats.noFallback) && stats.allRejected == old(stats.allRejected)
  {
    r := attempt(sym, k);
    if r.Some? { stats.RecordEmission(r.value.strategy); }
  }

  method ProcessSymbolMulti(sym: string, attempt: Attempt, n: nat, enabled: bool, stats: ScanStats)
    returns (r: Option<Candidate>)
    modifies stats
    ensures r == MultiResult(sym, attempt, n, enabled)
    ensures stats.emitted == old(stats.emitted) + (if r.Some? then multiset{r.value.strategy} else multiset{})
    ensures stats.noFallback == old(stats.noFallback) + (if r.None? && enabled && n <= 1 then 1 else 0)
    ensures stats.allRejected == old(stats.allRejected) + (if r.None? && enabled && n > 1 then 1 else 0)
  {
    r := ProcessSymbol(sym, attempt, 0, stats);
    if r.Some? || !enabled { return; }
    if n <= 1 {
      stats.noFallback := stats.noFallback + 1;
      return None;
    }
    var k: nat := 1;
    while k < n
      invariant 1 <= k <= n && FirstPass(sym, attempt, 1, n) == FirstPass(sym, attempt, k, n)
      invariant stats.emitted == old(stats.emitted)
      invariant stats.noFallback == old(stats.noFallback) && stats.allRejected == old(stats.allRejected)
    {
      r := ProcessSymbol(sym, attempt, k, stats);
      if r.Some? { return Some(r.value.(fallback := Some(k))); }
      k := k + 1;
    }
    stats.allRejected := stats.allRejected + 1;
    r := None;
  }

  // ---- the whole scan ------------------------------------------------------

  /** `list(dict.fromkeys(...))`: the first occurrence of each symbol. */
  function FromKeys(symbols: seq<string>): seq<string> {
    if symbols == [] then []
    else
      var front, last := FromKeys(symbols[..|symbols| - 1]), symbols[|symbols| - 1];
      if last in front then front else front + [last]
  }

  lemma {:induction false} FromKeysDistinct(symbols: seq<string>)
    ensures NoDup(FromKeys(symbols)) && forall s :: s in FromKeys(symbols) <==> s in symbols
  {
    if symbols != [] {
      FromKeysDistinct(symbols[..|symbols| - 1]);
      assert symbols == symbols[..|symbols| - 1] + [symbols[|symbols| - 1]];
    }
  }

  type Results = string -> Option<Candidate>

  /** What is appended as the symbols finish in the given order. */
  function Collected(order: seq<string>, results: Results): seq<Candidate> {
    if order == [] then []
    else
      var (front, r) := (Collected(order[..|order| - 1], results), results(order[|order| - 1]));
      if r.Some? then front + [r.value] else front
  }

  /** A candidate carries the symbol it was made for. */
  ghost predicate Labelled(order: seq<string>, results: Results) {
    forall s | s in order && results(s).Some? :: results(s).value.symbol == s
  }

  lemma {:induction false} CollectedMembers(order: seq<string>, results: Results, c: Candidate)
    requires NoDup(order) && Labelled(order, results)
    ensures c in Collected(order, results) <==> c.symbol in order && results(c.symbol) == Some(c)
    ensures NoDup(Collected(order, results))
  {
    if order != [] {
      var front, last := order[..|order| - 1], order[|order| - 1];
      assert order == front + [last] && last !in front;
      CollectedMembers(front, results, c);
      if results(last).Some? { CollectedMembers(front, results, results(last).value); }
    }
  }

  lemma SameMultiset(xs: seq<Candidate>, ys: seq<Candidate>)
    requires NoDup(xs) && NoDup(ys) && forall c :: c in xs <==> c in ys
    ensures multiset(xs) == multiset(ys)
  {
    forall c ensures multiset(xs)[c] == multiset(ys)[c] {
      NoDupMultiplicity(xs, c);
      NoDupMultiplicity(ys, c);
    }
  }

  lemma ResultsDoNotTie(routing: bool, order: seq<string>, results: Results)
    requires NoDup(order) && Labelled(order, results)
    ensures NoTies(routing, Collected(order, results))
  {
    var xs := Collected(order, results);
    forall a, b | a in xs && b in xs && SameKey(routing, a, b) ensures a == b {
      CollectedMembers(order, results, a);
      CollectedMembers(order, results, b);
    }
  }

  /** For distinct symbols the final list does not depend on the order in which
      the threads complete. */
  lemma CompletionOrderIrrelevant(routing: bool, order: seq<string>, order': seq<string>, results: Results)
    requires NoDup(order) && NoDup(order') && Labelled(order, results)
    requires forall s :: s in order <==> s in order'
    ensures SortDescending(routing, Collected(order, results)) == SortDescending(routing, Collected(order', results))
  {
    var xs, ys := Collected(order, results), Collected(order', results);
    forall c ensures c in xs <==> c in ys {
      CollectedMembers(order, results, c);
      CollectedMembers(order', results, c);
    }
    if xs != [] { CollectedMembers(order, results, xs[0]); CollectedMembers(order', results, xs[0]); }
    if ys != [] { CollectedMembers(order, results, ys[0]); CollectedMembers(order', results, ys[0]); }
    if xs != [] || ys != [] { SameMultiset(xs, ys); }
    ResultsDoNotTie(routing, order, results);
    OrderIndependentIff(routing, xs);
  }

  function Emissions(candidates: seq<Candidate>): multiset<string> {
    if candidates == [] then multiset{}
    else Emissions(candidates[..|candidates| - 1]) + multiset{candidates[|candidates| - 1].strategy}
  }

  /** The positions of a strategy's candidates. */
  function Positions(candidates: seq<Candidate>, strategy: string): set<nat> {
    set i: nat | i < |candidates| && candidates[i].strategy == strategy
  }

  lemma PositionsGrow(front: seq<Candidate>, last: Candidate, strategy: string)
    ensures |Positions(front + [last], strategy)|
            == |Positions(front, strategy)| + (if last.strategy == strategy then 1 else 0)
  {
    assert Positions(front + [last], strategy)
           == Positions(front, strategy) + (if last.strategy == strategy then {|front|} else {});
  }

  /** A strategy is emitted as often as candidates have it. */
  lemma {:induction false} EmissionsCount(candidates: seq<Candidate>, strategy: string)
    ensures Emissions(candidates)[strategy] == |Positions(candidates, strategy)|
  {
    if candidates == [] {
      assert Positions(candidates, strategy) == {};
    } else {
      var (front, last) := (candidates[..|candidates| - 1], candidates[|candidates| - 1]);
      EmissionsCount(front, strategy);
      PositionsGrow(front, last, strategy);
      assert candidates == front + [last];
    }
  }

  lemma {:induction false} EmissionsCons(head: Candidate, tail: seq<Candidate>)
    ensures Emissions([head] + tail) == multiset{head.strategy} + Emissions(tail)
  {
    if tail == [] {
      assert [head] + tail == [head] && [head][..0] == [];
    } else {
      EmissionsCons(head, tail[..|tail| - 1]);
      assert ([head] + tail)[..|tail|] == [head] + tail[..|tail| - 1];
    }
  }

  lemma EmissionsOfTail(candidates: seq<Candidate>)
    requires candidates != []
    ensures Emissions(candidates) == multiset{candidates[0].strategy} + Emissions(candidates[1..])
  {
    EmissionsCons(candidates[0], candidates[1..]);
    assert candidates == [candidates[0]] + candidates[1..];
  }

  lemma AddedLast(head: multiset<string>, tail: multiset<string>, more: multiset<string>, x: multiset<string>)
    requires more == tail + x
    ensures head + more == head + tail + x
  {
  }

  lemma {:induction false} EmissionsInsert(routing: bool, sorted: seq<Candidate>, x: Candidate)
    ensures Emissions(Insert(routing, sorted, x)) == Emissions(sorted) + multiset{x.strategy}
  {
    var out := Insert(routing, sorted, x);
    EmissionsOfTail(out);
    if sorted == [] {
      assert out[1..] == [];
    } else if KeyLess(routing, sorted[0], x) {
      assert out[1..] == sorted;
    } else {
      EmissionsInsert(routing, sorted[1..], x);
      EmissionsOfTail(sorted);
      assert out[1..] == Insert(routing, sorted[1..], x);
      AddedLast(multiset{sorted[0].strategy}, Emissions(sorted[1..]), Emissions(out[1..]), multiset{x.strategy});
    }
  }

  /** The order of the list does not matter to them. */
  lemma {:induction false} EmissionsSort(routing: bool, xs: seq<Candidate>)
    ensures Emissions(SortDescending(routing, xs)) == Emissions(xs)
  {
    if xs != [] {
      EmissionsSort(routing, xs[..|xs| - 1]);
      EmissionsInsert(routing, SortDescending(routing, xs[..|xs| - 1]), xs[|xs| - 1]);
    }
  }

  lemma {:induction false} EmissionsSize(candidates: seq<Candidate>)
    ensures |Emissions(candidates)| == |candidates|
  {
    if candidates != [] { EmissionsSize(candidates[..|candidates| - 1]); }
  }

  /** The scan: collect in completion order, then sort.  The emission counters
      add up to the length of the list. */
  method ScanForOpportunities(
    order: seq<string>, attempt: Attempt, strategies: string -> nat, enabled: bool, routing: bool, stats: ScanStats)
    returns (candidates: seq<Candidate>)
    requires stats.emitted == multiset{}
    modifies stats
    ensures candidates ==
            SortDescending(routing, Collected(order, s => MultiResult(s, attempt, strategies(s), enabled)))
    ensures BestFirst(routing, candidates)
    ensures |stats.emitted| == |candidates|
    ensures forall strategy :: stats.emitted[strategy] == |Positions(candidates, strategy)|
  {
    var results := s => MultiResult(s, attempt, strategies(s), enabled);
    candidates := [];
    for i := 0 to |order|
      invariant candidates == Collected(order[..i], results)
      invariant stats.emitted == Emissions(candidates)
    {
      var r := ProcessSymbolMulti(order[i], attempt, strategies(order[i]), enabled, stats);
      assert order[..i + 1][..i] == order[..i];
      if r.Some? {
        ghost var before := candidates;
        candidates := candidates + [r.value];
        assert candidates[..|before|] == before;
      }
    }
    assert order[..|order|] == order;
    EmissionsSize(candidates);
    SortIsDescendingPermutation(routing, candidates);
    SortIsBestFirst(routing, candidates);
    ghost var unsorted := candidates;
    candidates := SortDescending(routing, candidates);
    EmissionsSort(routing, unsorted);
    forall strategy ensures stats.emitted[strategy] == |Positions(candidates, strategy)| {
      EmissionsCount(candidates, strategy);
    }
    assert |multiset(candidates)| == |candidates| && |multiset(unsorted)| == |unsorted|;
  }

  /** A symbol is listed exactly when it was scanned and yielded a result, and
      then it is that result that is listed. */
  lemma ListedIff(routing: bool, order: seq<string>, results: Results, c: Candidate)
    requires NoDup(order) && Labelled(order, results)
    ensures c in SortDescending(routing, Collected(order, results)) <==>
            c.symbol in order && results(c.symbol) == Some(c)
  {
    var xs := Collected(order, results);
    SortIsDescendingPermutation(routing, xs);
    CollectedMembers(order, results, c);
    assert c in SortDescending(routing, xs) <==> c in multiset(SortDescending(routing, xs));
    assert c in xs <==> c in multiset(xs);
  }

  /** Every symbol appears at most once. */
  lemma EachSymbolOnce(routing: bool, order: seq<string>, results: Results, i: nat, j: nat)
    requires NoDup(order) && Labelled(order, results)
    requires var list := SortDescending(routing, Collected(order, results));
             i < |list| && j < |list| && list[i].symbol == list[j].symbol
    ensures i == j
  {
    var xs := Collected(order, results);
    var list := SortDescending(routing, xs);
    SortIsDescendingPermutation(routing, xs);
    assert list[i] in multiset(list) && list[j] in multiset(list);
    assert list[i] in multiset(xs) && list[j] in multiset(xs);
    CollectedMembers(order, results, list[i]);
    CollectedMembers(order, results, list[j]);
    assert list[i] == list[j];
    if i != j {
      NoDupMultiplicity(xs, list[i]);
      TwiceInMultiset(list, if i < j then i else j, if i < j then j else i);
    }
  }

  lemma TwiceInMultiset(xs: seq<Candidate>, i: nat, j: nat)
    requires i < j < |xs| && xs[i] == xs[j]
    ensures multiset(xs)[xs[i]] >= 2
  {
    assert xs == xs[..i] + [xs[i]] + xs[i + 1..j] + [xs[j]] + xs[j + 1..];
  }
}
