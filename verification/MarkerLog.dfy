/** The marker log as a file: what appends leave in it, whole or torn, and the
    lines a reader splits it into.  A torn append leaves the front of its line
    with no line break, so the next append continues on the same line. */
module MarkerLog {
  import opened Common
  import opened MarkerLines

  /** One append.  `cut` is None when the line and its line break were written,
      and otherwise the number of characters that were. */
  datatype Entry = Entry(line: Line, cut: Option<nat>)

  predicate Whole(e: Entry) {
    e.cut.None?
  }

  function Kept(e: Entry): string {
    var text := Render(e.line);
    if e.cut.None? || e.cut.value >= |text| then text else text[..e.cut.value]
  }

  /** The unfinished last line of the file. */
  function OpenText(log: seq<Entry>): string {
    if log == [] || Whole(log[|log| - 1]) then ""
    else OpenText(log[..|log| - 1]) + Kept(log[|log| - 1])
  }

  /** The finished lines. */
  function ClosedLines(log: seq<Entry>): seq<string> {
    if log == [] then []
    else
      var (front, last) := (log[..|log| - 1], log[|log| - 1]);
      if Whole(last) then ClosedLines(front) + [OpenText(front) + Kept(last)] else ClosedLines(front)
  }

  /** `read_text().splitlines()` */
  function TextLines(log: seq<Entry>): seq<string> {
    ClosedLines(log) + (if OpenText(log) == "" then [] else [OpenText(log)])
  }

  /** The file, byte for byte: every append as far as it was written. */
  function FileText(log: seq<Entry>): string {
    if log == [] then ""
    else
      var (front, last) := (log[..|log| - 1], log[|log| - 1]);
      FileText(front) + Kept(last) + (if Whole(last) then "\n" else "")
  }

  function Unlines(lines: seq<string>): string {
    if lines == [] then "" else Unlines(lines[..|lines| - 1]) + lines[|lines| - 1] + "\n"
  }

  lemma UnlinesAppend(lines: seq<string>, last: string)
    ensures Unlines(lines + [last]) == Unlines(lines) + last + "\n"
  {
    assert (lines + [last])[..|lines|] == lines;
  }

  lemma ConcatAssociates(a: string, b: string, c: string)
    ensures a + b + c == a + (b + c)
  {
  }

  /** The finished lines and the unfinished one make up the file. */
  lemma {:induction false} LinesAreFile(log: seq<Entry>)
    ensures FileText(log) == Unlines(ClosedLines(log)) + OpenText(log)
  {
    if log != [] {
      var (front, last) := (log[..|log| - 1], log[|log| - 1]);
      LinesAreFile(front);
      var (lines, open, kept) := (ClosedLines(front), OpenText(front), Kept(last));
      ConcatAssociates(Unlines(lines), open, kept);
      if Whole(last) {
        UnlinesAppend(lines, open + kept);
      }
    }
  }

  // ---- needles do not straddle ---------------------------------------------

  /** The texts the contract looks for. */
  ghost predicate Needle(needle: string) {
    needle == MARK_START || needle == MARK_END || exists run: RunId :: needle == Tag(run)
  }

  lemma NeedleShape(needle: string)
    requires Needle(needle)
    ensures |needle| >= 6 && needle[0] != '='
    ensures forall k | 0 <= k < |needle| && needle[k] == '=' :: k == 4 && needle[5] != '='
  {
    if needle != MARK_START && needle != MARK_END {
      var run: RunId :| needle == Tag(run);
      assert forall k | 0 <= k < |run| :: needle[5 + k] == run[k];
      assert forall k | 0 <= k < |run| :: run[k] != '=';
      assert needle[..5] == "[run=" && needle[5 + |run|..] == "]";
      assert forall k | 0 <= k < 5 :: needle[k] == "[run="[k];
      assert needle[5 + |run|] == ']';
    }
  }

  /** Every line begins with equals signs, and so does what is kept of it. */
  lemma KeptShape(e: Entry)
    ensures |Kept(e)| >= 1 ==> Kept(e)[0] == '='
    ensures |Kept(e)| >= 2 ==> Kept(e)[1] == '='
  {
    var text := Render(e.line);
    match e.line {
      case StartLine(ts, _, _) => assert Head(ts)[0] == '=' && Head(ts)[1] == '=' && text[..2] == Head(ts)[..2];
      case AbortedLine(ts, _, _) => assert Head(ts)[0] == '=' && Head(ts)[1] == '=' && text[..2] == Head(ts)[..2];
      case EndLine(ts, _, _) => assert Head(ts)[0] == '=' && Head(ts)[1] == '=' && text[..2] == Head(ts)[..2];
      case Note(t) => assert text[..2] == "==";
    }
    assert text[0] == text[..2][0] && text[1] == text[..2][1];
  }

  lemma ContainsLeft(a: string, b: string, needle: string)
    requires Contains(a, needle)
    ensures Contains(a + b, needle)
  {
    var i :| 0 <= i <= |a| - |needle| && At(a, needle, i);
    assert (a + b)[i..i + |needle|] == a[i..i + |needle|];
    assert At(a + b, needle, i);
  }

  lemma ContainsRight(a: string, b: string, needle: string)
    requires Contains(b, needle)
    ensures Contains(a + b, needle)
  {
    var i :| 0 <= i <= |b| - |needle| && At(b, needle, i);
    assert (a + b)[|a| + i..|a| + i + |needle|] == b[i..i + |needle|];
    assert At(a + b, needle, |a| + i);
  }

  /** No needle lies across the place where a line is continued. */
  lemma CutAcross(a: string, b: string, needle: string, i: nat)
    requires Needle(needle) && i < |a| < i + |needle| <= |a| + |b|
    requires b[0] == '=' && (|b| >= 2 ==> b[1] == '=')
    ensures !At(a + b, needle, i)
  {
    NeedleShape(needle);
    var (text, k) := (a + b, |a| - i);
    AtChar(text, needle, i, k);
    AtChar(text, needle, i, 5);
    assert text[i + k] == b[0];
    if k == 4 { assert text[i + 5] == b[1]; }
  }

  lemma FoundInPart(a: string, b: string, needle: string, i: nat)
    requires Needle(needle) && i + |needle| <= |a| + |b| && At(a + b, needle, i)
    requires (|b| >= 1 ==> b[0] == '=') && (|b| >= 2 ==> b[1] == '=')
    ensures Contains(a, needle) || Contains(b, needle)
  {
    var text := a + b;
    if i + |needle| <= |a| {
      assert text[i..i + |needle|] == a[i..i + |needle|];
      assert At(a, needle, i);
    } else if i >= |a| {
      assert text[i..i + |needle|] == b[i - |a|..i - |a| + |needle|];
      assert At(b, needle, i - |a|);
    } else {
      CutAcross(a, b, needle, i);
    }
  }

  lemma NoStraddle(a: string, b: string, needle: string)
    requires Needle(needle) && (|b| >= 1 ==> b[0] == '=') && (|b| >= 2 ==> b[1] == '=')
    ensures Contains(a + b, needle) <==> Contains(a, needle) || Contains(b, needle)
  {
    if Contains(a, needle) { ContainsLeft(a, b, needle); }
    if Contains(b, needle) { ContainsRight(a, b, needle); }
    if Contains(a + b, needle) {
      var i :| 0 <= i <= |a + b| - |needle| && At(a + b, needle, i);
      FoundInPart(a, b, needle, i);
    }
  }

  // ---- what the lines show -------------------------------------------------

  predicate Shows(e: Entry, needle: string) {
    Contains(Kept(e), needle)
  }

  /** Two appends are on one line: no line break between them. */
  ghost predicate Glued(log: seq<Entry>, i: int, j: int) {
    && 0 <= i < |log| && 0 <= j < |log|
    && (forall k | i <= k < j :: !Whole(log[k]))
    && (forall k | j <= k < i :: !Whole(log[k]))
  }

  /** Some append of the line that ends at the end of the log shows it. */
  ghost predicate TailShows(log: seq<Entry>, needle: string) {
    exists k :: Glued(log, k, |log| - 1) && Shows(log[k], needle)
  }

  /** What the log shows for a run: a mark and the run's tag on one line. */
  ghost predicate LogShows(log: seq<Entry>, mark: string, tag: string) {
    exists i, j :: Glued(log, i, j) && Shows(log[i], mark) && Shows(log[j], tag)
  }

  lemma EmptyShowsNothing(needle: string)
    requires Needle(needle)
    ensures !Contains("", needle)
  {
    NeedleShape(needle);
  }

  lemma GluedToLast(log: seq<Entry>, k: nat)
    requires k < |log| - 1
    ensures var n := |log| - 1;
            Glued(log, k, n) <==> !Whole(log[n - 1]) && Glued(log[..n], k, n - 1)
  {
  }

  /** The log as the reader sees it, for one needle. */
  function Hits(log: seq<Entry>, needle: string): (hits: seq<bool>)
    ensures |hits| == |log|
    ensures forall k | 0 <= k < |log| :: hits[k] == Shows(log[k], needle)
  {
    seq(|log|, k requires 0 <= k < |log| => Shows(log[k], needle))
  }

  ghost predicate TailHit(log: seq<Entry>, hits: seq<bool>)
    requires |hits| == |log|
  {
    exists k :: Glued(log, k, |log| - 1) && hits[k]
  }

  lemma TailHitStep(log: seq<Entry>, hits: seq<bool>)
    requires log != [] && |hits| == |log|
    ensures var n := |log| - 1;
            TailHit(log, hits) <==> hits[n] || (n > 0 && !Whole(log[n - 1]) && TailHit(log[..n], hits[..n]))
  {
    var n := |log| - 1;
    assert Glued(log, n, n);
    if n > 0 && !Whole(log[n - 1]) && TailHit(log[..n], hits[..n]) {
      var k :| Glued(log[..n], k, n - 1) && hits[..n][k];
      GluedToLast(log, k);
    }
    if TailHit(log, hits) && !hits[n] {
      var k :| Glued(log, k, n) && hits[k];
      GluedToLast(log, k);
      assert hits[..n][k];
    }
  }

  lemma TailShowsHits(log: seq<Entry>, needle: string)
    ensures TailShows(log, needle) <==> TailHit(log, Hits(log, needle))
  {
    var hits := Hits(log, needle);
    if k :| Glued(log, k, |log| - 1) && Shows(log[k], needle) { assert hits[k]; }
    if k :| Glued(log, k, |log| - 1) && hits[k] { assert Shows(log[k], needle); }
  }

  lemma TailShowsStep(log: seq<Entry>, needle: string)
    requires log != []
    ensures var n := |log| - 1;
            TailShows(log, needle) <==>
            Shows(log[n], needle) || (n > 0 && !Whole(log[n - 1]) && TailShows(log[..n], needle))
  {
    var n := |log| - 1;
    TailShowsHits(log, needle);
    TailShowsHits(log[..n], needle);
    TailHitStep(log, Hits(log, needle));
    assert Hits(log[..n], needle) == Hits(log, needle)[..n];
  }

  /** The line ending in the last append shows what any append on it shows. */
  lemma {:induction false} TailLine(log: seq<Entry>, needle: string)
    requires log != [] && Needle(needle)
    ensures var (front, last) := (log[..|log| - 1], log[|log| - 1]);
            Contains(OpenText(front) + Kept(last), needle) <==> TailShows(log, needle)
  {
    var n := |log| - 1;
    var (front, last) := (log[..n], log[n]);
    KeptShape(last);
    NoStraddle(OpenText(front), Kept(last), needle);
    TailShowsStep(log, needle);
    if n == 0 || Whole(log[n - 1]) {
      EmptyShowsNothing(needle);
    } else {
      TailLine(front, needle);
    }
  }

  lemma GluedInFront(log: seq<Entry>, i: int, j: int)
    requires log != [] && i < |log| - 1 && j < |log| - 1
    ensures Glued(log, i, j) <==> Glued(log[..|log| - 1], i, j)
  {
  }

  /** Two appends on the last line are on one line with each other. */
  lemma GluedTail(log: seq<Entry>, i: int, j: int)
    requires Glued(log, i, |log| - 1) && Glued(log, j, |log| - 1)
    ensures Glued(log, i, j)
  {
  }

  lemma GluedSplits(log: seq<Entry>, mark: string, tag: string)
    requires log != []
    ensures LogShows(log, mark, tag) <==>
            LogShows(log[..|log| - 1], mark, tag) || (TailShows(log, mark) && TailShows(log, tag))
  {
    var n := |log| - 1;
    var front := log[..n];
    if LogShows(front, mark, tag) {
      var i, j :| Glued(front, i, j) && Shows(front[i], mark) && Shows(front[j], tag);
      GluedInFront(log, i, j);
      assert log[i] == front[i] && log[j] == front[j];
    }
    if TailShows(log, mark) && TailShows(log, tag) {
      var i :| Glued(log, i, n) && Shows(log[i], mark);
      var j :| Glued(log, j, n) && Shows(log[j], tag);
      GluedTail(log, i, j);
    }
    if LogShows(log, mark, tag) {
      var i, j :| Glued(log, i, j) && Shows(log[i], mark) && Shows(log[j], tag);
      if i < n && j < n {
        GluedInFront(log, i, j);
        assert log[i] == front[i] && log[j] == front[j];
      } else {
        assert Glued(log, i, n) && Glued(log, j, n);
      }
    }
  }

  lemma AnyOfAppend(lines: seq<string>, last: string, mark: string, tag: string)
    ensures AnyMatches(lines + [last], mark, tag) <==> AnyMatches(lines, mark, tag) || Matches(last, mark, tag)
  {
    var all := lines + [last];
    assert all[|lines|] == last;
    if AnyMatches(lines, mark, tag) {
      var i :| 0 <= i < |lines| && Matches(lines[i], mark, tag);
      assert all[i] == lines[i];
    }
    if AnyMatches(all, mark, tag) {
      var i :| 0 <= i < |all| && Matches(all[i], mark, tag);
      assert i < |lines| ==> all[i] == lines[i];
    }
  }

  lemma AnyOfText(log: seq<Entry>, mark: string, tag: string)
    requires Needle(mark)
    ensures AnyMatches(TextLines(log), mark, tag) <==>
            AnyMatches(ClosedLines(log), mark, tag) || Matches(OpenText(log), mark, tag)
  {
    if OpenText(log) == "" {
      EmptyShowsNothing(mark);
      assert TextLines(log) == ClosedLines(log);
    } else {
      AnyOfAppend(ClosedLines(log), OpenText(log), mark, tag);
    }
  }

  /** One more append: the lines match as before, or its own line does. */
  lemma AnyOfOneMore(log: seq<Entry>, mark: string, tag: string)
    requires log != [] && Needle(mark)
    ensures var (front, last) := (log[..|log| - 1], log[|log| - 1]);
            AnyMatches(TextLines(log), mark, tag) <==>
            AnyMatches(TextLines(front), mark, tag) || Matches(OpenText(front) + Kept(last), mark, tag)
  {
    var (front, last) := (log[..|log| - 1], log[|log| - 1]);
    AnyOfText(log, mark, tag);
    AnyOfText(front, mark, tag);
    var line := OpenText(front) + Kept(last);
    if Matches(OpenText(front), mark, tag) {
      ContainsLeft(OpenText(front), Kept(last), mark);
      ContainsLeft(OpenText(front), Kept(last), tag);
    }
    if Whole(last) {
      EmptyShowsNothing(mark);
      AnyOfAppend(ClosedLines(front), line, mark, tag);
    }
  }

  /** The contract's test on the text of the log, told from the appends: it finds
      a mark for a run exactly when one line holds an append that shows the mark
      and an append that shows the run's tag. */
  lemma {:induction false} TextShowsIff(log: seq<Entry>, mark: string, run: RunId)
    requires mark == MARK_START || mark == MARK_END
    ensures AnyMatches(TextLines(log), mark, Tag(run)) <==> LogShows(log, mark, Tag(run))
  {
    assert Needle(mark) && Needle(Tag(run));
    if log != [] {
      var front := log[..|log| - 1];
      TextShowsIff(front, mark, run);
      AnyOfOneMore(log, mark, Tag(run));
      TailLine(log, mark);
      TailLine(log, Tag(run));
      GluedSplits(log, mark, Tag(run));
    }
  }

  // ---- whose appends show what ---------------------------------------------

  lemma PrefixContains(text: string, k: nat, needle: string)
    requires k <= |text| && Contains(text[..k], needle)
    ensures Contains(text, needle)
  {
    assert text == text[..k] + text[k..];
    ContainsLeft(text[..k], text[k..], needle);
  }

  lemma ShownIsWritten(e: Entry, needle: string)
    requires Shows(e, needle)
    ensures Contains(Render(e.line), needle)
  {
    var text := Render(e.line);
    if e.cut.Some? && e.cut.value < |text| { PrefixContains(text, e.cut.value, needle); }
  }

  /** Only a run's own start, aborted-start or end line shows its tag. */
  lemma TagShownByOwner(e: Entry, run: RunId)
    requires Shows(e, Tag(run))
    ensures !e.line.Note? && e.line.run == run
  {
    ShownIsWritten(e, Tag(run));
    LineTag(e.line, run);
  }

  /** A marker line shows its mark before its tag, so what is kept up to the tag
      shows both. */
  lemma TagShownAfterMark(e: Entry)
    requires !e.line.Note? && Shows(e, Tag(e.line.run))
    ensures e.line.StartLine? || e.line.AbortedLine? ==> Shows(e, MARK_START)
    ensures e.line.EndLine? ==> Shows(e, MARK_END)
  {
    var mark := if e.line.EndLine? then MARK_END else MARK_START;
    var mid := match e.line case StartLine(_, pid, _) => StartDetail(pid)
                            case AbortedLine(_, path, _) => AbortDetail(path)
                            case EndLine(_, code, _) => EndDetail(code);
    HeadPlain(e.line.ts);
    MarksNoBracket();
    MarkBeforeTag(Kept(e), Head(e.line.ts), mark, mid, e.line.run);
  }

  lemma MarkBeforeTag(kept: string, head: string, mark: string, mid: string, run: RunId)
    requires kept <= Stamped(head, mark, mid, run) && Contains(kept, Tag(run))
    requires Without(head, '[') && Without(mark, '[')
    ensures Contains(kept, mark)
  {
    var text := Stamped(head, mark, mid, run);
    var i :| 0 <= i <= |kept| - |Tag(run)| && At(kept, Tag(run), i);
    AtChar(kept, Tag(run), i, 0);
    assert kept[i] == text[i] == '[';
    var front := head + mark;
    assert text[..|front|] == front;
    assert forall j | 0 <= j < |front| :: text[j] == front[j] && front[j] != '[';
    assert i >= |front|;
    assert kept[|head|..|head| + |mark|] == text[|head|..|head| + |mark|] == mark;
    assert At(kept, mark, |head|);
  }

  /** A front of a text shows a needle that occurs once exactly when it reaches
      the needle's end; `c` is the character that pins the occurrence. */
  lemma CutShows(pre: string, before: string, c: char, after: string, post: string, cut: nat)
    requires Without(pre, c) && Without(before, c) && Without(after, c) && Without(post, c)
    requires cut <= |pre| + |before + [c] + after| + |post|
    ensures var needle := before + [c] + after;
            Contains((pre + needle + post)[..cut], needle) <==> cut >= |pre| + |needle|
  {
    var needle := before + [c] + after;
    var text := pre + needle + post;
    var kept := text[..cut];
    if cut >= |pre| + |needle| {
      assert kept[|pre|..|pre| + |needle|] == needle;
      assert At(kept, needle, |pre|);
    }
    if Contains(kept, needle) {
      var i :| 0 <= i <= |kept| - |needle| && At(kept, needle, i);
      AtChar(kept, needle, i, |before|);
      assert text[i + |before|] == needle[|before|] == c;
      OnlyThere(pre, before, c, after, post, i + |before|);
    }
  }

  lemma OnlyThere(pre: string, before: string, c: char, after: string, post: string, k: nat)
    requires Without(pre, c) && Without(before, c) && Without(after, c) && Without(post, c)
    requires k < |pre + (before + [c] + after) + post| && (pre + (before + [c] + after) + post)[k] == c
    ensures k == |pre| + |before|
  {
  }

  /** Where a start line's mark ends, and where its tag does. */
  function MarkEndsAt(ts: string): nat {
    |Head(ts)| + |MARK_START|
  }

  function TagEndsAt(ts: string, pid: string, run: string): nat {
    MarkEndsAt(ts) + |StartDetail(pid)| + |Tag(run)|
  }

  lemma StartMarkHasOneY()
    ensures MARK_START == "nightl" + ['y'] + "-audit start"
    ensures Without("nightl", 'y') && Without("-audit start", 'y')
  {
  }

  lemma StartTailPlain(pid: Plain, run: RunId)
    ensures Without(StartDetail(pid) + Tag(run) + " ====", 'y')
  {
    StartDetailPlain(pid);
    assert Without("[run=", 'y') && Without("]", 'y') && Without(" ====", 'y');
  }

  lemma StampedCutShowsMark(head: string, mark: string, mid: string, run: string,
                            before: string, c: char, after: string, cut: nat)
    requires mark == before + [c] + after && cut <= |Stamped(head, mark, mid, run)|
    requires Without(head, c) && Without(before, c) && Without(after, c) && Without(mid + Tag(run) + " ====", c)
    ensures Contains(Stamped(head, mark, mid, run)[..cut], mark) <==> cut >= |head| + |mark|
  {
    var post := mid + Tag(run) + " ====";
    assert Stamped(head, mark, mid, run) == head + mark + post;
    CutShows(head, before, c, after, post, cut);
  }

  lemma StampedCutShowsTag(head: string, mark: string, mid: string, run: string, cut: nat)
    requires Without(head + mark + mid, '[') && Without(run, '[') && cut <= |Stamped(head, mark, mid, run)|
    ensures Contains(Stamped(head, mark, mid, run)[..cut], Tag(run)) <==> cut >= |head + mark + mid| + |Tag(run)|
  {
    var after := "run=" + run + "]";
    assert Without("run=", '[') && Without("]", '[') && Without(" ====", '[');
    assert Tag(run) == "" + ['['] + after;
    CutShows(head + mark + mid, "", '[', after, " ====", cut);
  }

  lemma StartCutShowsMark(ts: Plain, pid: Plain, run: RunId, cut: nat)
    requires cut <= |Render(StartLine(ts, pid, run))|
    ensures Contains(Render(StartLine(ts, pid, run))[..cut], MARK_START) <==> cut >= MarkEndsAt(ts)
  {
    HeadPlain(ts);
    StartTailPlain(pid, run);
    StartMarkHasOneY();
    StampedCutShowsMark(Head(ts), MARK_START, StartDetail(pid), run, "nightl", 'y', "-audit start", cut);
  }

  lemma StartCutShowsTag(ts: Plain, pid: Plain, run: RunId, cut: nat)
    requires cut <= |Render(StartLine(ts, pid, run))|
    ensures Contains(Render(StartLine(ts, pid, run))[..cut], Tag(run)) <==> cut >= TagEndsAt(ts, pid, run)
  {
    HeadPlain(ts);
    MarksNoBracket();
    StartDetailPlain(pid);
    StampedCutShowsTag(Head(ts), MARK_START, StartDetail(pid), run, cut);
  }

  /** A torn start line shows its mark and not its tag exactly when it was cut at
      or after the end of the one and before the end of the other. */
  lemma TornBetweenIff(ts: Plain, pid: Plain, run: RunId, cut: nat)
    ensures var torn := Entry(StartLine(ts, pid, run), Some(cut));
            Shows(torn, MARK_START) && !Shows(torn, Tag(run)) <==> MarkEndsAt(ts) <= cut < TagEndsAt(ts, pid, run)
  {
    var text := Render(StartLine(ts, pid, run));
    var k := if cut >= |text| then |text| else cut;
    assert text[..|text|] == text;
    StartCutShowsMark(ts, pid, run, k);
    StartCutShowsTag(ts, pid, run, k);
    assert |text| >= TagEndsAt(ts, pid, run);
  }
}
