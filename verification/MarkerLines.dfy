/** The lines of the marker log, their text, and the completion contract that is
    re-read from that text.  The log is shared by every night, so the contract
    looks for lines that carry the run's own bracketed tag. */
module MarkerLines {

  const MARK_START := "nightly-audit start"
  const MARK_END := "nightly-audit end"
  const ABORTED := " ABORTED \U{2014} another nightly"
  const HOLDS_LOCK := " run holds the lock ("

  /** The Python substring test `needle in text`. */
  predicate Contains(text: string, needle: string) {
    exists i :: 0 <= i <= |text| - |needle| && At(text, needle, i)
  }

  predicate At(text: string, needle: string, i: int)
    requires 0 <= i <= |text| - |needle|
  {
    text[i..i + |needle|] == needle
  }

  predicate Without(text: string, c: char) {
    c !in text
  }

  /** Run ids are made of a date, a process id and hex digits; time stamps, pids
      and exit codes of digits and punctuation.  None has a bracket, a 'y' or an
      equals sign. */
  predicate IsPlain(s: string) {
    Without(s, '[') && Without(s, ']') && Without(s, 'y') && Without(s, '=')
  }

  type Plain = s: string | IsPlain(s)
  type RunId = Plain
  /** A lock path: any text with no opening bracket. */
  type PathText = s: string | Without(s, '[')
  /** Narration and heartbeats: any text between equals signs that does not
      quote a run tag. */
  type NoteText = s: string | "==" <= s && !Contains(s, "[run=") witness "=="

  datatype Line =
    | StartLine(ts: Plain, pid: Plain, run: RunId)
    | AbortedLine(ts: Plain, path: PathText, run: RunId)
    | EndLine(ts: Plain, code: Plain, run: RunId)
    | Note(text: NoteText)

  function Tag(run: string): string {
    "[run=" + run + "]"
  }

  /** The shape of a tagged marker line. */
  function Stamped(head: string, mark: string, mid: string, run: string): string {
    head + mark + mid + Tag(run) + " ===="
  }

  function Head(ts: string): string { "==== " + ts + " " }
  function StartDetail(pid: string): string { " (runner v1, PID " + pid + ") " }
  function AbortDetail(path: string): string { ABORTED + HOLDS_LOCK + path + ") " }
  function EndDetail(code: string): string { " (exit " + code + ") " }

  function Render(line: Line): string {
    match line
    case StartLine(ts, pid, run) => Stamped(Head(ts), MARK_START, StartDetail(pid), run)
    case AbortedLine(ts, path, run) => Stamped(Head(ts), MARK_START, AbortDetail(path), run)
    case EndLine(ts, code, run) => Stamped(Head(ts), MARK_END, EndDetail(code), run)
    case Note(text) => text
  }

  /** The contract's test on one line of the log. */
  predicate Matches(text: string, mark: string, tag: string) {
    Contains(text, mark) && Contains(text, tag)
  }

  // ---- tags ----------------------------------------------------------------

  /** A bracketed tag is only found in a line stamped with the same run: the
      brackets rule out one id being a prefix of another. */
  lemma TagPinsRun(pre: string, run: RunId, post: string, other: RunId)
    requires Without(pre, '[') && Without(post, '[')
    ensures Contains(pre + Tag(run) + post, Tag(other)) <==> other == run
  {
    var text := pre + Tag(run) + post;
    assert text[|pre|..|pre| + |Tag(run)|] == Tag(run);
    assert At(text, Tag(run), |pre|);
    if Contains(text, Tag(other)) {
      var i :| 0 <= i <= |text| - |Tag(other)| && At(text, Tag(other), i);
      assert text[i..i + |Tag(other)|][0] == '[';
      assert text[i] == '[';
      assert i == |pre|;
      TagsAgree(text, i, run, other);
    }
  }

  lemma AtChar(text: string, needle: string, i: nat, k: nat)
    requires i + |needle| <= |text| && k < |needle|
    ensures At(text, needle, i) ==> text[i + k] == needle[k]
  {
    assert text[i..i + |needle|][k] == text[i + k];
  }

  lemma PlainChar(run: RunId, k: nat)
    requires k < |run|
    ensures run[k] != ']'
  {
  }

  lemma TagsAgree(text: string, i: nat, a: RunId, b: RunId)
    requires i + |Tag(a)| <= |text| && i + |Tag(b)| <= |text|
    requires At(text, Tag(a), i) && At(text, Tag(b), i)
    ensures a == b
  {
    TagChars(text, i, a);
    TagChars(text, i, b);
    if |a| < |b| {
      PlainChar(b, |a|);
    } else if |b| < |a| {
      PlainChar(a, |b|);
    } else {
      forall k | 0 <= k < |a| ensures a[k] == b[k] {
        assert text[i + 5 + k] == a[k];
      }
    }
  }

  lemma TagChars(text: string, i: nat, run: RunId)
    requires i + |Tag(run)| <= |text| && At(text, Tag(run), i)
    ensures forall k | 0 <= k < |run| :: text[i + 5 + k] == run[k]
    ensures text[i + 5 + |run|] == ']'
  {
    forall k | 0 <= k < |run| ensures text[i + 5 + k] == run[k] {
      AtChar(text, Tag(run), i, 5 + k);
    }
    AtChar(text, Tag(run), i, 5 + |run|);
  }

  lemma NoteHasNoTag(text: NoteText, run: RunId)
    ensures !Contains(text, Tag(run))
  {
    if Contains(text, Tag(run)) {
      var i :| 0 <= i <= |text| - |Tag(run)| && At(text, Tag(run), i);
      assert text[i..i + |Tag(run)|][..5] == text[i..i + 5];
      assert At(text, "[run=", i);
    }
  }

  // ---- marks ---------------------------------------------------------------

  /** The 'y' of "nightly" fixes where a mark can sit in a line with one 'y'. */
  lemma WrongMarkAt(pre: string, mark: string, post: string, other: string, i: nat)
    requires Without(pre, 'y') && Without(post, 'y')
    requires (mark == MARK_START && other == MARK_END) || (mark == MARK_END && other == MARK_START)
    requires i + |other| <= |pre + mark + post|
    ensures !At(pre + mark + post, other, i)
  {
    var text := pre + mark + post;
    AtChar(text, other, i, 6);
    AtChar(text, other, i, 14);
    if i == |pre| {
      assert text[i + 14] == mark[14];
    } else {
      assert text[i + 6] != 'y';
    }
  }

  lemma WrongMark(pre: string, mark: string, post: string, other: string)
    requires Without(pre, 'y') && Without(post, 'y')
    requires (mark == MARK_START && other == MARK_END) || (mark == MARK_END && other == MARK_START)
    ensures !Contains(pre + mark + post, other)
  {
    var text := pre + mark + post;
    forall i | 0 <= i <= |text| - |other| ensures !At(text, other, i) {
      WrongMarkAt(pre, mark, post, other, i);
    }
  }

  lemma HasMark(pre: string, mark: string, post: string)
    ensures Contains(pre + mark + post, mark)
  {
    assert At(pre + mark + post, mark, |pre|);
  }

  lemma StampedTag(head: string, mark: string, mid: string, own: RunId, run: RunId)
    requires Without(head, '[') && Without(mark, '[') && Without(mid, '[')
    ensures Contains(Stamped(head, mark, mid, own), Tag(run)) <==> run == own
  {
    assert Without(head + mark + mid, '[');
    assert Without(" ====", '[');
    TagPinsRun(head + mark + mid, own, " ====", run);
  }

  lemma StampedMark(head: string, mark: string, mid: string, own: RunId)
    ensures Contains(Stamped(head, mark, mid, own), mark)
  {
    HasMark(head, mark, mid + Tag(own) + " ====");
    assert Stamped(head, mark, mid, own) == head + mark + (mid + Tag(own) + " ====");
  }

  lemma StampedOtherMark(head: string, mark: string, mid: string, own: RunId, other: string)
    requires Without(head, 'y') && Without(mid, 'y')
    requires (mark == MARK_START && other == MARK_END) || (mark == MARK_END && other == MARK_START)
    ensures !Contains(Stamped(head, mark, mid, own), other)
  {
    var tail := mid + Tag(own) + " ====";
    assert Without("[run=", 'y') && Without("]", 'y') && Without(" ====", 'y');
    WrongMark(head, mark, tail, other);
    assert Stamped(head, mark, mid, own) == head + mark + tail;
  }

  lemma HeadPlain(ts: Plain)
    ensures Without(Head(ts), '[') && Without(Head(ts), 'y')
  {
    assert Without("==== ", '[') && Without("==== ", 'y') && Without(" ", '[') && Without(" ", 'y');
  }

  lemma StartDetailPlain(pid: Plain)
    ensures Without(StartDetail(pid), '[') && Without(StartDetail(pid), 'y')
  {
    assert IsPlain(" (runner v1, PID ") && IsPlain(") ");
  }

  lemma AbortDetailNoBracket(path: PathText)
    ensures Without(AbortDetail(path), '[')
  {
    assert Without(ABORTED, '[');
    assert Without(HOLDS_LOCK, '[');
    assert Without(") ", '[');
  }

  lemma EndDetailPlain(code: Plain)
    ensures Without(EndDetail(code), '[') && Without(EndDetail(code), 'y')
  {
    assert IsPlain(" (exit ") && IsPlain(") ");
  }

  lemma MarksNoBracket()
    ensures Without(MARK_START, '[') && Without(MARK_END, '[')
  {
    assert Without(MARK_START, '[');
    assert Without(MARK_END, '[');
  }

  /** A line carries the tag of the run that wrote it, and no other. */
  lemma LineTag(line: Line, run: RunId)
    ensures Contains(Render(line), Tag(run)) <==> !line.Note? && line.run == run
  {
    MarksNoBracket();
    match line
    case StartLine(ts, pid, own) =>
      HeadPlain(ts);
      StartDetailPlain(pid);
      StampedTag(Head(ts), MARK_START, StartDetail(pid), own, run);
    case AbortedLine(ts, path, own) =>
      HeadPlain(ts);
      AbortDetailNoBracket(path);
      StampedTag(Head(ts), MARK_START, AbortDetail(path), own, run);
    case EndLine(ts, code, own) =>
      HeadPlain(ts);
      EndDetailPlain(code);
      StampedTag(Head(ts), MARK_END, EndDetail(code), own, run);
    case Note(text) => NoteHasNoTag(text, run);
  }

  /** A line counts as a start of `run` exactly when it is a start, or an
      aborted start, of that very run. */
  lemma StartMatch(line: Line, run: RunId)
    ensures Matches(Render(line), MARK_START, Tag(run)) <==>
            (line.StartLine? || line.AbortedLine?) && line.run == run
  {
    MarksNoBracket();
    match line
    case StartLine(ts, pid, own) =>
      HeadPlain(ts);
      StartDetailPlain(pid);
      StampedTag(Head(ts), MARK_START, StartDetail(pid), own, run);
      StampedMark(Head(ts), MARK_START, StartDetail(pid), own);
    case AbortedLine(ts, path, own) =>
      HeadPlain(ts);
      AbortDetailNoBracket(path);
      StampedTag(Head(ts), MARK_START, AbortDetail(path), own, run);
      StampedMark(Head(ts), MARK_START, AbortDetail(path), own);
    case EndLine(ts, code, own) =>
      HeadPlain(ts);
      EndDetailPlain(code);
      StampedOtherMark(Head(ts), MARK_END, EndDetail(code), own, MARK_START);
    case Note(text) => NoteHasNoTag(text, run);
  }

  /** A line counts as an end of `run` exactly when it is that run's end line.
      (A run that aborted quotes a path, and never evaluates a contract.) */
  lemma EndMatch(line: Line, run: RunId)
    requires line.AbortedLine? ==> line.run != run
    ensures Matches(Render(line), MARK_END, Tag(run)) <==> line.EndLine? && line.run == run
  {
    MarksNoBracket();
    match line
    case StartLine(ts, pid, own) =>
      HeadPlain(ts);
      StartDetailPlain(pid);
      StampedOtherMark(Head(ts), MARK_START, StartDetail(pid), own, MARK_END);
    case AbortedLine(ts, path, own) =>
      HeadPlain(ts);
      AbortDetailNoBracket(path);
      StampedTag(Head(ts), MARK_START, AbortDetail(path), own, run);
    case EndLine(ts, code, own) =>
      HeadPlain(ts);
      EndDetailPlain(code);
      StampedTag(Head(ts), MARK_END, EndDetail(code), own, run);
      StampedMark(Head(ts), MARK_END, EndDetail(code), own);
    case Note(text) => NoteHasNoTag(text, run);
  }

  // ---- the completion contract ---------------------------------------------

  datatype Artifact = StartMarker | Transcript | Report | Manifest | EndMarker | ChildExit

  datatype Evidence = Evidence(
    manifestExists: bool, reportOk: bool, transcriptPresent: bool, exitCode: int, timedOut: bool)

  datatype Status = Met | Partial | Failed

  datatype Contract = Contract(status: Status, startPresent: bool, endPresent: bool, missing: seq<Artifact>)

  predicate Blank(s: string) {
    forall i | 0 <= i < |s| :: s[i] in {' ', '\t', '\n', '\r'}
  }

  predicate AnyMatches(lines: seq<string>, mark: string, tag: string) {
    exists i :: 0 <= i < |lines| && Matches(lines[i], mark, tag)
  }

  predicate ChildOk(e: Evidence) {
    e.exitCode == 0 && !e.timedOut
  }

  function Missing(absent: bool, a: Artifact): seq<Artifact> {
    if absent then [a] else []
  }

  function MissingList(startPresent: bool, endPresent: bool, e: Evidence): seq<Artifact> {
    Missing(!startPresent, StartMarker) + Missing(!e.transcriptPresent, Transcript)
    + Missing(!e.reportOk, Report) + Missing(!e.manifestExists, Manifest)
    + Missing(!endPresent, EndMarker) + Missing(!ChildOk(e), ChildExit)
  }

  datatype ContractResult = Evaluated(contract: Contract) | ValueError

  /** An empty or blank tag would match every night's lines, so it is refused. */
  function EvaluateContract(lines: seq<string>, tag: string, e: Evidence): ContractResult {
    if Blank(tag) then ValueError
    else
      var startPresent := AnyMatches(lines, MARK_START, tag);
      var endPresent := AnyMatches(lines, MARK_END, tag);
      var missing := MissingList(startPresent, endPresent, e);
      var status := if missing == [] then Met else if ChildOk(e) && startPresent then Partial else Failed;
      Evaluated(Contract(status, startPresent, endPresent, missing))
  }

  predicate Present(lines: seq<string>, tag: string, e: Evidence, a: Artifact) {
    match a
    case StartMarker => AnyMatches(lines, MARK_START, tag)
    case Transcript => e.transcriptPresent
    case Report => e.reportOk
    case Manifest => e.manifestExists
    case EndMarker => AnyMatches(lines, MARK_END, tag)
    case ChildExit => e.exitCode == 0 && !e.timedOut
  }

  predicate Listed(startPresent: bool, endPresent: bool, e: Evidence, a: Artifact) {
    match a
    case StartMarker => !startPresent
    case Transcript => !e.transcriptPresent
    case Report => !e.reportOk
    case Manifest => !e.manifestExists
    case EndMarker => !endPresent
    case ChildExit => e.exitCode != 0 || e.timedOut
  }

  lemma MissingListNames(s: bool, t: bool, e: Evidence, a: Artifact)
    ensures a in MissingList(s, t, e) <==> Listed(s, t, e, a)
  {
    assert forall absent, b :: a in Missing(absent, b) <==> absent && a == b;
  }

  /** The missing list names exactly the absent artifact classes. */
  lemma MissingListExact(lines: seq<string>, tag: string, e: Evidence, a: Artifact)
    requires EvaluateContract(lines, tag, e).Evaluated?
    ensures a in EvaluateContract(lines, tag, e).contract.missing <==> !Present(lines, tag, e, a)
  {
    MissingListNames(AnyMatches(lines, MARK_START, tag), AnyMatches(lines, MARK_END, tag), e, a);
  }

  /** The contract is met exactly when all six artifacts are present, and it is
      partial exactly when the child ran clean after a start marker but
      something did not land. */
  lemma ContractMeaning(lines: seq<string>, tag: string, e: Evidence)
    requires EvaluateContract(lines, tag, e).Evaluated?
    ensures var c := EvaluateContract(lines, tag, e).contract;
            && (c.status.Met? <==> forall a: Artifact :: Present(lines, tag, e, a))
            && (c.status.Partial? <==>
                  Present(lines, tag, e, ChildExit) && Present(lines, tag, e, StartMarker)
                  && exists a: Artifact :: !Present(lines, tag, e, a))
  {
    var missing := EvaluateContract(lines, tag, e).contract.missing;
    if missing == [] {
      forall a: Artifact ensures Present(lines, tag, e, a) { MissingListExact(lines, tag, e, a); }
    } else {
      MissingListExact(lines, tag, e, missing[0]);
      assert missing[0] in missing;
    }
  }
}
