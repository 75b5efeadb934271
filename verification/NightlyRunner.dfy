/** Nightly runs over time: a lock file with stale-owner reclaim, rotation of the
    shared marker log, marker lines, and the completion contract re-read from
    that log.  Runs may overlap, crash at any point and reclaim each other's
    locks; reads, unlinks, renames and appends may fail, and an append may leave
    only the front of its line.

    Two groups of system calls are taken as one action each: the exclusive create
    of the lock file with the write of the owner into it, and the read, check
    and unlink of a lock.  Module LockWindow splits the first. */
module NightlyRunner {
  import opened Common
  import opened MarkerLines
  import opened MarkerLog
  import opened MarkerRotation

  /** A process is known by its run id, which no other process reuses. */
  type Pid = RunId

  datatype Phase =
    | Launched(attempt: nat)
    | Colliding(attempt: nat)
    | Aborting
    | Holding
    | Swept
    | Started
    | Ran
    | Ended
    | Judged
    | Pinged
    | Gone
  {
    /** The process believes it holds the lock. */
    predicate Holds() {
      Holding? || Swept? || Started? || Ran? || Ended? || Judged? || Pinged?
    }

    predicate BeforeStart() {
      Launched? || Colliding? || Aborting? || Holding? || Swept?
    }

    predicate BeforeEnd() {
      BeforeStart() || Started? || Ran?
    }

    /** Past this run's own rotation of the log. */
    predicate AfterSweep() {
      Holds() && !Holding?
    }
  }

  datatype Ping = NoPing | Up | Down

  type Log = seq<Entry>

  /** `readable` records whether the log could be read back, `log` what was in it. */
  datatype Judgement = Judgement(readable: bool, log: Log, result: ContractResult)

  datatype Run = Run(
    phase: Phase,
    startLanded: bool,           // this run's start line reached the live log up to its tag
    endLanded: bool,
    evidence: Option<Evidence>,
    judgement: Option<Judgement>,
    ping: Ping)

  datatype State = State(
    lockFile: Option<Pid>,
    alive: set<Pid>,
    runs: map<Pid, Run>,
    files: Files<Log>)

  const INIT := State(None, {}, map[], map[])

  /** `cut` is what is left of an append; see MarkerLog. */
  datatype Step =
    | Launch(p: Pid)
    | TryCreate(p: Pid)
    | Reclaim(p: Pid, readOk: bool, unlinkOk: bool)
    | Abort(p: Pid, ts: Plain, path: PathText, cut: Option<nat>)
    | Sweep(p: Pid, oversize: bool, keepSetting: int, disk: Disk)
    | EmitStart(p: Pid, ts: Plain, pidText: Plain, cut: Option<nat>)
    | Narrate(p: Pid, text: NoteText, cut: Option<nat>)
    | Finish(p: Pid, evidence: Evidence)
    | EmitEnd(p: Pid, ts: Plain, code: Plain, cut: Option<nat>)
    | Judge(p: Pid, readable: bool, raises: bool)
    | SendPing(p: Pid, urlSet: bool)
    | Release(p: Pid, readOk: bool, unlinkOk: bool)
    | Crash(p: Pid)

  predicate Enabled(s: State, step: Step) {
    if step.Launch? then step.p !in s.runs
    else
      step.p in s.alive && step.p in s.runs &&
      var phase := s.runs[step.p].phase;
      match step
      case TryCreate(_) => phase.Launched?
      case Reclaim(_, _, _) => phase.Colliding?
      case Abort(_, _, _, _) => phase.Aborting?
      case Sweep(_, _, _, _) => phase.Holding?
      case EmitStart(_, _, _, _) => phase.Swept?
      case Narrate(_, _, _) => phase.AfterSweep()
      case Finish(_, _) => phase.Started?
      case EmitEnd(_, _, _, _) => phase.Ran?
      case Judge(_, _, _) => phase.Ended? && s.runs[step.p].evidence.Some?
      case SendPing(_, _) => phase.Judged?
      case Release(_, _, _) => phase.Pinged?
      case _ => true
  }

  function Append(files: Files<Log>, e: Entry): Files<Log> {
    files[0 := LiveLog(files) + [e]]
  }

  function LiveLog(files: Files<Log>): Log {
    if 0 in files then files[0] else []
  }

  function Judgment(s: State, p: Pid, readable: bool, raises: bool): Judgement
    requires p in s.runs && s.runs[p].evidence.Some?
  {
    var log := LiveLog(s.files);
    if raises then Judgement(readable, log, ValueError)
    else
      var lines := if readable then TextLines(log) else [];
      Judgement(readable, log, EvaluateContract(lines, Tag(p), s.runs[p].evidence.value))
  }

  predicate MetContract(j: Judgement) {
    j.result.Evaluated? && j.result.contract.status.Met?
  }

  /** UP only for a met contract; a failed or raising evaluation pings DOWN. */
  function PingFor(j: Judgement, urlSet: bool): Ping {
    if !urlSet then NoPing
    else if MetContract(j) then Up
    else Down
  }

  /** Whether a reclaim goes ahead: a lock that is not there cannot be unlinked;
      one that cannot be read is taken for stale, and so is a dead owner's. */
  predicate Reclaims(s: State, readOk: bool, unlinkOk: bool) {
    s.lockFile.Some? && (!readOk || s.lockFile.value !in s.alive) && unlinkOk
  }

  function Next(s: State, step: Step): State
    requires Enabled(s, step)
  {
    var p := step.p;
    if step.Launch? then
      s.(alive := s.alive + {p}, runs := s.runs[p := Run(Launched(0), false, false, None, None, NoPing)])
    else
      var r := s.runs[p];
      match step
      case TryCreate(_) =>
        if s.lockFile.None? then s.(lockFile := Some(p), runs := s.runs[p := r.(phase := Holding)])
        else s.(runs := s.runs[p := r.(phase := Colliding(r.phase.attempt))])
      case Reclaim(_, readOk, unlinkOk) =>
        if Reclaims(s, readOk, unlinkOk) then
          s.(lockFile := None,
             runs := s.runs[p := r.(phase := if r.phase.attempt == 0 then Launched(1) else Aborting)])
        else s.(runs := s.runs[p := r.(phase := Aborting)])
      case Abort(_, ts, path, cut) =>
        s.(runs := s.runs[p := r.(phase := Gone)], files := Append(s.files, Entry(AbortedLine(ts, path, p), cut)))
      case Sweep(_, oversize, keepSetting, disk) =>
        s.(runs := s.runs[p := r.(phase := Swept)],
           files := if oversize && 0 in s.files then AfterRotation(s.files, Keep(keepSetting), disk) else s.files)
      case EmitStart(_, ts, pidText, cut) =>
        var e := Entry(StartLine(ts, pidText, p), cut);
        s.(runs := s.runs[p := r.(phase := Started, startLanded := Shows(e, Tag(p)))], files := Append(s.files, e))
      case Narrate(_, text, cut) =>
        s.(files := Append(s.files, Entry(Note(text), cut)))
      case Finish(_, evidence) =>
        s.(runs := s.runs[p := r.(phase := Ran, evidence := Some(evidence))])
      case EmitEnd(_, ts, code, cut) =>
        var e := Entry(EndLine(ts, code, p), cut);
        s.(runs := s.runs[p := r.(phase := Ended, endLanded := Shows(e, Tag(p)))], files := Append(s.files, e))
      case Judge(_, readable, raises) =>
        s.(runs := s.runs[p := r.(phase := Judged, judgement := Some(Judgment(s, p, readable, raises)))])
      case SendPing(_, urlSet) =>
        s.(runs := s.runs[p := r.(phase := Pinged,
             ping := if r.judgement.Some? then PingFor(r.judgement.value, urlSet) else NoPing)])
      case Release(_, readOk, unlinkOk) =>
        // a holder that cannot read the lock file takes it for its own
        var mine := s.lockFile == Some(p) || !readOk;
        s.(runs := s.runs[p := r.(phase := Gone)], lockFile := if mine && unlinkOk then None else s.lockFile)
      case Crash(_) => s.(alive := s.alive - {p})
  }

  predicate Runs(s: State, steps: seq<Step>, t: State)
    decreases |steps|
  {
    if steps == [] then s == t
    else Enabled(s, steps[0]) && Runs(Next(s, steps[0]), steps[1..], t)
  }

  /** A live process that believes it holds the lock. */
  predicate LiveHolder(s: State, p: Pid) {
    p in s.alive && p in s.runs && s.runs[p].phase.Holds()
  }

  /** A reclaim that fails to read the lock of a live holder, and removes it. */
  predicate Seizes(s: State, step: Step) {
    step.Reclaim? && Reclaims(s, step.readOk, step.unlinkOk) && LiveHolder(s, s.lockFile.value)
  }

  /** An execution none of whose reclaims does. */
  predicate CleanRuns(s: State, steps: seq<Step>, t: State)
    decreases |steps|
  {
    if steps == [] then s == t
    else Enabled(s, steps[0]) && !Seizes(s, steps[0]) && CleanRuns(Next(s, steps[0]), steps[1..], t)
  }

  lemma {:induction false} CleanRunsAreRuns(s: State, steps: seq<Step>, t: State)
    requires CleanRuns(s, steps, t)
    ensures Runs(s, steps, t)
    decreases |steps|
  {
    if steps != [] { CleanRunsAreRuns(Next(s, steps[0]), steps[1..], t); }
  }

  // ---- the lock ------------------------------------------------------------

  ghost predicate LockInv(s: State) {
    && s.alive <= s.runs.Keys
    && (forall p | LiveHolder(s, p) :: s.lockFile == Some(p))
  }

  lemma StepKeepsLock(s: State, step: Step)
    requires LockInv(s) && Enabled(s, step) && !Seizes(s, step)
    ensures LockInv(Next(s, step))
  {
    var t := Next(s, step);
    forall p | LiveHolder(t, p) ensures t.lockFile == Some(p) {
      assert p != step.p ==> LiveHolder(s, p);
      assert step.Release? ==> LiveHolder(s, step.p);
    }
  }

  /** While a live process holds the lock, nobody else sweeps the log. */
  lemma SweepIsExclusive(s: State, step: Step, p: Pid)
    requires LockInv(s) && Enabled(s, step) && step.Sweep?
    requires LiveHolder(s, p)
    ensures p == step.p && s.lockFile == Some(p)
  {
    assert LiveHolder(s, step.p);
  }

  lemma {:induction false} CleanRunKeepsLock(s: State, steps: seq<Step>, t: State)
    requires LockInv(s) && CleanRuns(s, steps, t)
    ensures LockInv(t)
    decreases |steps|
  {
    if steps != [] {
      StepKeepsLock(s, steps[0]);
      CleanRunKeepsLock(Next(s, steps[0]), steps[1..], t);
    }
  }

  /** Unless a reclaim seizes the lock of a live holder, at most one live process
      holds it, whatever has crashed and been reclaimed, and only that process
      can rotate the log. */
  lemma OneHolder(steps: seq<Step>, s: State)
    requires CleanRuns(INIT, steps, s)
    ensures forall p, q | LiveHolder(s, p) && LiveHolder(s, q) :: p == q
    ensures forall step, q | Enabled(s, step) && step.Sweep? && LiveHolder(s, q) ::
              q == step.p && s.lockFile == Some(q)
  {
    CleanRunKeepsLock(INIT, steps, s);
    forall step, q | Enabled(s, step) && step.Sweep? && LiveHolder(s, q)
      ensures q == step.p && s.lockFile == Some(q)
    {
      SweepIsExclusive(s, step, q);
    }
  }

  /** And only then: such a reclaim can always be followed by two live holders,
      the one that was robbed and any newcomer. */
  lemma SeizingAdmitsTwoHolders(s: State, seize: Step, newcomer: Pid) returns (t: State)
    requires s.alive <= s.runs.Keys && Enabled(s, seize) && Seizes(s, seize) && newcomer !in s.runs
    ensures var robbed := s.lockFile.value;
            && Runs(s, [seize, Launch(newcomer), TryCreate(newcomer)], t)
            && robbed != newcomer && LiveHolder(t, robbed) && LiveHolder(t, newcomer)
  {
    var s1 := Next(s, seize);
    var s2 := Next(s1, Launch(newcomer));
    t := Next(s2, TryCreate(newcomer));
    var steps := [seize, Launch(newcomer), TryCreate(newcomer)];
    assert steps[1..] == [Launch(newcomer), TryCreate(newcomer)] && steps[1..][1..] == [TryCreate(newcomer)];
    assert [TryCreate(newcomer)][1..] == [];
    assert Runs(s2, steps[1..][1..], t);
    assert Runs(s1, steps[1..], t);
  }

  /** A holder that crashes keeps nobody out for good: its lock stays, and the
      next process to start reclaims and takes it. */
  lemma CrashIsReclaimed(s: State, p: Pid, next: Pid) returns (t: State)
    requires LockInv(s) && LiveHolder(s, p) && next !in s.runs
    ensures p != next && Next(s, Crash(p)).lockFile == Some(p)
    ensures CleanRuns(s, [Crash(p), Launch(next), TryCreate(next), Reclaim(next, true, true), TryCreate(next)], t)
    ensures LiveHolder(t, next) && !LiveHolder(t, p) && t.lockFile == Some(next)
  {
    var s1 := Next(s, Crash(p));
    var s2 := Next(s1, Launch(next));
    var s3 := Next(s2, TryCreate(next));
    var s4 := Next(s3, Reclaim(next, true, true));
    t := Next(s4, TryCreate(next));
    var rest := [Launch(next), TryCreate(next), Reclaim(next, true, true), TryCreate(next)];
    assert ([Crash(p)] + rest)[1..] == rest && rest[1..][1..] == [Reclaim(next, true, true), TryCreate(next)];
    assert rest[1..] == [TryCreate(next)] + [Reclaim(next, true, true), TryCreate(next)];
    assert [Reclaim(next, true, true), TryCreate(next)][1..] == [TryCreate(next)] && [TryCreate(next)][1..] == [];
    assert CleanRuns(s4, [TryCreate(next)], t);
    assert CleanRuns(s3, [Reclaim(next, true, true), TryCreate(next)], t);
    assert CleanRuns(s2, rest[1..], t);
    assert CleanRuns(s1, rest, t);
    assert [Crash(p)] + rest == [Crash(p), Launch(next), TryCreate(next), Reclaim(next, true, true), TryCreate(next)];
  }

  // ---- the lines of a run --------------------------------------------------

  /** An append that shows a run's tag was made by that run. */
  ghost predicate EntryOk(s: State, e: Entry) {
    match e.line
    case StartLine(_, _, run) => Shows(e, Tag(run)) ==> run in s.runs && s.runs[run].startLanded
    case AbortedLine(_, _, run) => Shows(e, Tag(run)) ==> run in s.runs && s.runs[run].phase.Gone?
    case EndLine(_, _, run) => Shows(e, Tag(run)) ==> run in s.runs && s.runs[run].endLanded
    case Note(_) => true
  }

  ghost predicate HasStart(log: Log, p: Pid) {
    exists e :: e in log && e.line.StartLine? && e.line.run == p && Shows(e, Tag(p))
  }

  ghost predicate HasEnd(log: Log, p: Pid) {
    exists e :: e in log && e.line.EndLine? && e.line.run == p && Shows(e, Tag(p))
  }

  /** The front of some start line, torn before its own tag, is on one line with
      this run's end line: together they read as a start of this run. */
  ghost predicate BorrowsStart(log: Log, p: Pid) {
    exists i, j :: Glued(log, i, j) && Shows(log[i], MARK_START)
                   && log[j].line.EndLine? && log[j].line.run == p && Shows(log[j], Tag(p))
  }

  ghost predicate BorrowsEnd(log: Log, p: Pid) {
    exists i, j :: Glued(log, i, j) && Shows(log[i], MARK_END)
                   && log[j].line.StartLine? && log[j].line.run == p && Shows(log[j], Tag(p))
  }

  /** The record that the contract is asked to be true to. */
  ghost predicate Faithful(r: Run, p: Pid)
    requires r.judgement.Some?
  {
    var log := r.judgement.value.log;
    && (LogShows(log, MARK_START, Tag(p)) ==> r.startLanded || BorrowsStart(log, p))
    && (LogShows(log, MARK_END, Tag(p)) ==> r.endLanded || BorrowsEnd(log, p))
  }

  /** What a contract evaluation may say. */
  ghost predicate JudgedOk(r: Run, p: Pid)
    requires r.judgement.Some?
  {
    r.evidence.Some? &&
    var j := r.judgement.value;
    j.result.Evaluated? ==>
      && (j.result.contract.startPresent <==> j.readable && LogShows(j.log, MARK_START, Tag(p)))
      && (j.result.contract.endPresent <==> j.readable && LogShows(j.log, MARK_END, Tag(p)))
      && (j.result.contract.status.Met? <==>
            && j.result.contract.startPresent && j.result.contract.endPresent
            && r.evidence.value.manifestExists && r.evidence.value.reportOk
            && r.evidence.value.transcriptPresent && ChildOk(r.evidence.value))
  }

  /** A run's own record: nothing landed before its phase, no verdict before
      the judgement, no ping that the judgement does not bear out. */
  ghost predicate RecordInv(r: Run, p: Pid) {
    && (r.phase.BeforeStart() ==> !r.startLanded)
    && (r.phase.BeforeEnd() ==> !r.endLanded)
    && (r.judgement.Some? ==> JudgedOk(r, p) && Faithful(r, p))
    && (r.judgement.Some? ==> r.phase.Judged? || r.phase.Pinged? || r.phase.Gone?)
    && (r.ping.Up? ==> r.judgement.Some? && MetContract(r.judgement.value))
    && (r.ping.Down? ==> r.judgement.Some? && !MetContract(r.judgement.value))
  }

  /** Kept by every execution, seized locks or not. */
  ghost predicate Inv(s: State) {
    && (forall e | e in LiveLog(s.files) :: EntryOk(s, e))
    && (forall p | p in s.runs :: RecordInv(s.runs[p], p))
  }

  /** The live log after an action is the old one, the old one with one append,
      or (after a sweep) empty. */
  lemma LiveLogAfter(s: State, step: Step)
    requires Enabled(s, step)
    ensures var log, next := LiveLog(s.files), LiveLog(Next(s, step).files);
            || next == log
            || (step.Sweep? && next == [])
            || (step.Abort? && next == log + [Entry(AbortedLine(step.ts, step.path, step.p), step.cut)])
            || (step.EmitStart? && next == log + [Entry(StartLine(step.ts, step.pidText, step.p), step.cut)])
            || (step.EmitEnd? && next == log + [Entry(EndLine(step.ts, step.code, step.p), step.cut)])
            || (step.Narrate? && next == log + [Entry(Note(step.text), step.cut)])
    ensures step.EmitStart? ==> LiveLog(Next(s, step).files) != LiveLog(s.files)
    ensures step.EmitEnd? ==> LiveLog(Next(s, step).files) != LiveLog(s.files)
  {
    if step.Sweep? && step.oversize && 0 in s.files {
      RotationNeverLosesLiveLog(s.files, Keep(step.keepSetting), step.disk);
    }
    if step.EmitStart? || step.EmitEnd? { assert |LiveLog(Next(s, step).files)| == |LiveLog(s.files)| + 1; }
  }

  /** A step takes nothing back that a line was landed for. */
  lemma LandedStays(s: State, step: Step, p: Pid)
    requires Inv(s) && Enabled(s, step) && p in s.runs
    ensures var (r, r') := (s.runs[p], Next(s, step).runs[p]);
            (r.startLanded ==> r'.startLanded) && (r.endLanded ==> r'.endLanded) && (r.phase.Gone? ==> r'.phase.Gone?)
  {
    assert RecordInv(s.runs[p], p);
  }

  lemma StepKeepsEntries(s: State, step: Step)
    requires Inv(s) && Enabled(s, step)
    ensures forall e | e in LiveLog(Next(s, step).files) :: EntryOk(Next(s, step), e)
  {
    var t := Next(s, step);
    LiveLogAfter(s, step);
    forall e | e in LiveLog(t.files) ensures EntryOk(t, e) {
      if e in LiveLog(s.files) {
        assert EntryOk(s, e);
        if !e.line.Note? && e.line.run in s.runs { LandedStays(s, step, e.line.run); }
      }
    }
  }

  /** Whose append shows the tag of a run that has not gone. */
  lemma ShownByOwn(s: State, p: Pid, e: Entry)
    requires Inv(s) && p in s.runs && !s.runs[p].phase.Gone? && e in LiveLog(s.files) && Shows(e, Tag(p))
    ensures e.line.StartLine? || e.line.EndLine?
    ensures e.line.run == p
    ensures (e.line.StartLine? ==> s.runs[p].startLanded) && (e.line.EndLine? ==> s.runs[p].endLanded)
  {
    TagShownByOwner(e, p);
    assert EntryOk(s, e);
  }

  /** The start found for a run is its own, or a torn one it shares a line with. */
  lemma ShownStart(s: State, p: Pid)
    requires Inv(s) && p in s.runs && !s.runs[p].phase.Gone?
    ensures LogShows(LiveLog(s.files), MARK_START, Tag(p)) ==>
              s.runs[p].startLanded || BorrowsStart(LiveLog(s.files), p)
  {
    var log := LiveLog(s.files);
    if LogShows(log, MARK_START, Tag(p)) {
      var i, j :| Glued(log, i, j) && Shows(log[i], MARK_START) && Shows(log[j], Tag(p));
      ShownByOwn(s, p, log[j]);
    }
  }

  lemma ShownEnd(s: State, p: Pid)
    requires Inv(s) && p in s.runs && !s.runs[p].phase.Gone?
    ensures LogShows(LiveLog(s.files), MARK_END, Tag(p)) ==> s.runs[p].endLanded || BorrowsEnd(LiveLog(s.files), p)
  {
    var log := LiveLog(s.files);
    if LogShows(log, MARK_END, Tag(p)) {
      var i, j :| Glued(log, i, j) && Shows(log[i], MARK_END) && Shows(log[j], Tag(p));
      ShownByOwn(s, p, log[j]);
    }
  }

  /** The contract is true to the text of the log and to the other evidence. */
  lemma JudgmentIsHonest(s: State, p: Pid, readable: bool, raises: bool)
    requires p in s.runs && s.runs[p].evidence.Some?
    ensures JudgedOk(s.runs[p].(judgement := Some(Judgment(s, p, readable, raises))), p)
  {
    var j := Judgment(s, p, readable, raises);
    if j.result.Evaluated? {
      var e := s.runs[p].evidence.value;
      var lines := if readable then TextLines(j.log) else [];
      TextShowsIff(j.log, MARK_START, p);
      TextShowsIff(j.log, MARK_END, p);
      MetIff(lines, Tag(p), e);
    }
  }

  /** The contract is met exactly when both markers match and the rest is there. */
  lemma MetIff(lines: seq<string>, tag: string, e: Evidence)
    requires EvaluateContract(lines, tag, e).Evaluated?
    ensures var c := EvaluateContract(lines, tag, e).contract;
            && (c.startPresent <==> AnyMatches(lines, MARK_START, tag))
            && (c.endPresent <==> AnyMatches(lines, MARK_END, tag))
            && (c.status.Met? <==> c.startPresent && c.endPresent && e.manifestExists && e.reportOk
                                   && e.transcriptPresent && ChildOk(e))
  {
    ContractMeaning(lines, tag, e);
    assert Present(lines, tag, e, StartMarker) <==> AnyMatches(lines, MARK_START, tag);
    assert Present(lines, tag, e, EndMarker) <==> AnyMatches(lines, MARK_END, tag);
    assert Present(lines, tag, e, Transcript) <==> e.transcriptPresent;
    assert Present(lines, tag, e, Report) <==> e.reportOk;
    assert Present(lines, tag, e, Manifest) <==> e.manifestExists;
    assert Present(lines, tag, e, ChildExit) <==> ChildOk(e);
  }

  lemma JudgeKeepsRecord(s: State, step: Step)
    requires Inv(s) && Enabled(s, step) && step.Judge?
    ensures RecordInv(Next(s, step).runs[step.p], step.p)
  {
    assert RecordInv(s.runs[step.p], step.p);
    JudgmentIsHonest(s, step.p, step.readable, step.raises);
    ShownStart(s, step.p);
    ShownEnd(s, step.p);
  }

  lemma OwnStepKeepsRecord(s: State, step: Step)
    requires Enabled(s, step) && !step.Launch? && !step.Judge? && RecordInv(s.runs[step.p], step.p)
    ensures RecordInv(Next(s, step).runs[step.p], step.p)
  {
  }

  lemma OtherRunsStay(s: State, step: Step, p: Pid)
    requires Enabled(s, step) && p != step.p
    ensures p in Next(s, step).runs <==> p in s.runs
    ensures p in s.runs ==> Next(s, step).runs[p] == s.runs[p]
  {
  }

  lemma StepKeepsRecord(s: State, step: Step, p: Pid)
    requires Inv(s) && Enabled(s, step) && p in Next(s, step).runs
    ensures RecordInv(Next(s, step).runs[p], p)
  {
    if p != step.p {
      OtherRunsStay(s, step, p);
      assert RecordInv(s.runs[p], p);
    } else if step.Judge? {
      JudgeKeepsRecord(s, step);
    } else if !step.Launch? {
      assert RecordInv(s.runs[p], p);
      OwnStepKeepsRecord(s, step);
    }
  }

  lemma {:induction false} RunKeepsInv(s: State, steps: seq<Step>, t: State)
    requires Inv(s) && Runs(s, steps, t)
    ensures Inv(t)
    decreases |steps|
  {
    if steps != [] {
      var n := Next(s, steps[0]);
      StepKeepsEntries(s, steps[0]);
      forall p | p in n.runs ensures RecordInv(n.runs[p], p) { StepKeepsRecord(s, steps[0], p); }
      RunKeepsInv(n, steps[1..], t);
    }
  }

  // ---- what a clean execution adds -----------------------------------------

  /** What a run landed is still there for it to find. */
  ghost predicate StillThere(s: State, p: Pid)
    requires p in s.runs
  {
    var r := s.runs[p];
    && (p in s.alive && r.phase.AfterSweep() && r.startLanded ==> HasStart(LiveLog(s.files), p))
    && (p in s.alive && r.phase.AfterSweep() && r.endLanded ==> HasEnd(LiveLog(s.files), p))
    && (r.judgement.Some? && r.startLanded ==> LogShows(r.judgement.value.log, MARK_START, Tag(p)))
    && (r.judgement.Some? && r.endLanded ==> LogShows(r.judgement.value.log, MARK_END, Tag(p)))
  }

  ghost predicate CleanInv(s: State) {
    && Inv(s) && LockInv(s)
    && (forall p | p in s.runs :: StillThere(s, p))
  }

  lemma FoundInLog(log: Log, p: Pid)
    ensures HasStart(log, p) ==> LogShows(log, MARK_START, Tag(p))
    ensures HasEnd(log, p) ==> LogShows(log, MARK_END, Tag(p))
  {
    if e :| e in log && e.line.StartLine? && e.line.run == p && Shows(e, Tag(p)) {
      var i :| 0 <= i < |log| && log[i] == e;
      TagShownAfterMark(e);
      assert Glued(log, i, i);
    }
    if e :| e in log && e.line.EndLine? && e.line.run == p && Shows(e, Tag(p)) {
      var i :| 0 <= i < |log| && log[i] == e;
      TagShownAfterMark(e);
      assert Glued(log, i, i);
    }
  }

  lemma AppendKeeps(log: Log, e: Entry, p: Pid)
    ensures HasStart(log, p) ==> HasStart(log + [e], p)
    ensures HasEnd(log, p) ==> HasEnd(log + [e], p)
    ensures e.line.StartLine? && e.line.run == p && Shows(e, Tag(p)) ==> HasStart(log + [e], p)
    ensures e.line.EndLine? && e.line.run == p && Shows(e, Tag(p)) ==> HasEnd(log + [e], p)
  {
    if HasStart(log, p) {
      var x :| x in log && x.line.StartLine? && x.line.run == p && Shows(x, Tag(p));
      assert x in log + [e];
    }
    if HasEnd(log, p) {
      var x :| x in log && x.line.EndLine? && x.line.run == p && Shows(x, Tag(p));
      assert x in log + [e];
    }
    assert e in log + [e];
  }

  lemma StepKeepsLanded(s: State, step: Step, p: Pid)
    requires CleanInv(s) && Enabled(s, step) && !Seizes(s, step) && p in Next(s, step).runs
    ensures var (t, r) := (Next(s, step), Next(s, step).runs[p]);
            && (p in t.alive && r.phase.AfterSweep() && r.startLanded ==> HasStart(LiveLog(t.files), p))
            && (p in t.alive && r.phase.AfterSweep() && r.endLanded ==> HasEnd(LiveLog(t.files), p))
  {
    var t := Next(s, step);
    LiveLogAfter(s, step);
    if p in s.runs {
      assert StillThere(s, p) && RecordInv(s.runs[p], p);
      var log, next := LiveLog(s.files), LiveLog(t.files);
      if |next| > |log| {
        AppendKeeps(log, next[|log|], p);
        assert next == log + [next[|log|]];
      }
      if step.Sweep? && LiveHolder(s, p) { SweepIsExclusive(s, step, p); }
    }
  }

  lemma StepKeepsStillThere(s: State, step: Step, p: Pid)
    requires CleanInv(s) && Enabled(s, step) && !Seizes(s, step) && p in Next(s, step).runs
    ensures StillThere(Next(s, step), p)
  {
    StepKeepsLanded(s, step, p);
    if p in s.runs {
      assert StillThere(s, p) && RecordInv(s.runs[p], p);
      FoundInLog(LiveLog(s.files), p);
    }
  }

  lemma {:induction false} CleanRunKeepsInv(s: State, steps: seq<Step>, t: State)
    requires CleanInv(s) && CleanRuns(s, steps, t)
    ensures CleanInv(t)
    decreases |steps|
  {
    if steps != [] {
      var n := Next(s, steps[0]);
      StepKeepsLock(s, steps[0]);
      StepKeepsEntries(s, steps[0]);
      forall p | p in n.runs ensures RecordInv(n.runs[p], p) { StepKeepsRecord(s, steps[0], p); }
      forall p | p in n.runs ensures StillThere(n, p) { StepKeepsStillThere(s, steps[0], p); }
      CleanRunKeepsInv(n, steps[1..], t);
    }
  }

  // ---- what every sequence of nights keeps ---------------------------------

  /** In every execution, whatever fails: the contract's start bit is only true
      of a readable log that holds this run's own start line, or its end line
      glued to the front of a torn start line; and likewise the end bit. */
  lemma ContractSeesOwnLinesOnly(steps: seq<Step>, s: State, p: Pid)
    requires Runs(INIT, steps, s) && p in s.runs && s.runs[p].judgement.Some?
    requires s.runs[p].judgement.value.result.Evaluated?
    ensures var (r, j) := (s.runs[p], s.runs[p].judgement.value);
            && (j.result.contract.startPresent ==> j.readable && (r.startLanded || BorrowsStart(j.log, p)))
            && (j.result.contract.endPresent ==> j.readable && (r.endLanded || BorrowsEnd(j.log, p)))
  {
    RunKeepsInv(INIT, steps, s);
    assert RecordInv(s.runs[p], p);
  }

  lemma BorrowedShows(log: Log, p: Pid)
    ensures BorrowsStart(log, p) ==> LogShows(log, MARK_START, Tag(p))
    ensures BorrowsEnd(log, p) ==> LogShows(log, MARK_END, Tag(p))
  {
  }

  /** Where no lock was seized the bits are exact: true exactly when the log was
      readable and the line landed or was borrowed. */
  lemma ContractBitsExact(steps: seq<Step>, s: State, p: Pid)
    requires CleanRuns(INIT, steps, s) && p in s.runs && s.runs[p].judgement.Some?
    requires s.runs[p].judgement.value.result.Evaluated?
    ensures var (r, j) := (s.runs[p], s.runs[p].judgement.value);
            && (j.result.contract.startPresent <==> j.readable && (r.startLanded || BorrowsStart(j.log, p)))
            && (j.result.contract.endPresent <==> j.readable && (r.endLanded || BorrowsEnd(j.log, p)))
  {
    CleanRunKeepsInv(INIT, steps, s);
    assert RecordInv(s.runs[p], p) && StillThere(s, p);
    BorrowedShows(s.runs[p].judgement.value.log, p);
  }

  /** Nothing is borrowed from a log with no torn append: none whose line is there
      in part, or without its line break. */
  lemma UntornBorrowsNothing(log: Log, p: Pid)
    requires forall e | e in log :: Whole(e) || Kept(e) == ""
    ensures !BorrowsStart(log, p) && !BorrowsEnd(log, p)
  {
    assert Needle(MARK_START) && Needle(MARK_END) && Needle(Tag(p));
    if i, j :| Glued(log, i, j) && Shows(log[i], MARK_START)
               && log[j].line.EndLine? && log[j].line.run == p && Shows(log[j], Tag(p)) {
      OneAppendPerLine(log, i, j, MARK_START, Tag(p));
      EndMarkOnly(log[i]);
    }
    if i, j :| Glued(log, i, j) && Shows(log[i], MARK_END)
               && log[j].line.StartLine? && log[j].line.run == p && Shows(log[j], Tag(p)) {
      OneAppendPerLine(log, i, j, MARK_END, Tag(p));
      StartMarkOnly(log[i]);
    }
  }

  lemma OneAppendPerLine(log: Log, i: int, j: int, a: string, b: string)
    requires (forall e | e in log :: Whole(e) || Kept(e) == "") && Needle(a) && Needle(b)
    requires Glued(log, i, j) && Shows(log[i], a) && Shows(log[j], b)
    ensures i == j
  {
    EmptyShowsNothing(a);
    EmptyShowsNothing(b);
    assert log[i] in log && log[j] in log;
    assert Whole(log[i]) && Whole(log[j]);
  }

  lemma EndMarkOnly(e: Entry)
    requires e.line.EndLine?
    ensures !Shows(e, MARK_START)
  {
    HeadPlain(e.line.ts);
    EndDetailPlain(e.line.code);
    StampedOtherMark(Head(e.line.ts), MARK_END, EndDetail(e.line.code), e.line.run, MARK_START);
    if Shows(e, MARK_START) { ShownIsWritten(e, MARK_START); }
  }

  lemma StartMarkOnly(e: Entry)
    requires e.line.StartLine?
    ensures !Shows(e, MARK_END)
  {
    HeadPlain(e.line.ts);
    StartDetailPlain(e.line.pid);
    StampedOtherMark(Head(e.line.ts), MARK_START, StartDetail(e.line.pid), e.line.run, MARK_END);
    if Shows(e, MARK_END) { ShownIsWritten(e, MARK_END); }
  }

  /** A log that ends in a torn start line and the same run's whole end line. */
  lemma EndsBorrowing(log: Log, start: Entry, end: Entry, p: Pid)
    requires start.cut.Some? && Shows(start, MARK_START)
    requires end.cut.None? && end.line.EndLine? && end.line.run == p
    ensures BorrowsStart(log + [start, end], p)
  {
    var all := log + [start, end];
    var n := |log|;
    LineTag(end.line, p);
    assert all[n] == start && all[n + 1] == end;
    assert Glued(all, n, n + 1) && Shows(all[n], MARK_START) && Shows(all[n + 1], Tag(p));
  }

  /** Borrowing is real: a run whose start line is torn between its mark and its
      tag, and whose end line then lands whole, has not landed its start and is
      found to have one. */
  lemma TornStartIsBorrowed(s: State, p: Pid, ts: Plain, pidText: Plain, cut: nat, e: Evidence, code: Plain)
    returns (t: State)
    requires Enabled(s, EmitStart(p, ts, pidText, Some(cut)))
    requires MarkEndsAt(ts) <= cut < TagEndsAt(ts, pidText, p)
    ensures Runs(s, [EmitStart(p, ts, pidText, Some(cut)), Finish(p, e), EmitEnd(p, ts, code, None)], t)
    ensures p in t.runs && !t.runs[p].startLanded && BorrowsStart(LiveLog(t.files), p)
    ensures LogShows(LiveLog(t.files), MARK_START, Tag(p))
  {
    TornBetweenIff(ts, pidText, p, cut);
    t := StartFinishEnd(s, p, ts, pidText, Some(cut), e, code);
    EndsBorrowing(LiveLog(s.files), Entry(StartLine(ts, pidText, p), Some(cut)), Entry(EndLine(ts, code, p), None), p);
    BorrowedShows(LiveLog(t.files), p);
  }

  /** What a run's three middle steps leave. */
  lemma StartFinishEnd(
    s: State, p: Pid, ts: Plain, pidText: Plain, cut: Option<nat>, e: Evidence, code: Plain) returns (t: State)
    requires Enabled(s, EmitStart(p, ts, pidText, cut))
    ensures Runs(s, [EmitStart(p, ts, pidText, cut), Finish(p, e), EmitEnd(p, ts, code, None)], t)
    ensures var start := Entry(StartLine(ts, pidText, p), cut);
            && p in t.runs && t.runs[p].startLanded == Shows(start, Tag(p))
            && LiveLog(t.files) == LiveLog(s.files) + [start, Entry(EndLine(ts, code, p), None)]
  {
    var steps := [EmitStart(p, ts, pidText, cut), Finish(p, e), EmitEnd(p, ts, code, None)];
    var s1 := Next(s, steps[0]);
    var s2 := Next(s1, steps[1]);
    t := Next(s2, steps[2]);
    assert steps[1..] == [steps[1], steps[2]] && steps[1..][1..] == [steps[2]] && [steps[2]][1..] == [];
    assert Runs(s2, steps[1..][1..], t);
    assert Runs(s1, steps[1..], t);
  }

  /** What a finished run is pinged, by what its log shows. */
  lemma PingMeaning(s: State, p: Pid, readable: bool, raises: bool, urlSet: bool)
    requires p in s.runs && s.runs[p].evidence.Some?
    ensures var (log, e) := (LiveLog(s.files), s.runs[p].evidence.value);
            PingFor(Judgment(s, p, readable, raises), urlSet)
            == (if !urlSet then NoPing
                else if !raises && readable && LogShows(log, MARK_START, Tag(p)) && LogShows(log, MARK_END, Tag(p))
                        && e.manifestExists && e.reportOk && e.transcriptPresent
                        && e.exitCode == 0 && !e.timedOut then Up
                else Down)
  {
    JudgmentIsHonest(s, p, readable, raises);
    TagNotBlank(p);
  }

  lemma TagNotBlank(run: RunId)
    ensures !Blank(Tag(run))
  {
    assert Tag(run)[0] == '[';
  }

  /** A run pinged DOWN either could not evaluate its contract, could not read
      the log back, or lacks one of the six artifacts. */
  lemma DownPingHasCause(steps: seq<Step>, s: State, p: Pid)
    requires CleanRuns(INIT, steps, s) && p in s.runs && s.runs[p].ping.Down?
    ensures var r := s.runs[p];
            && r.judgement.Some? && r.evidence.Some?
            && var (j, e) := (r.judgement.value, r.evidence.value);
            || j.result.ValueError?
            || !j.readable || !r.startLanded || !r.endLanded
            || !e.manifestExists || !e.reportOk || !e.transcriptPresent
            || e.exitCode != 0 || e.timedOut
  {
    CleanRunKeepsInv(INIT, steps, s);
    assert RecordInv(s.runs[p], p) && StillThere(s, p);
  }

  /** An UP ping is only sent for a run whose start and end lines both landed or
      were borrowed, whose child exited cleanly in time and whose other artifacts
      exist; in every execution. */
  lemma UpPingIsEarned(steps: seq<Step>, s: State, p: Pid)
    requires Runs(INIT, steps, s) && p in s.runs && s.runs[p].ping.Up?
    ensures var r := s.runs[p];
            && r.judgement.Some? && r.evidence.Some?
            && (r.startLanded || BorrowsStart(r.judgement.value.log, p))
            && (r.endLanded || BorrowsEnd(r.judgement.value.log, p))
            && var e := r.evidence.value;
            e.exitCode == 0 && !e.timedOut && e.manifestExists && e.reportOk && e.transcriptPresent
  {
    RunKeepsInv(INIT, steps, s);
    assert RecordInv(s.runs[p], p);
  }
}
