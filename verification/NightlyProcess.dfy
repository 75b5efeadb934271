/** One nightly process, method by method.  Each method performs actions of
    module NightlyRunner on the host's lock file and marker log, so a host that
    processes have run on is always in a state of that protocol. */
module NightlyProcess {
  import opened Common
  import opened MarkerLines
  import opened MarkerLog
  import opened MarkerRotation
  import opened NightlyRunner

  lemma {:induction false} RunsExtend(s: State, steps: seq<Step>, t: State, step: Step)
    requires Runs(s, steps, t) && Enabled(t, step)
    ensures Runs(s, steps + [step], Next(t, step))
    decreases |steps|
  {
    if steps == [] {
      assert [step][1..] == [];
    } else {
      RunsExtend(Next(s, steps[0]), steps[1..], t, step);
      assert (steps + [step])[1..] == steps[1..] + [step];
    }
  }

  class Host {
    var lockFile: Option<Pid>
    const markers: MarkerFiles<Log>
    var alive: set<Pid>
    ghost var runs: map<Pid, Run>
    ghost var history: seq<Step>

    ghost function Abs(): State
      reads this, markers
    {
      State(lockFile, alive, runs, markers.files)
    }

    /** The host got here by actions of the protocol. */
    ghost predicate Valid()
      reads this, markers
    {
      Runs(INIT, history, Abs())
    }

    constructor (markers: MarkerFiles<Log>)
      requires markers.files == map[]
      ensures Valid() && this.markers == markers && Abs() == INIT
    {
      this.markers := markers;
      lockFile, alive, runs, history := None, {}, map[], [];
    }
  }

  /** What the environment does to one run: which system calls fail, what the
      child left behind, and whether the ping URL is set. */
  datatype Night = Night(
    ts: Plain, pidText: Plain, code: Plain, lockPath: PathText,
    oversize: bool, keep: int, disk: Disk,
    readStaleOk: bool, unlinkStaleOk: bool, readOwnOk: bool, unlinkOwnOk: bool,
    abortCut: Option<nat>, startCut: Option<nat>, endCut: Option<nat>,
    abortRaises: bool, startRaises: bool, endRaises: bool,
    readable: bool, raises: bool,
    evidence: Evidence, fatal: bool, urlSet: bool)

  /** The runs, with one of them moved on. */
  ghost function Moved(runs: map<Pid, Run>, p: Pid, phase: Phase): map<Pid, Run>
    requires p in runs
  {
    runs[p := runs[p].(phase := phase)]
  }

  lemma MovedTwice(runs: map<Pid, Run>, p: Pid, a: Phase, b: Phase)
    requires p in runs
    ensures Moved(Moved(runs, p, a), p, b) == Moved(runs, p, b)
  {
  }

  class Runner {
    const host: Host
    const pid: Pid
    var held: bool
    var markerFailures: nat

    constructor (host: Host, pid: Pid)
      requires host.Valid() && pid !in host.runs
      modifies host`alive, host`runs, host`history
      ensures this.host == host && this.pid == pid && !held && markerFailures == 0
      ensures host.Valid() && host.Abs() == Next(old(host.Abs()), Launch(pid))
    {
      this.host, this.pid, held, markerFailures := host, pid, false, 0;
      new;
      RunsExtend(INIT, host.history, host.Abs(), Launch(pid));
      host.alive := host.alive + {pid};
      host.runs := host.runs[pid := Run(Launched(0), false, false, None, None, NoPing)];
      host.history := host.history + [Launch(pid)];
    }

    ghost predicate At(phase: Phase)
      reads this, host, host.markers
    {
      host.Valid() && pid in host.alive && pid in host.runs && host.runs[pid].phase == phase
    }

    ghost method Move(step: Step)
      requires host.Valid() && Enabled(host.Abs(), step) && step.p == pid
      modifies host`runs, host`history
      ensures Runs(INIT, host.history, Next(old(host.Abs()), step))
      ensures host.runs == Next(old(host.Abs()), step).runs
    {
      RunsExtend(INIT, host.history, host.Abs(), step);
      host.runs := Next(host.Abs(), step).runs;
      host.history := host.history + [step];
    }

    /** One exclusive create. */
    method TryLock(ghost attempt: nat) returns (ok: bool)
      requires At(Launched(attempt))
      modifies this`held, host`lockFile, host`runs, host`history
      ensures host.Valid() && ok == old(host.lockFile).None? && held == (old(held) || ok)
      ensures host.lockFile == if ok then Some(pid) else old(host.lockFile)
      ensures host.runs == Moved(old(host.runs), pid, if ok then Holding else Colliding(attempt))
    {
      Move(TryCreate(pid));
      ok := host.lockFile.None?;
      if ok {
        host.lockFile := Some(pid);
        held := true;
      }
    }

    /** Removes the lock file if its owner is dead, or if it cannot be read. */
    method ReclaimIfStale(readOk: bool, unlinkOk: bool, ghost attempt: nat) returns (reclaimed: bool)
      requires At(Colliding(attempt)) && host.lockFile.Some?
      modifies host`lockFile, host`runs, host`history
      ensures host.Valid()
      ensures reclaimed == ((!readOk || old(host.lockFile).value !in host.alive) && unlinkOk)
      ensures host.lockFile == if reclaimed then None else old(host.lockFile)
      ensures host.runs == Moved(old(host.runs), pid, if reclaimed && attempt == 0 then Launched(1) else Aborting)
    {
      Move(Reclaim(pid, readOk, unlinkOk));
      var owner := if readOk then host.lockFile else None;
      if owner.Some? && owner.value in host.alive { return false; }
      if !unlinkOk { return false; }
      host.lockFile := None;
      reclaimed := true;
    }

    /** Exclusive create, and at most one reclaim. */
    method Acquire(readOk: bool, unlinkOk: bool) returns (ok: bool)
      requires At(Launched(0)) && !held
      modifies this`held, host`lockFile, host`runs, host`history
      ensures host.Valid() && held == ok
      ensures ok <==> old(host.lockFile).None? || ((!readOk || old(host.lockFile).value !in host.alive) && unlinkOk)
      ensures host.lockFile == if ok then Some(pid) else old(host.lockFile)
      ensures host.runs == Moved(old(host.runs), pid, if ok then Holding else Aborting)
    {
      var attempt: nat := 0;
      while attempt < 2
        invariant attempt < 2
        invariant At(Launched(attempt)) && !held
        invariant attempt == 0 ==> host.lockFile == old(host.lockFile)
        invariant attempt == 1 ==> host.lockFile.None? && old(host.lockFile).Some?
                                   && (!readOk || old(host.lockFile).value !in host.alive) && unlinkOk
        invariant host.runs == Moved(old(host.runs), pid, Launched(attempt))
        decreases 2 - attempt
      {
        MovedTwice(old(host.runs), pid, Launched(attempt), Holding);
        MovedTwice(old(host.runs), pid, Launched(attempt), Colliding(attempt));
        ok := TryLock(attempt);
        if ok { return; }
        MovedTwice(old(host.runs), pid, Colliding(attempt), if attempt == 0 then Launched(1) else Aborting);
        MovedTwice(old(host.runs), pid, Colliding(attempt), Aborting);
        var reclaimed := ReclaimIfStale(readOk, unlinkOk, attempt);
        if !reclaimed { return; }
        attempt := attempt + 1;
      }
      ok := false;
    }

    /** Appends one line, or the front of it.  An append that is not whole, or
        that raises after it landed, is recorded as a failure, never swallowed. */
    method EmitRaw(line: Line, cut: Option<nat>, appendRaises: bool, ghost step: Step)
      requires host.Valid() && Enabled(host.Abs(), step) && step.p == pid
      requires Next(host.Abs(), step).files == Append(host.markers.files, Entry(line, cut))
      requires Next(host.Abs(), step).alive == host.alive && Next(host.Abs(), step).lockFile == host.lockFile
      modifies this`markerFailures, host`runs, host`history, host.markers
      ensures host.Valid() && host.Abs() == Next(old(host.Abs()), step)
      ensures markerFailures == old(markerFailures) + (if cut.Some? || appendRaises then 1 else 0)
    {
      Move(step);
      var log := if 0 in host.markers.files then host.markers.files[0] else [];
      host.markers.files := host.markers.files[0 := log + [Entry(line, cut)]];
      if cut.Some? || appendRaises {
        markerFailures := markerFailures + 1;
      }
    }

    method RotateMarkerLog(n: Night)
      requires At(Holding)
      modifies host`runs, host`history, host.markers
      ensures host.Valid() && host.Abs() == Next(old(host.Abs()), Sweep(pid, n.oversize, n.keep, n.disk))
      ensures host.runs == Moved(old(host.runs), pid, Swept)
    {
      Move(Sweep(pid, n.oversize, n.keep, n.disk));
      var _ := host.markers.Rotate(n.oversize, n.keep, n.disk);
    }

    method WriteStartMarker(n: Night)
      requires At(Swept)
      modifies this`markerFailures, host`runs, host`history, host.markers
      ensures host.Valid()
      ensures var e := Entry(StartLine(n.ts, n.pidText, pid), n.startCut);
              && LiveLog(host.markers.files) == LiveLog(old(host.markers.files)) + [e]
              && host.runs ==
                 old(host.runs)[pid := old(host.runs)[pid].(phase := Started, startLanded := Shows(e, Tag(pid)))]
    {
      EmitRaw(StartLine(n.ts, n.pidText, pid), n.startCut, n.startRaises, EmitStart(pid, n.ts, n.pidText, n.startCut));
    }

    /** The child's run, and the unconditional end marker. */
    method FinishAndMark(n: Night)
      requires At(Started)
      modifies this`markerFailures, host`runs, host`history, host.markers
      ensures host.Valid()
      ensures var e := Entry(EndLine(n.ts, n.code, pid), n.endCut);
              && LiveLog(host.markers.files) == LiveLog(old(host.markers.files)) + [e]
              && host.runs == old(host.runs)[pid := old(host.runs)[pid].(
                   phase := Ended, endLanded := Shows(e, Tag(pid)), evidence := Some(n.evidence))]
    {
      Move(Finish(pid, n.evidence));
      EmitRaw(EndLine(n.ts, n.code, pid), n.endCut, n.endRaises, EmitEnd(pid, n.ts, n.code, n.endCut));
    }

    /** Frees the lock.  A holder that cannot read the file takes it for its own. */
    method Release(readOk: bool, unlinkOk: bool)
      requires At(Pinged) && held
      modifies this`held, host`lockFile, host`runs, host`history
      ensures host.Valid() && host.Abs() == Next(old(host.Abs()), NightlyRunner.Release(pid, readOk, unlinkOk)) && !held
      ensures host.lockFile ==
              if (old(host.lockFile) == Some(pid) || !readOk) && unlinkOk then None else old(host.lockFile)
    {
      Move(NightlyRunner.Release(pid, readOk, unlinkOk));
      var owner := if readOk then host.lockFile else Some(pid);
      if owner == Some(pid) && unlinkOk {
        host.lockFile := None;
      }
      held := false;
    }

    /** The log ends in this run's two markers, each as far as it was written. */
    ghost predicate Marked(n: Night)
      reads host, host.markers
    {
      var log := LiveLog(host.markers.files);
      && |log| >= 2
      && log[|log| - 2] == Entry(StartLine(n.ts, n.pidText, pid), n.startCut)
      && log[|log| - 1] == Entry(EndLine(n.ts, n.code, pid), n.endCut)
    }

    /** The ping a night has earned, read off the appends: UP exactly when the URL
        is set, each marker reached the log up to its tag or was borrowed, and
        the other four artifacts are there. */
    ghost function PingDue(n: Night, log: Log): Ping {
      var start := Entry(StartLine(n.ts, n.pidText, pid), n.startCut);
      var end := Entry(EndLine(n.ts, n.code, pid), n.endCut);
      if !n.urlSet then NoPing
      else if
        && !n.raises && n.readable
        && (Shows(start, Tag(pid)) || BorrowsStart(log, pid))
        && (Shows(end, Tag(pid)) || BorrowsEnd(log, pid))
        && n.evidence.manifestExists && n.evidence.reportOk
        && n.evidence.transcriptPresent && n.evidence.exitCode == 0 && !n.evidence.timedOut
      then Up
      else Down
    }

    /** One night.  A process that does not get the lock exits 3 and pings
        nobody.  One that does writes its two markers, sends the ping it has
        earned, and frees the lock on every path. */
    method Go(n: Night) returns (exitCode: int, ping: Ping)
      requires At(Launched(0)) && !held
      modifies this, host, host.markers
      ensures host.Valid() && !held
      ensures var acquired := || old(host.lockFile).None?
                              || ((!n.readStaleOk || old(host.lockFile).value !in old(host.alive)) && n.unlinkStaleOk);
              && (!acquired ==> exitCode == 3 && ping == NoPing && host.lockFile == old(host.lockFile))
              && (acquired ==>
                    && exitCode == (if n.fatal then 1 else n.evidence.exitCode)
                    && Marked(n) && ping == PingDue(n, LiveLog(host.markers.files))
                    && host.lockFile == (if n.unlinkOwnOk then None else Some(pid)))
    {
      var ok := Acquire(n.readStaleOk, n.unlinkStaleOk);
      if !ok {
        GiveUp(n);
        return 3, NoPing;
      }
      ping := LockedNight(n);
      exitCode := if n.fatal then 1 else n.evidence.exitCode;
    }

    method LockedNight(n: Night) returns (ping: Ping)
      requires At(Holding) && held && host.lockFile == Some(pid)
      modifies this, host, host.markers
      ensures host.Valid() && !held
      ensures Marked(n) && ping == PingDue(n, LiveLog(host.markers.files))
      ensures host.lockFile == if n.unlinkOwnOk then None else Some(pid)
    {
      ping := UnderLock(n);
      Release(n.readOwnOk, n.unlinkOwnOk);
    }

    method GiveUp(n: Night)
      requires At(Aborting)
      modifies this`markerFailures, host`runs, host`history, host.markers
      ensures host.Valid()
    {
      EmitRaw(AbortedLine(n.ts, n.lockPath, pid), n.abortCut, n.abortRaises,
              Abort(pid, n.ts, n.lockPath, n.abortCut));
    }

    /** Everything between taking the lock and freeing it. */
    method UnderLock(n: Night) returns (ping: Ping)
      requires At(Holding) && held && host.lockFile == Some(pid)
      modifies this`markerFailures, host`runs, host`history, host.markers
      ensures At(Pinged) && Marked(n) && ping == PingDue(n, LiveLog(host.markers.files))
    {
      WriteMarkers(n);
      OwnMarkers(n);
      ping := JudgeAndPing(n);
    }

    method WriteMarkers(n: Night)
      requires At(Holding)
      modifies this`markerFailures, host`runs, host`history, host.markers
      ensures At(Ended) && Marked(n) && host.runs[pid].evidence == Some(n.evidence)
      ensures host.runs[pid].startLanded == Shows(Entry(StartLine(n.ts, n.pidText, pid), n.startCut), Tag(pid))
      ensures host.runs[pid].endLanded == Shows(Entry(EndLine(n.ts, n.code, pid), n.endCut), Tag(pid))
    {
      RotateMarkerLog(n);
      WriteStartMarker(n);
      FinishAndMark(n);
    }

    /** What the log shows of a run that has just written its two markers. */
    lemma OwnMarkers(n: Night)
      requires At(Ended) && Marked(n)
      requires host.runs[pid].startLanded == Shows(Entry(StartLine(n.ts, n.pidText, pid), n.startCut), Tag(pid))
      requires host.runs[pid].endLanded == Shows(Entry(EndLine(n.ts, n.code, pid), n.endCut), Tag(pid))
      ensures var (log, r) := (LiveLog(host.markers.files), host.runs[pid]);
              && (LogShows(log, MARK_START, Tag(pid)) <==> r.startLanded || BorrowsStart(log, pid))
              && (LogShows(log, MARK_END, Tag(pid)) <==> r.endLanded || BorrowsEnd(log, pid))
    {
      var log := LiveLog(host.markers.files);
      RunKeepsInv(INIT, host.history, host.Abs());
      ShownStart(host.Abs(), pid);
      ShownEnd(host.Abs(), pid);
      BorrowedShows(log, pid);
      assert log[|log| - 2] in log && log[|log| - 1] in log;
      FoundInLog(log, pid);
    }

    /** Re-reads the log, evaluates the contract and decides the ping. */
    method JudgeAndPing(n: Night) returns (ping: Ping)
      requires At(Ended) && host.runs[pid].evidence == Some(n.evidence)
      modifies host`runs, host`history
      ensures At(Pinged)
      ensures var log := LiveLog(host.markers.files);
              ping == (if !n.urlSet then NoPing
                       else if !n.raises && n.readable
                               && LogShows(log, MARK_START, Tag(pid)) && LogShows(log, MARK_END, Tag(pid))
                               && n.evidence.manifestExists && n.evidence.reportOk
                               && n.evidence.transcriptPresent
                               && n.evidence.exitCode == 0 && !n.evidence.timedOut then Up
                       else Down)
    {
      PingMeaning(host.Abs(), pid, n.readable, n.raises, n.urlSet);
      var log := LiveLog(host.markers.files);
      var lines := if n.readable then TextLines(log) else [];
      var result := if n.raises then ValueError else EvaluateContract(lines, Tag(pid), n.evidence);
      assert Judgement(n.readable, log, result) == Judgment(host.Abs(), pid, n.readable, n.raises);
      ping := PingFor(Judgement(n.readable, log, result), n.urlSet);
      Move(Judge(pid, n.readable, n.raises));
      Move(SendPing(pid, n.urlSet));
    }
  }
}
