/** The single-instance lock with the exclusive create and the owner write as
    two actions.  Between them the lock file is empty; an empty file, and a file
    that cannot be read, both read as owner 0, and owner 0 is treated as stale. */
module LockWindow {
  import opened Common

  type Pid = nat
  type Inode = nat

  /** `attempt` counts the reclaims: `acquire` goes round twice. */
  datatype Phase = Trying(attempt: nat) | Opened(inode: Inode) | Holder | Out

  datatype State = State(
    file: Option<Inode>,       // what the lock path names
    owner: map<Inode, Pid>,    // inodes whose owner has been written
    made: nat,
    phase: map<Pid, Phase>,
    alive: set<Pid>)

  const INIT := State(None, map[], 0, map[], {})

  datatype Step =
    | Begin(p: Pid)
    | Create(p: Pid)
    | WriteOwner(p: Pid)
    | Reclaim(p: Pid, readOk: bool)
    | Release(p: Pid, readOk: bool)
    | Crash(p: Pid)

  predicate Enabled(s: State, step: Step) {
    if step.Begin? then step.p !in s.phase
    else
      step.p in s.alive && step.p in s.phase &&
      var phase := s.phase[step.p];
      match step
      case Create(_) => phase.Trying? && s.file.None?
      case WriteOwner(_) => phase.Opened?
      case Reclaim(_, _) => phase.Trying? && s.file.Some?
      case Release(_, _) => phase.Holder?
      case _ => true
  }

  function Next(s: State, step: Step): State
    requires Enabled(s, step)
  {
    var p := step.p;
    match step
    case Begin(_) => s.(phase := s.phase[p := Trying(0)], alive := s.alive + {p})
    case Create(_) => s.(file := Some(s.made), made := s.made + 1, phase := s.phase[p := Opened(s.made)])
    case WriteOwner(_) => s.(owner := s.owner[s.phase[p].inode := p], phase := s.phase[p := Holder])
    case Reclaim(_, readOk) =>
      var i := s.file.value;
      if readOk && i in s.owner && s.owner[i] in s.alive then s.(phase := s.phase[p := Out])
      else s.(file := None, phase := s.phase[p := if s.phase[p].attempt == 0 then Trying(1) else Out])
    case Release(_, readOk) =>
      // a holder that cannot read the file takes it for its own
      var mine := s.file.Some? && (!readOk || (s.file.value in s.owner && s.owner[s.file.value] == p));
      s.(file := if mine then None else s.file, phase := s.phase[p := Out])
    case Crash(_) => s.(alive := s.alive - {p})
  }

  predicate Claims(s: State, p: Pid) {
    p in s.alive && p in s.phase && (s.phase[p].Opened? || s.phase[p].Holder?)
  }

  predicate Holds(s: State, p: Pid) {
    p in s.alive && p in s.phase && s.phase[p].Holder?
  }

  /** The file the lock path names is the one `p` made and still lives by. */
  predicate Owns(s: State, p: Pid) {
    && Claims(s, p) && s.file.Some?
    && if s.phase[p].Opened? then s.phase[p].inode == s.file.value
       else s.file.value in s.owner && s.owner[s.file.value] == p
  }

  /** A reclaim that reads owner 0, because the file is empty or the read fails,
      while the process that made the file is alive. */
  ghost predicate Seizes(s: State, step: Step) {
    && step.Reclaim? && s.file.Some? && (!step.readOk || s.file.value !in s.owner)
    && exists p :: Owns(s, p)
  }

  predicate Runs(s: State, steps: seq<Step>, t: State)
    decreases |steps|
  {
    if steps == [] then s == t
    else Enabled(s, steps[0]) && Runs(Next(s, steps[0]), steps[1..], t)
  }

  /** An execution none of whose reclaims seizes the file of a live process.
      Empty files of crashed creators may be reclaimed, and unreadable ones. */
  ghost predicate CleanRuns(s: State, steps: seq<Step>, t: State)
    decreases |steps|
  {
    if steps == [] then s == t
    else Enabled(s, steps[0]) && !Seizes(s, steps[0]) && CleanRuns(Next(s, steps[0]), steps[1..], t)
  }

  ghost predicate Inv(s: State) {
    && (forall i | i in s.owner :: i < s.made)
    && (s.file.Some? ==> s.file.value < s.made)
    && (forall p | Claims(s, p) :: Owns(s, p) && (s.phase[p].Opened? ==> s.file.value !in s.owner))
    && (forall p, q | Claims(s, p) && Claims(s, q) :: p == q)
  }

  lemma ReclaimKeepsInv(s: State, step: Step)
    requires Inv(s) && Enabled(s, step) && !Seizes(s, step) && step.Reclaim?
    ensures Inv(Next(s, step))
  {
    var t := Next(s, step);
    forall p ensures Claims(t, p) ==> Claims(s, p) && t.file.Some? {
      if Claims(s, p) { assert Owns(s, p); }
    }
  }

  lemma StepKeepsInv(s: State, step: Step)
    requires Inv(s) && Enabled(s, step) && !Seizes(s, step)
    ensures Inv(Next(s, step))
  {
    var t := Next(s, step);
    if step.Create? {
      forall q ensures Claims(t, q) ==> q == step.p {
        assert Claims(t, q) && q != step.p ==> Claims(s, q);
      }
    } else if step.Reclaim? {
      ReclaimKeepsInv(s, step);
    } else {
      forall p | Claims(t, p) ensures Claims(s, p) {}
      if Claims(s, step.p) { assert forall p | Claims(s, p) :: p == step.p; }
    }
  }

  lemma {:induction false} CleanRunKeepsInv(s: State, steps: seq<Step>, t: State)
    requires Inv(s) && CleanRuns(s, steps, t)
    ensures Inv(t)
    decreases |steps|
  {
    if steps != [] {
      StepKeepsInv(s, steps[0]);
      CleanRunKeepsInv(Next(s, steps[0]), steps[1..], t);
    }
  }

  /** If no reclaim seizes the file of a live process, at most one live process
      holds the lock, even though create and write are separate. */
  lemma CleanRunsHaveOneHolder(steps: seq<Step>, s: State, p: Pid, q: Pid)
    requires CleanRuns(INIT, steps, s) && Holds(s, p) && Holds(s, q)
    ensures p == q
  {
    CleanRunKeepsInv(INIT, steps, s);
    assert Claims(s, p) && Claims(s, q);
  }

  /** What two processes do after one's file is gone: a newcomer makes another
      and writes itself into it, and the first goes on with its own. */
  function BothHold(s: State, p: Pid, r: Pid): seq<Step>
    requires p in s.phase
  {
    [Begin(r), Create(r), WriteOwner(r)] + if s.phase[p].Opened? then [WriteOwner(p)] else []
  }

  lemma {:induction false} RunsExtend(s: State, first: seq<Step>, t: State, step: Step)
    requires Runs(s, first, t) && Enabled(t, step)
    ensures Runs(s, first + [step], Next(t, step))
    decreases |first|
  {
    if first == [] {
      assert [step][1..] == [];
    } else {
      RunsExtend(Next(s, first[0]), first[1..], t, step);
      assert (first + [step])[1..] == first[1..] + [step];
    }
  }

  /** And only then: a reclaim that seizes the file of a live process `p` can
      always be followed by two holders, `p` and any newcomer `r`. */
  lemma SeizingAdmitsTwoHolders(steps: seq<Step>, s: State, seize: Step, p: Pid, r: Pid) returns (t: State)
    requires CleanRuns(INIT, steps, s) && Enabled(s, seize) && Seizes(s, seize) && Owns(s, p) && r !in s.phase
    ensures p != r && Runs(s, [seize] + BothHold(s, p, r), t) && Holds(t, p) && Holds(t, r)
  {
    var all := [seize];
    assert all[1..] == [];
    var s1 := Next(s, seize);
    assert Runs(s1, all[1..], s1);
    var s2 := Next(s1, Begin(r));
    var s3 := Next(s2, Create(r));
    t := Next(s3, WriteOwner(r));
    RunsExtend(s, all, s1, Begin(r));
    RunsExtend(s, all + [Begin(r)], s2, Create(r));
    RunsExtend(s, all + [Begin(r)] + [Create(r)], s3, WriteOwner(r));
    all := all + [Begin(r)] + [Create(r)] + [WriteOwner(r)];
    CleanRunKeepsInv(INIT, steps, s);
    if s.phase[p].Opened? {
      RunsExtend(s, all, t, WriteOwner(p));
      t := Next(t, WriteOwner(p));
      all := all + [WriteOwner(p)];
    }
    assert all == [seize] + BothHold(s, p, r);
  }

  /** Both kinds of seizure are reached: the file is still empty when a second
      start reads it, or it is complete and the read fails. */
  lemma SeizureHappens()
    ensures exists steps, s :: CleanRuns(INIT, steps, s) && Enabled(s, Reclaim(2, true)) && Seizes(s, Reclaim(2, true))
    ensures exists steps, s ::
              && CleanRuns(INIT, steps, s) && Enabled(s, Reclaim(2, false)) && Holds(s, 1)
              && Seizes(s, Reclaim(2, false))
  {
    var s1 := Next(INIT, Begin(1));
    var s2 := Next(s1, Begin(2));
    var s3 := Next(s2, Create(1));
    var s4 := Next(s3, WriteOwner(1));
    CleanRunsExtend(INIT, [], INIT, Begin(1));
    CleanRunsExtend(INIT, [] + [Begin(1)], s1, Begin(2));
    CleanRunsExtend(INIT, [] + [Begin(1)] + [Begin(2)], s2, Create(1));
    CleanRunsExtend(INIT, [] + [Begin(1)] + [Begin(2)] + [Create(1)], s3, WriteOwner(1));
    assert Owns(s3, 1) && Owns(s4, 1);
  }

  lemma {:induction false} CleanRunsExtend(s: State, first: seq<Step>, t: State, step: Step)
    requires CleanRuns(s, first, t) && Enabled(t, step) && !Seizes(t, step)
    ensures CleanRuns(s, first + [step], Next(t, step))
    decreases |first|
  {
    if first == [] {
      assert [step][1..] == [];
    } else {
      CleanRunsExtend(Next(s, first[0]), first[1..], t, step);
      assert (first + [step])[1..] == first[1..] + [step];
    }
  }

  // ---- what a release and a reclaim do -------------------------------------

  /** In a clean execution a live holder's release frees the lock, read or not. */
  lemma ReleaseFrees(steps: seq<Step>, s: State, p: Pid, readOk: bool)
    requires CleanRuns(INIT, steps, s) && Holds(s, p)
    ensures Next(s, Release(p, readOk)).file.None? && !Claims(Next(s, Release(p, readOk)), p)
  {
    CleanRunKeepsInv(INIT, steps, s);
    assert Claims(s, p);
  }

  /** A holder that was robbed leaves the file of another owner, unless it cannot
      read it; and an empty one as well. */
  lemma RobbedReleaseLeaves(s: State, p: Pid)
    requires Enabled(s, Release(p, true)) && s.file.Some?
    requires s.file.value in s.owner ==> s.owner[s.file.value] != p
    ensures Next(s, Release(p, true)).file == s.file
    ensures Next(s, Release(p, false)).file.None?
  {
  }

  /** A crash leaves the file, and makes it any newcomer's to reclaim and take. */
  lemma CrashIsReclaimed(s: State, p: Pid, r: Pid) returns (t: State)
    requires Inv(s) && Owns(s, p) && r !in s.phase
    ensures p != r && Next(s, Crash(p)).file == s.file && !Claims(Next(s, Crash(p)), p)
    ensures CleanRuns(s, [Crash(p), Begin(r), Reclaim(r, true), Create(r), WriteOwner(r)], t)
    ensures Holds(t, r) && !Holds(t, p)
  {
    var s1 := Next(s, Crash(p));
    var s2 := Next(s1, Begin(r));
    assert !exists q :: Owns(s2, q) by {
      forall q ensures !Owns(s2, q) { if Owns(s2, q) { assert Claims(s, q); } }
    }
    var s3 := Next(s2, Reclaim(r, true));
    var s4 := Next(s3, Create(r));
    t := Next(s4, WriteOwner(r));
    var all := [Crash(p), Begin(r), Reclaim(r, true), Create(r), WriteOwner(r)];
    assert all[1..] == [Begin(r), Reclaim(r, true), Create(r), WriteOwner(r)];
    assert all[1..][1..] == [Reclaim(r, true), Create(r), WriteOwner(r)];
    assert all[1..][1..][1..] == [Create(r), WriteOwner(r)] && [Create(r), WriteOwner(r)][1..] == [WriteOwner(r)];
    assert [WriteOwner(r)][1..] == [];
    assert CleanRuns(s4, [WriteOwner(r)], t);
    assert CleanRuns(s3, all[1..][1..][1..], t);
    assert CleanRuns(s2, all[1..][1..], t);
    assert CleanRuns(s1, all[1..], t);
  }

  /** How many reclaims a process has left. */
  function ReclaimsLeft(s: State, p: Pid): nat {
    if p !in s.phase then 2
    else if s.phase[p].Trying? then (if s.phase[p].attempt == 0 then 2 else 1)
    else 0
  }

  /** How often the process tried to reclaim. */
  function Reclaims(steps: seq<Step>, p: Pid): nat {
    if steps == [] then 0
    else (if steps[0].Reclaim? && steps[0].p == p then 1 else 0) + Reclaims(steps[1..], p)
  }

  /** No process reclaims more than twice, whatever happens. */
  lemma {:induction false} TwoReclaimsAtMost(s: State, steps: seq<Step>, t: State, p: Pid)
    requires Runs(s, steps, t)
    ensures Reclaims(steps, p) + ReclaimsLeft(t, p) <= ReclaimsLeft(s, p)
    decreases |steps|
  {
    if steps != [] {
      TwoReclaimsAtMost(Next(s, steps[0]), steps[1..], t, p);
    }
  }
}
