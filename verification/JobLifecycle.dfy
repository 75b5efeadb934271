/** The life of job rows: dispatches that read the pause switch, read the gate,
    create the row and push it as separate actions; workers that load, mark and
    end a row; a polling worker that claims rows from the table; and the retry
    scan, which selects rows and later updates them one by one. */
module JobLifecycle {
  import opened Common
  import opened JobDispatch

  // ---- the system ----------------------------------------------------------

  /** A dispatch under way. */
  datatype Call =
    | Asked(r: Request)                   // nothing read yet
    | Unpaused(r: Request)                // the pause switch read, and off
    | Gated(r: Request)                   // the go-live gate read, and open
    | Refused(r: Request)                 // one of them said no
    | Created(r: Request, id: RowId)      // the row exists and is to be pushed
    | Done

  /** A worker on a row; `attempt` is the value it loaded.  A polling worker
      marks the row as it claims it. */
  datatype Exec = Exec(id: RowId, attempt: nat, marked: bool, polled: bool)

  datatype Picked = Picked(id: RowId, attempt: nat)

  /** The retry scan: rows selected and not yet updated. */
  datatype Scan = Idle | Requeueing(todo: seq<Picked>) | Burying(doomed: seq<RowId>)

  datatype State = State(
    rows: seq<Row>,
    queue: multiset<RowId>,    // messages not yet picked up
    pushes: seq<RowId>,        // every queue push so far
    calls: map<nat, Call>,
    execs: map<nat, Exec>,
    scan: Scan,
    ops: Ops,
    now: int)

  datatype Ending = Success | SomeUnitsFailed | RetryableError | OtherError | PermanentError

  datatype Step =
    | Dispatch(call: nat, request: Request)
    | ReadPause(call: nat)
    | ReadGate(call: nat)
    | Refuse(call: nat)
    | Create(call: nat)
    | Push(call: nat)
    | SetOps(ops: Ops)
    | Tick(seconds: nat)
    | WorkerLoad(worker: nat, id: RowId)
    | WorkerMark(worker: nat)
    | WorkerFinish(worker: nat, ending: Ending)
    | Claim(worker: nat, id: RowId)
    | SelectRetry(ids: seq<RowId>)
    | UpdateRetry(ok: bool)
    | SelectDead(ids: seq<RowId>)
    | UpdateDead(ok: bool)
    | EndScan
    | AdminRetry(id: RowId)

  /** The statuses a worker refuses to run. */
  predicate Settled(s: Status) {
    s in {Succeeded, PartialResult, Cancelled, DeadLettered}
  }

  /** The others. */
  const OPEN_STATUSES := {Queued, Running, Failed, FailedRetryable}

  lemma SettledIff(s: Status)
    ensures Settled(s) <==> s !in OPEN_STATUSES
  {
    match s { case Queued => case _ => }
  }

  const RETRY_WINDOW := 4 * 3600
  const RETRY_LIMIT := 5
  const DEAD_LIMIT := 10

  /** The scan's first query; a row that never finished has no `finishedAt`,
      and SQL comparison with NULL selects nothing. */
  predicate RetryEligible(row: Row, now: int) {
    row.status.FailedRetryable? && row.attempt < 2
    && row.finishedAt.Some? && row.finishedAt.value >= now - RETRY_WINDOW
  }

  /** The scan's second query. */
  predicate Exhausted(row: Row) {
    row.status.FailedRetryable? && row.attempt >= 2
  }

  /** A result of a limited query: distinct matching rows, and all of them
      unless the limit is reached. */
  ghost predicate Selected(ids: seq<RowId>, rows: seq<Row>, limit: nat, matches: Row -> bool) {
    && NoDup(ids) && |ids| <= limit
    && (forall i | i in ids :: i < |rows| && matches(rows[i]))
    && (|ids| < limit ==> forall i | 0 <= i < |rows| && matches(rows[i]) :: i in ids)
  }

  function PickAll(rows: seq<Row>, ids: seq<RowId>): (todo: seq<Picked>)
    requires forall i | i in ids :: i < |rows|
    ensures |todo| == |ids|
  {
    seq(|ids|, k requires 0 <= k < |ids| => (assert ids[k] in ids; Picked(ids[k], rows[ids[k]].attempt)))
  }

  /** A missing or zero limit is read as the default. */
  function Limit(row: Row): nat {
    if row.maxAttempts == 0 then DEFAULT_MAX_ATTEMPTS else row.maxAttempts
  }

  /** The row after a worker ends; `e.attempt` is what the worker loaded. */
  function Ended(row: Row, e: Exec, ending: Ending, now: int): Row {
    var dead := row.(status := DeadLettered, finishedAt := Some(now));
    match ending
    case Success => row.(status := Succeeded, finishedAt := Some(now))
    case SomeUnitsFailed => row.(status := if e.polled then Succeeded else PartialResult, finishedAt := Some(now))
    case PermanentError => dead
    case RetryableError =>
      if e.polled || (if e.attempt == 0 then 1 else e.attempt) + 1 < Limit(row) then row.(status := FailedRetryable)
      else dead
    case OtherError =>
      if !e.polled && e.attempt + 1 < Limit(row) then row.(status := FailedRetryable) else dead
  }

  /** Where a worker's ending leaves a row.  With the limit L (five when the row
      names none) a queue worker that loaded attempt a leaves an unexpected error
      retryable exactly for a + 1 < L, and an explicit retry request for the same
      save that a first attempt counts as the second; a polling worker leaves
      every retry request retryable and no other error.  Only a row left
      retryable has no new finish time. */
  lemma EndingMeaning(row: Row, e: Exec, ending: Ending, now: int)
    ensures var after := Ended(row, e, ending, now);
            var limit := if row.maxAttempts == 0 then 5 else row.maxAttempts;
            && (after.status.Succeeded? <==> ending.Success? || (ending.SomeUnitsFailed? && e.polled))
            && (after.status.PartialResult? <==> ending.SomeUnitsFailed? && !e.polled)
            && (after.status.FailedRetryable? <==>
                  || (ending.RetryableError? && (e.polled || (e.attempt + 1 < limit && (e.attempt == 0 ==> 2 < limit))))
                  || (ending.OtherError? && !e.polled && e.attempt + 1 < limit))
            && (after.status.DeadLettered? <==>
                  !after.status.Succeeded? && !after.status.PartialResult? && !after.status.FailedRetryable?)
            && after.finishedAt == (if after.status.FailedRetryable? then row.finishedAt else Some(now))
            && after.attempt == row.attempt && after.maxAttempts == row.maxAttempts
            && after.name == row.name && after.key == row.key
  {
  }

  /** The rows the polling worker's query admits. */
  predicate Claimable(row: Row) {
    row.status in {Queued, FailedRetryable} && row.attempt < row.maxAttempts
  }

  ghost predicate Enabled(s: State, step: Step) {
    match step
    case Dispatch(d, _) => d !in s.calls
    case ReadPause(d) => d in s.calls && s.calls[d].Asked?
    case ReadGate(d) => d in s.calls && s.calls[d].Unpaused?
    case Refuse(d) => d in s.calls && s.calls[d].Refused?
    case Create(d) => d in s.calls && s.calls[d].Gated?
    case Push(d) => d in s.calls && s.calls[d].Created?
    case WorkerLoad(w, id) => w !in s.execs && id in s.queue && id < |s.rows|
    case WorkerMark(w) => w in s.execs && !s.execs[w].marked && s.execs[w].id < |s.rows|
    case WorkerFinish(w, _) => w in s.execs && s.execs[w].marked && s.execs[w].id < |s.rows|
    case Claim(w, id) => w !in s.execs && id < |s.rows| && Claimable(s.rows[id])
    case SelectRetry(ids) => s.scan.Idle? && Selected(ids, s.rows, RETRY_LIMIT, row => RetryEligible(row, s.now))
    case UpdateRetry(_) => s.scan.Requeueing? && s.scan.todo != [] && s.scan.todo[0].id < |s.rows|
    case SelectDead(ids) => s.scan == Requeueing([]) && Selected(ids, s.rows, DEAD_LIMIT, Exhausted)
    case UpdateDead(_) => s.scan.Burying? && s.scan.doomed != [] && s.scan.doomed[0] < |s.rows|
    case EndScan => !s.scan.Idle?
    case AdminRetry(id) =>
      id < |s.rows| && s.rows[id].status in {DeadLettered, FailedRetryable, Cancelled, Succeeded}
    case _ => true
  }

  function Moved(s: State, d: nat, call: Call): State {
    s.(calls := s.calls[d := call])
  }

  function AfterCreate(s: State, d: nat): State
    requires d in s.calls && s.calls[d].Gated?
  {
    var r := s.calls[d].r;
    var (rows', id) := CreatedOrFound(s.rows, r.name, EffectiveKey(r), Queued);
    NewRowIsLast(s.rows, r.name, EffectiveKey(r), Queued);
    s.(rows := rows', calls := s.calls[d := if Terminal(rows'[id].status) then Done else Created(r, id)])
  }

  ghost function Next(s: State, step: Step): State
    requires Enabled(s, step)
  {
    match step
    case Dispatch(d, r) => Moved(s, d, Asked(r))
    case ReadPause(d) => Moved(s, d, if s.ops.paused then Refused(s.calls[d].r) else Unpaused(s.calls[d].r))
    case ReadGate(d) =>
      Moved(s, d, if GateOpen(s.ops, s.calls[d].r) then Gated(s.calls[d].r) else Refused(s.calls[d].r))
    case Refuse(d) =>
      Moved(s, d, Done).(rows := CreatedOrFound(s.rows, s.calls[d].r.name, s.calls[d].r.key, Cancelled).0)
    case Create(d) => AfterCreate(s, d)
    case Push(d) =>
      Moved(s, d, Done).(queue := s.queue + multiset{s.calls[d].id}, pushes := s.pushes + [s.calls[d].id])
    case SetOps(ops) => s.(ops := ops)
    case Tick(seconds) => s.(now := s.now + seconds)
    case WorkerLoad(w, id) =>
      var taken := s.(queue := s.queue - multiset{id});
      if Settled(s.rows[id].status) then taken
      else taken.(execs := s.execs[w := Exec(id, s.rows[id].attempt, false, false)])
    case WorkerMark(w) =>
      var e := s.execs[w];
      var row := s.rows[e.id];
      s.(rows := s.rows[e.id := row.(status := Running, attempt := row.attempt + 1)],
         execs := s.execs[w := e.(marked := true)])
    case WorkerFinish(w, ending) =>
      var e := s.execs[w];
      s.(rows := s.rows[e.id := Ended(s.rows[e.id], e, ending, s.now)], execs := s.execs - {w})
    case Claim(w, id) =>
      var row := s.rows[id];
      s.(rows := s.rows[id := row.(status := Running, attempt := row.attempt + 1)],
         execs := s.execs[w := Exec(id, row.attempt + 1, true, true)])
    case SelectRetry(ids) => s.(scan := Requeueing(PickAll(s.rows, ids)))
    case UpdateRetry(ok) =>
      // the update names the row by id alone, and writes the attempt it selected plus one
      var p := s.scan.todo[0];
      s.(rows := if ok then s.rows[p.id := s.rows[p.id].(status := Queued, attempt := p.attempt + 1)] else s.rows,
         scan := Requeueing(s.scan.todo[1..]))
    case SelectDead(ids) => s.(scan := Burying(ids))
    case UpdateDead(ok) =>
      var id := s.scan.doomed[0];
      s.(rows := if ok then s.rows[id := s.rows[id].(status := DeadLettered)] else s.rows,
         scan := Burying(s.scan.doomed[1..]))
    case EndScan => s.(scan := Idle)
    case AdminRetry(id) =>
      s.(rows := s.rows[id := s.rows[id].(status := Queued, attempt := 0)],
         queue := s.queue + multiset{id}, pushes := s.pushes + [id])
  }

  ghost predicate Runs(s: State, steps: seq<Step>, t: State)
    decreases |steps|
  {
    if steps == [] then s == t
    else Enabled(s, steps[0]) && Runs(Next(s, steps[0]), steps[1..], t)
  }

  // ---- runs ----------------------------------------------------------------

  lemma {:induction false} RunsJoin(s: State, first: seq<Step>, t: State, more: seq<Step>, u: State)
    requires Runs(s, first, t) && Runs(t, more, u)
    ensures Runs(s, first + more, u)
    decreases |first|
  {
    if first == [] {
      assert first + more == more;
    } else {
      RunsJoin(Next(s, first[0]), first[1..], t, more, u);
      assert (first + more)[1..] == first[1..] + more;
    }
  }

  lemma OneStep(s: State, step: Step)
    requires Enabled(s, step)
    ensures Runs(s, [step], Next(s, step))
  {
    assert [step][1..] == [];
  }

  lemma RunsExtend(s: State, steps: seq<Step>, t: State, step: Step)
    requires Runs(s, steps, t) && Enabled(t, step)
    ensures Runs(s, steps + [step], Next(t, step))
  {
    OneStep(t, step);
    RunsJoin(s, steps, t, [step], Next(t, step));
  }

  lemma {:induction false} RunsSplitLast(s: State, steps: seq<Step>, t: State) returns (u: State)
    requires Runs(s, steps, t) && steps != []
    ensures var n := |steps| - 1;
            Runs(s, steps[..n], u) && Enabled(u, steps[n]) && t == Next(u, steps[n])
    decreases |steps|
  {
    var n := |steps| - 1;
    if n == 0 {
      u := s;
      assert steps[1..] == [];
    } else {
      u := RunsSplitLast(Next(s, steps[0]), steps[1..], t);
      assert steps[1..][..n - 1] == steps[..n][1..];
    }
  }

  // ---- well-formed states --------------------------------------------------

  ghost predicate WorkersValid(s: State) {
    forall w | w in s.execs :: s.execs[w].id < |s.rows|
  }

  /** The row has the name and key the request asks for. */
  predicate IsRowOf(row: Row, r: Request) {
    row.name == r.name && row.key == EffectiveKey(r)
  }

  ghost predicate CallsValid(s: State) {
    forall d | d in s.calls && s.calls[d].Created? ::
      s.calls[d].id < |s.rows| && IsRowOf(s.rows[s.calls[d].id], s.calls[d].r)
  }

  ghost predicate ScanValid(s: State) {
    match s.scan
    case Idle => true
    case Requeueing(todo) =>
      && (forall k | 0 <= k < |todo| :: todo[k].id < |s.rows| && todo[k].attempt < 2)
      && (forall j, k | 0 <= j < k < |todo| :: todo[j].id != todo[k].id)
    case Burying(doomed) => NoDup(doomed) && forall id | id in doomed :: id < |s.rows|
  }

  /** What every reachable state keeps: whoever holds a row holds one that
      exists, a call the row of its own name and key; and the scan's selection
      has no row twice and none out of attempts. */
  ghost predicate WellFormed(s: State) {
    WorkersValid(s) && CallsValid(s) && ScanValid(s)
  }

  lemma StepKeepsRows(s: State, step: Step)
    requires Enabled(s, step)
    ensures |s.rows| <= |Next(s, step).rows|
    ensures forall i | 0 <= i < |s.rows| ::
              Next(s, step).rows[i].name == s.rows[i].name && Next(s, step).rows[i].key == s.rows[i].key
    ensures UniqueKeys(s.rows) ==> UniqueKeys(Next(s, step).rows)
  {
  }

  lemma StepKeepsWorkers(s: State, step: Step)
    requires WorkersValid(s) && Enabled(s, step)
    ensures WorkersValid(Next(s, step))
  {
    StepKeepsRows(s, step);
  }

  lemma CreatedIsRowOf(s: State, d: nat)
    requires Enabled(s, Create(d)) && AfterCreate(s, d).calls[d].Created?
    ensures var t := AfterCreate(s, d);
            t.calls[d].id < |t.rows| && IsRowOf(t.rows[t.calls[d].id], t.calls[d].r)
  {
    NewRowIsLast(s.rows, s.calls[d].r.name, EffectiveKey(s.calls[d].r), Queued);
  }

  /** The call a step is about. */
  predicate ActsOn(step: Step, d: nat) {
    match step
    case Dispatch(c, _) => c == d
    case ReadPause(c) => c == d
    case ReadGate(c) => c == d
    case Refuse(c) => c == d
    case Create(c) => c == d
    case Push(c) => c == d
    case _ => false
  }

  lemma OtherCallsStay(s: State, step: Step, d: nat)
    requires Enabled(s, step) && !ActsOn(step, d)
    ensures d in Next(s, step).calls <==> d in s.calls
    ensures d in s.calls ==> Next(s, step).calls[d] == s.calls[d]
  {
  }

  lemma StepKeepsCalls(s: State, step: Step)
    requires CallsValid(s) && Enabled(s, step)
    ensures CallsValid(Next(s, step))
  {
    var t := Next(s, step);
    StepKeepsRows(s, step);
    forall d | d in t.calls && t.calls[d].Created?
      ensures t.calls[d].id < |t.rows| && IsRowOf(t.rows[t.calls[d].id], t.calls[d].r)
    {
      if !ActsOn(step, d) { OtherCallsStay(s, step, d); } else if step.Create? { CreatedIsRowOf(s, d); }
    }
  }

  lemma SelectionIsValid(s: State, ids: seq<RowId>)
    requires Selected(ids, s.rows, RETRY_LIMIT, row => RetryEligible(row, s.now))
    ensures forall k | 0 <= k < |ids| :: ids[k] < |s.rows| && s.rows[ids[k]].attempt < 2
    ensures ScanValid(s.(scan := Requeueing(PickAll(s.rows, ids))))
  {
    forall k | 0 <= k < |ids| ensures ids[k] < |s.rows| && s.rows[ids[k]].attempt < 2 { assert ids[k] in ids; }
  }

  lemma TailIsValid(s: State)
    requires ScanValid(s) && s.scan.Burying? && s.scan.doomed != []
    ensures ScanValid(s.(scan := Burying(s.scan.doomed[1..])))
  {
    assert forall id | id in s.scan.doomed[1..] :: id in s.scan.doomed;
  }

  /** Whether a scan is valid depends on the number of rows only. */
  lemma ScanStaysValid(s: State, t: State)
    requires ScanValid(s) && t.scan == s.scan && |s.rows| <= |t.rows|
    ensures ScanValid(t)
  {
  }

  lemma StepKeepsScanValid(s: State, step: Step)
    requires ScanValid(s) && Enabled(s, step)
    ensures ScanValid(Next(s, step))
  {
    StepKeepsRows(s, step);
    var t := Next(s, step);
    match step {
      case SelectRetry(ids) => SelectionIsValid(s, ids);
      case UpdateDead(_) =>
        TailIsValid(s);
        ScanStaysValid(s.(scan := Burying(s.scan.doomed[1..])), t);
      case UpdateRetry(_) =>
      case SelectDead(_) =>
      case EndScan =>
      case _ => ScanStaysValid(s, t);
    }
  }

  lemma StepKeepsWellFormed(s: State, step: Step)
    requires WellFormed(s) && Enabled(s, step)
    ensures WellFormed(Next(s, step))
  {
    StepKeepsWorkers(s, step);
    StepKeepsCalls(s, step);
    StepKeepsScanValid(s, step);
  }

  /** Over every run, rows are never deleted or renamed and a (name, key) pair
      has at most one row. */
  lemma {:induction false} KeysStayUnique(s: State, steps: seq<Step>, t: State)
    requires UniqueKeys(s.rows) && Runs(s, steps, t)
    ensures UniqueKeys(t.rows) && |s.rows| <= |t.rows|
    ensures forall i | 0 <= i < |s.rows| :: t.rows[i].name == s.rows[i].name && t.rows[i].key == s.rows[i].key
    decreases |steps|
  {
    if steps != [] {
      StepKeepsRows(s, steps[0]);
      KeysStayUnique(Next(s, steps[0]), steps[1..], t);
    }
  }

  lemma {:induction false} RunKeepsWellFormed(s: State, steps: seq<Step>, t: State)
    requires WellFormed(s) && Runs(s, steps, t)
    ensures WellFormed(t)
    decreases |steps|
  {
    if steps != [] {
      StepKeepsWellFormed(s, steps[0]);
      RunKeepsWellFormed(Next(s, steps[0]), steps[1..], t);
    }
  }

  // ---- who may push --------------------------------------------------------

  lemma OnlyPushAndAdminPush(s: State, step: Step)
    requires Enabled(s, step)
    ensures Next(s, step).pushes ==
            match step
            case Push(d) => s.pushes + [s.calls[d].id]
            case AdminRetry(id) => s.pushes + [id]
            case _ => s.pushes
  {
  }

  lemma {:induction false} PushesExtend(s: State, steps: seq<Step>, t: State)
    requires Runs(s, steps, t)
    ensures s.pushes <= t.pushes
    decreases |steps|
  {
    if steps != [] {
      OnlyPushAndAdminPush(s, steps[0]);
      PushesExtend(Next(s, steps[0]), steps[1..], t);
    }
  }

  /** Step `k` of the run was taken in state `u`. */
  ghost predicate TakenIn(s: State, steps: seq<Step>, k: nat, u: State) {
    k < |steps| && Runs(s, steps[..k], u) && Enabled(u, steps[k])
  }

  /** The call read the pause switch when it was off. */
  ghost predicate SawUnpaused(s: State, steps: seq<Step>, d: nat, r: Request) {
    exists k: nat, u :: TakenIn(s, steps, k, u) && steps[k] == ReadPause(d) && u.calls[d] == Asked(r) && !u.ops.paused
  }

  /** The call, by then unpaused, read the go-live gate when it was open to it. */
  ghost predicate SawGateOpen(s: State, steps: seq<Step>, d: nat, r: Request) {
    exists k: nat, u ::
      TakenIn(s, steps, k, u) && steps[k] == ReadGate(d) && u.calls[d] == Unpaused(r) && GateOpen(u.ops, r)
  }

  /** The call, by then through both gates, made or found the row, not terminal. */
  ghost predicate SawRowOpen(s: State, steps: seq<Step>, d: nat, r: Request, id: RowId) {
    exists k: nat, u ::
      && TakenIn(s, steps, k, u) && steps[k] == Create(d) && u.calls[d] == Gated(r)
      && AfterCreate(u, d).calls[d] == Created(r, id)
  }

  ghost predicate CallOk(s: State, steps: seq<Step>, d: nat, call: Call) {
    match call
    case Unpaused(r) => SawUnpaused(s, steps, d, r)
    case Gated(r) => SawUnpaused(s, steps, d, r) && SawGateOpen(s, steps, d, r)
    case Created(r, id) => SawUnpaused(s, steps, d, r) && SawGateOpen(s, steps, d, r) && SawRowOpen(s, steps, d, r, id)
    case _ => true
  }

  lemma TakenGrows(s: State, front: seq<Step>, step: Step, k: nat, u: State)
    requires TakenIn(s, front, k, u)
    ensures TakenIn(s, front + [step], k, u) && (front + [step])[k] == front[k]
  {
    assert (front + [step])[..k] == front[..k];
  }

  lemma SawUnpausedGrows(s: State, front: seq<Step>, step: Step, d: nat, r: Request)
    requires SawUnpaused(s, front, d, r)
    ensures SawUnpaused(s, front + [step], d, r)
  {
    var k: nat, u :| TakenIn(s, front, k, u) && front[k] == ReadPause(d) && u.calls[d] == Asked(r) && !u.ops.paused;
    TakenGrows(s, front, step, k, u);
  }

  lemma SawGateOpenGrows(s: State, front: seq<Step>, step: Step, d: nat, r: Request)
    requires SawGateOpen(s, front, d, r)
    ensures SawGateOpen(s, front + [step], d, r)
  {
    var k: nat, u :| TakenIn(s, front, k, u) && front[k] == ReadGate(d)
                     && u.calls[d] == Unpaused(r) && GateOpen(u.ops, r);
    TakenGrows(s, front, step, k, u);
  }

  lemma SawRowOpenGrows(s: State, front: seq<Step>, step: Step, d: nat, r: Request, id: RowId)
    requires SawRowOpen(s, front, d, r, id)
    ensures SawRowOpen(s, front + [step], d, r, id)
  {
    var k: nat, u :| && TakenIn(s, front, k, u) && front[k] == Create(d) && u.calls[d] == Gated(r)
                     && AfterCreate(u, d).calls[d] == Created(r, id);
    TakenGrows(s, front, step, k, u);
  }

  lemma CallOkGrows(s: State, front: seq<Step>, step: Step, d: nat, call: Call)
    requires CallOk(s, front, d, call)
    ensures CallOk(s, front + [step], d, call)
  {
    match call {
      case Unpaused(r) => SawUnpausedGrows(s, front, step, d, r);
      case Gated(r) =>
        SawUnpausedGrows(s, front, step, d, r);
        SawGateOpenGrows(s, front, step, d, r);
      case Created(r, id) =>
        SawUnpausedGrows(s, front, step, d, r);
        SawGateOpenGrows(s, front, step, d, r);
        SawRowOpenGrows(s, front, step, d, r, id);
      case _ =>
    }
  }

  lemma LastTaken(s: State, front: seq<Step>, u: State, step: Step)
    requires Runs(s, front, u) && Enabled(u, step)
    ensures TakenIn(s, front + [step], |front|, u) && (front + [step])[|front|] == step
  {
    assert (front + [step])[..|front|] == front;
  }

  lemma PauseReadOk(s: State, front: seq<Step>, u: State, d: nat)
    requires Runs(s, front, u) && Enabled(u, ReadPause(d))
    ensures CallOk(s, front + [ReadPause(d)], d, Next(u, ReadPause(d)).calls[d])
  {
    LastTaken(s, front, u, ReadPause(d));
  }

  lemma GateReadOk(s: State, front: seq<Step>, u: State, d: nat)
    requires Runs(s, front, u) && Enabled(u, ReadGate(d)) && CallOk(s, front, d, u.calls[d])
    ensures CallOk(s, front + [ReadGate(d)], d, Next(u, ReadGate(d)).calls[d])
  {
    SawUnpausedGrows(s, front, ReadGate(d), d, u.calls[d].r);
    LastTaken(s, front, u, ReadGate(d));
  }

  lemma CreateSeesRow(s: State, front: seq<Step>, u: State, d: nat, id: RowId)
    requires Runs(s, front, u) && Enabled(u, Create(d)) && AfterCreate(u, d).calls[d] == Created(u.calls[d].r, id)
    ensures SawRowOpen(s, front + [Create(d)], d, u.calls[d].r, id)
  {
    LastTaken(s, front, u, Create(d));
  }

  lemma CreateOk(s: State, front: seq<Step>, u: State, d: nat)
    requires Runs(s, front, u) && Enabled(u, Create(d)) && CallOk(s, front, d, u.calls[d])
    ensures CallOk(s, front + [Create(d)], d, AfterCreate(u, d).calls[d])
  {
    var call := AfterCreate(u, d).calls[d];
    if call.Created? {
      SawUnpausedGrows(s, front, Create(d), d, call.r);
      SawGateOpenGrows(s, front, Create(d), d, call.r);
      CreateSeesRow(s, front, u, d, call.id);
    }
  }

  /** Dispatch, refuse and push leave a call that has nothing to show. */
  lemma EndsOfCallOk(s: State, front: seq<Step>, u: State, step: Step, d: nat)
    requires Enabled(u, step) && ActsOn(step, d) && (step.Dispatch? || step.Refuse? || step.Push?)
    ensures CallOk(s, front + [step], d, Next(u, step).calls[d])
  {
  }

  lemma LastStepOk(s: State, front: seq<Step>, u: State, step: Step, d: nat)
    requires Runs(s, front, u) && Enabled(u, step) && d in Next(u, step).calls
    requires d in u.calls ==> CallOk(s, front, d, u.calls[d])
    ensures CallOk(s, front + [step], d, Next(u, step).calls[d])
  {
    if !ActsOn(step, d) {
      OtherCallsStay(u, step, d);
      CallOkGrows(s, front, step, d, u.calls[d]);
    } else if step.ReadPause? {
      PauseReadOk(s, front, u, d);
    } else if step.ReadGate? {
      GateReadOk(s, front, u, d);
    } else if step.Create? {
      CreateOk(s, front, u, d);
    } else {
      EndsOfCallOk(s, front, u, step, d);
    }
  }

  /** Every call under way has passed the tests it is past. */
  lemma {:induction false} CallsAreGated(s: State, steps: seq<Step>, t: State, d: nat)
    requires Runs(s, steps, t) && s.calls == map[] && d in t.calls
    ensures CallOk(s, steps, d, t.calls[d])
    decreases |steps|
  {
    if steps != [] {
      var n := |steps| - 1;
      var u := RunsSplitLast(s, steps, t);
      if d in u.calls { CallsAreGated(s, steps[..n], u, d); }
      LastStepOk(s, steps[..n], u, steps[n], d);
      assert steps == steps[..n] + [steps[n]];
    }
  }

  lemma {:induction false} PushStep(s: State, steps: seq<Step>, t: State, i: nat) returns (k: nat, u: State)
    requires Runs(s, steps, t) && |s.pushes| <= i < |t.pushes|
    ensures TakenIn(s, steps, k, u)
    ensures |u.pushes| == i && Next(u, steps[k]).pushes == u.pushes + [t.pushes[i]]
    decreases |steps|
  {
    var n := Next(s, steps[0]);
    OnlyPushAndAdminPush(s, steps[0]);
    if i < |n.pushes| {
      k, u := 0, s;
      PushesExtend(n, steps[1..], t);
      assert n.pushes[i] == t.pushes[i];
    } else {
      k, u := PushStep(n, steps[1..], t, i);
      k := k + 1;
      assert steps[..k][1..] == steps[1..][..k - 1];
    }
  }

  /** Over every run from a state with no dispatch under way: each push was made
      by a call that earlier read the pause switch off, then the gate open, then
      found its row open; or by an administrator's retry. */
  lemma EveryPushWasGated(s: State, steps: seq<Step>, t: State, i: nat) returns (k: nat, u: State)
    requires Runs(s, steps, t) && s.calls == map[] && |s.pushes| <= i < |t.pushes|
    ensures TakenIn(s, steps, k, u) && |u.pushes| == i && Next(u, steps[k]).pushes == u.pushes + [t.pushes[i]]
    ensures match steps[k]
            case Push(d) =>
              && u.calls[d].id == t.pushes[i]
              && SawUnpaused(s, steps[..k], d, u.calls[d].r) && SawGateOpen(s, steps[..k], d, u.calls[d].r)
              && SawRowOpen(s, steps[..k], d, u.calls[d].r, t.pushes[i])
            case AdminRetry(id) => id == t.pushes[i]
            case _ => false
  {
    k, u := PushStep(s, steps, t, i);
    OnlyPushAndAdminPush(u, steps[k]);
    assert |Next(u, steps[k]).pushes| == |u.pushes| + 1;
    if steps[k].Push? {
      var d := steps[k].call;
      assert u.pushes + [t.pushes[i]] == u.pushes + [u.calls[d].id];
      assert (u.pushes + [t.pushes[i]])[i] == (u.pushes + [u.calls[d].id])[i];
      CallsAreGated(s, steps[..k], u, d);
    } else if steps[k].AdminRetry? {
      assert (u.pushes + [t.pushes[i]])[i] == (u.pushes + [steps[k].id])[i];
    }
  }

  /** A pause stops the calls that have not read it, and no others: one that has
      made its row pushes it under the pause. */
  lemma PauseDoesNotRecall(s: State, d: nat, ops: Ops) returns (t: State)
    requires d in s.calls && s.calls[d].Created?
    ensures Runs(s, [SetOps(ops), Push(d)], t) && t.ops == ops && t.pushes == s.pushes + [s.calls[d].id]
  {
    var u := Next(s, SetOps(ops));
    t := Next(u, Push(d));
    OneStep(s, SetOps(ops));
    RunsExtend(s, [SetOps(ops)], u, Push(d));
    assert [SetOps(ops)] + [Push(d)] == [SetOps(ops), Push(d)];
  }

  /** The steps of one call with nobody in between. */
  function CallSteps(s: State, d: nat, r: Request): seq<Step> {
    [Dispatch(d, r), ReadPause(d)]
    + if s.ops.paused then [Refuse(d)]
      else if !GateOpen(s.ops, r) then [ReadGate(d), Refuse(d)]
      else [ReadGate(d), Create(d)] + if Dispatched(s.rows, s.ops, r).1.Some? then [Push(d)] else []
  }

  /** Its outcome is that of the dispatch method. */
  function AfterCall(s: State, d: nat, r: Request): State {
    var (rows', pushed) := Dispatched(s.rows, s.ops, r);
    s.(rows := rows', calls := s.calls[d := Done],
       queue := if pushed.Some? then s.queue + multiset{pushed.value} else s.queue,
       pushes := if pushed.Some? then s.pushes + [pushed.value] else s.pushes)
  }

  /** A call's first read. */
  lemma CallStarts(s: State, d: nat, r: Request)
    requires d !in s.calls
    ensures Runs(s, [Dispatch(d, r), ReadPause(d)], Moved(s, d, if s.ops.paused then Refused(r) else Unpaused(r)))
  {
    var asked := Moved(s, d, Asked(r));
    OneStep(s, Dispatch(d, r));
    assert Next(asked, ReadPause(d)) == Moved(s, d, if s.ops.paused then Refused(r) else Unpaused(r));
    RunsExtend(s, [Dispatch(d, r)], asked, ReadPause(d));
    assert [Dispatch(d, r)] + [ReadPause(d)] == [Dispatch(d, r), ReadPause(d)];
  }

  /** And its second, if the first let it through. */
  lemma CallReads(s: State, d: nat, r: Request)
    requires d !in s.calls && !s.ops.paused
    ensures Runs(s, [Dispatch(d, r), ReadPause(d), ReadGate(d)],
                 Moved(s, d, if GateOpen(s.ops, r) then Gated(r) else Refused(r)))
  {
    var unpaused := Moved(s, d, Unpaused(r));
    CallStarts(s, d, r);
    assert Next(unpaused, ReadGate(d)) == Moved(s, d, if GateOpen(s.ops, r) then Gated(r) else Refused(r));
    RunsExtend(s, [Dispatch(d, r), ReadPause(d)], unpaused, ReadGate(d));
    assert [Dispatch(d, r), ReadPause(d)] + [ReadGate(d)] == [Dispatch(d, r), ReadPause(d), ReadGate(d)];
  }

  lemma CallRefused(s: State, d: nat, r: Request)
    requires d !in s.calls && !GatesPass(s.ops, r)
    ensures Runs(s, CallSteps(s, d, r), AfterCall(s, d, r))
  {
    var refused := Moved(s, d, Refused(r));
    var steps := if s.ops.paused then [Dispatch(d, r), ReadPause(d)] else [Dispatch(d, r), ReadPause(d), ReadGate(d)];
    if s.ops.paused { CallStarts(s, d, r); } else { CallReads(s, d, r); }
    RunsExtend(s, steps, refused, Refuse(d));
    assert Next(refused, Refuse(d)) == AfterCall(s, d, r);
    assert steps + [Refuse(d)] == CallSteps(s, d, r);
  }

  /** The steps of a call past the gates. */
  function OpenSteps(s: State, d: nat, r: Request): seq<Step> {
    [Create(d)] + if Dispatched(s.rows, s.ops, r).1.Some? then [Push(d)] else []
  }

  lemma CallGoesThrough(s: State, d: nat, r: Request)
    requires GatesPass(s.ops, r)
    ensures Runs(Moved(s, d, Gated(r)), OpenSteps(s, d, r), AfterCall(s, d, r))
  {
    var gated := Moved(s, d, Gated(r));
    var made := AfterCreate(gated, d);
    OneStep(gated, Create(d));
    var pushed := Dispatched(s.rows, s.ops, r).1;
    if pushed.Some? {
      assert made.calls[d] == Created(r, pushed.value);
      RunsExtend(gated, [Create(d)], made, Push(d));
      assert Next(made, Push(d)) == AfterCall(s, d, r);
    } else {
      assert made == AfterCall(s, d, r);
    }
  }

  lemma CallAccepted(s: State, d: nat, r: Request)
    requires d !in s.calls && GatesPass(s.ops, r)
    ensures Runs(s, CallSteps(s, d, r), AfterCall(s, d, r))
  {
    var first := [Dispatch(d, r), ReadPause(d), ReadGate(d)];
    CallReads(s, d, r);
    CallGoesThrough(s, d, r);
    RunsJoin(s, first, Moved(s, d, Gated(r)), OpenSteps(s, d, r), AfterCall(s, d, r));
    assert first + OpenSteps(s, d, r) == CallSteps(s, d, r);
  }

  /** A call with nobody in between does what the dispatch method does. */
  lemma UninterruptedCall(s: State, d: nat, r: Request)
    requires d !in s.calls
    ensures Runs(s, CallSteps(s, d, r), AfterCall(s, d, r))
  {
    if GatesPass(s.ops, r) { CallAccepted(s, d, r); } else { CallRefused(s, d, r); }
  }

  // ---- settled rows --------------------------------------------------------

  function Count(ids: seq<RowId>, id: RowId): nat {
    multiset(ids)[id]
  }

  ghost predicate NoWorkerHas(s: State, id: RowId) {
    forall w | w in s.execs :: s.execs[w].id != id
  }

  ghost predicate NoCallHas(s: State, id: RowId) {
    forall d | d in s.calls && s.calls[d].Created? :: s.calls[d].id != id
  }

  ghost predicate ScanLeaves(s: State, id: RowId) {
    && (s.scan.Requeueing? ==> forall k | 0 <= k < |s.scan.todo| :: s.scan.todo[k].id != id)
    && (s.scan.Burying? && id in s.scan.doomed ==> id < |s.rows| && s.rows[id].status.DeadLettered?)
  }

  /** Nobody holds the row: no worker has loaded it, no dispatch is about to
      push it, and the scan is not about to change it. */
  ghost predicate Quiet(s: State, id: RowId) {
    NoWorkerHas(s, id) && NoCallHas(s, id) && ScanLeaves(s, id)
  }

  /** The row is as it was and has not been pushed again. */
  ghost predicate Untouched(s: State, t: State, id: RowId) {
    && id < |s.rows| <= |t.rows| && t.rows[id] == s.rows[id]
    && Count(t.pushes, id) == Count(s.pushes, id)
  }

  /** The step does not take hold of the row. */
  ghost predicate LeftAlone(s: State, step: Step, id: RowId) {
    && id < |s.rows| && Terminal(s.rows[id].status)
    && !RetryEligible(s.rows[id], s.now) && !Exhausted(s.rows[id])
    && (step.Claim? ==> step.id != id)
    && (step.WorkerLoad? && step.id == id ==> Settled(s.rows[id].status))
  }

  lemma StepKeepsWorkersOff(s: State, step: Step, id: RowId)
    requires Enabled(s, step) && NoWorkerHas(s, id) && LeftAlone(s, step, id)
    ensures NoWorkerHas(Next(s, step), id)
  {
  }

  /** A call for a terminal row is not about to push it. */
  lemma CreatePassesTerminal(s: State, d: nat, id: RowId)
    requires Enabled(s, Create(d)) && id < |s.rows| && Terminal(s.rows[id].status)
    ensures AfterCreate(s, d).calls[d].Created? ==> AfterCreate(s, d).calls[d].id != id
  {
    NewRowIsLast(s.rows, s.calls[d].r.name, EffectiveKey(s.calls[d].r), Queued);
  }

  lemma StepKeepsCallsOff(s: State, step: Step, id: RowId)
    requires Enabled(s, step) && NoCallHas(s, id) && LeftAlone(s, step, id)
    ensures NoCallHas(Next(s, step), id)
  {
    var t := Next(s, step);
    forall d | d in t.calls && t.calls[d].Created? ensures t.calls[d].id != id {
      if !ActsOn(step, d) { OtherCallsStay(s, step, d); } else if step.Create? { CreatePassesTerminal(s, d, id); }
    }
  }

  lemma StepKeepsScanOff(s: State, step: Step, id: RowId)
    requires Enabled(s, step) && ScanLeaves(s, id) && LeftAlone(s, step, id) && Next(s, step).rows[id] == s.rows[id]
    ensures ScanLeaves(Next(s, step), id)
  {
    match step {
      case SelectRetry(ids) => forall k | 0 <= k < |ids| ensures ids[k] != id { assert ids[k] in ids; }
      case UpdateDead(_) => assert forall x | x in s.scan.doomed[1..] :: x in s.scan.doomed;
      case _ =>
    }
  }

  lemma StepKeepsQuiet(s: State, step: Step, id: RowId)
    requires Enabled(s, step) && Quiet(s, id) && LeftAlone(s, step, id) && Next(s, step).rows[id] == s.rows[id]
    ensures Quiet(Next(s, step), id)
  {
    StepKeepsWorkersOff(s, step, id);
    StepKeepsCallsOff(s, step, id);
    StepKeepsScanOff(s, step, id);
  }

  lemma StepKeepsSettled(s: State, step: Step, id: RowId)
    requires Enabled(s, step) && id < |s.rows| && Settled(s.rows[id].status) && Quiet(s, id)
    requires step != AdminRetry(id)
    ensures Untouched(s, Next(s, step), id)
  {
    OnlyPushAndAdminPush(s, step);
    StepKeepsRows(s, step);
    if step.UpdateDead? { assert s.scan.doomed[0] in s.scan.doomed; }
  }

  /** Once a row has succeeded, partly failed, been cancelled or been dead-
      lettered, and nobody holds it, it is never changed and never pushed again
      by any mix of dispatches, workers and scans. */
  lemma {:induction false} SettledForever(s: State, steps: seq<Step>, t: State, id: RowId)
    requires Runs(s, steps, t) && id < |s.rows| && s.rows[id].status !in OPEN_STATUSES && Quiet(s, id)
    requires AdminRetry(id) !in steps
    ensures Untouched(s, t, id) && Quiet(t, id)
    decreases |steps|
  {
    if steps != [] {
      SettledIff(s.rows[id].status);
      StepKeepsSettled(s, steps[0], id);
      StepKeepsQuiet(s, steps[0], id);
      assert forall x | x in steps[1..] :: x in steps;
      SettledForever(Next(s, steps[0]), steps[1..], t, id);
    }
  }

  lemma WorkerTouches(s: State, w: nat) returns (step: Step)
    requires w in s.execs && s.execs[w].id < |s.rows| && Settled(s.rows[s.execs[w].id].status)
    ensures Enabled(s, step) && (step.WorkerMark? || step.WorkerFinish?)
    ensures Next(s, step).rows[s.execs[w].id] != s.rows[s.execs[w].id]
  {
    var row := s.rows[s.execs[w].id];
    step := if !s.execs[w].marked then WorkerMark(w)
            else WorkerFinish(w, if row.status.Succeeded? then PermanentError else Success);
  }

  lemma {:induction false} RequeueTouches(s: State, k: nat) returns (steps: seq<Step>, t: State)
    requires WellFormed(s) && s.scan.Requeueing? && k < |s.scan.todo|
    ensures Runs(s, steps, t) && forall step | step in steps :: step.UpdateRetry?
    ensures |t.rows| == |s.rows| && t.rows[s.scan.todo[k].id].status.Queued?
    decreases k
  {
    if k == 0 {
      steps, t := [UpdateRetry(true)], Next(s, UpdateRetry(true));
      OneStep(s, UpdateRetry(true));
    } else {
      var n := Next(s, UpdateRetry(false));
      var rest;
      rest, t := RequeueTouches(n, k - 1);
      steps := [UpdateRetry(false)] + rest;
      assert steps[1..] == rest;
    }
  }

  lemma {:induction false} BuryTouches(s: State, k: nat) returns (steps: seq<Step>, t: State)
    requires WellFormed(s) && s.scan.Burying? && k < |s.scan.doomed|
    ensures Runs(s, steps, t) && forall step | step in steps :: step.UpdateDead?
    ensures |t.rows| == |s.rows| && s.scan.doomed[k] < |t.rows| && t.rows[s.scan.doomed[k]].status.DeadLettered?
    decreases k
  {
    assert s.scan.doomed[0] in s.scan.doomed;
    if k == 0 {
      steps, t := [UpdateDead(true)], Next(s, UpdateDead(true));
      OneStep(s, UpdateDead(true));
    } else {
      var n := Next(s, UpdateDead(false));
      assert forall x | x in s.scan.doomed[1..] :: x in s.scan.doomed;
      var rest;
      rest, t := BuryTouches(n, k - 1);
      steps := [UpdateDead(false)] + rest;
      assert steps[1..] == rest;
    }
  }

  /** The converse: whoever holds a settled row can change it or push it. */
  lemma HeldIsTouched(s: State, id: RowId) returns (steps: seq<Step>, t: State)
    requires WellFormed(s) && id < |s.rows| && Settled(s.rows[id].status) && !Quiet(s, id)
    ensures Runs(s, steps, t) && AdminRetry(id) !in steps && !Untouched(s, t, id)
  {
    if w :| w in s.execs && s.execs[w].id == id {
      var step := WorkerTouches(s, w);
      OneStep(s, step);
      steps, t := [step], Next(s, step);
    } else if d :| d in s.calls && s.calls[d].Created? && s.calls[d].id == id {
      OneStep(s, Push(d));
      steps, t := [Push(d)], Next(s, Push(d));
    } else if s.scan.Requeueing? {
      var k :| 0 <= k < |s.scan.todo| && s.scan.todo[k].id == id;
      steps, t := RequeueTouches(s, k);
    } else {
      var k :| 0 <= k < |s.scan.doomed| && s.scan.doomed[k] == id;
      steps, t := BuryTouches(s, k);
    }
  }

  /** No run without an administrator's retry of the row changes or pushes it. */
  ghost predicate UntouchedForever(s: State, id: RowId) {
    forall steps, t | Runs(s, steps, t) && AdminRetry(id) !in steps :: Untouched(s, t, id)
  }

  lemma QuietIsUntouched(s: State, id: RowId)
    requires id < |s.rows| && s.rows[id].status !in OPEN_STATUSES && Quiet(s, id)
    ensures UntouchedForever(s, id)
  {
    forall steps, t | Runs(s, steps, t) && AdminRetry(id) !in steps ensures Untouched(s, t, id) {
      SettledForever(s, steps, t, id);
    }
  }

  /** A settled row stays as it is for good, save an administrator's retry,
      exactly when nobody holds it. */
  lemma SettledIffQuiet(s: State, id: RowId)
    requires WellFormed(s) && id < |s.rows| && s.rows[id].status !in OPEN_STATUSES
    ensures Quiet(s, id) <==> UntouchedForever(s, id)
  {
    SettledIff(s.rows[id].status);
    if Quiet(s, id) {
      QuietIsUntouched(s, id);
    } else {
      var steps, t := HeldIsTouched(s, id);
    }
  }

  lemma PushedTwice(s: State, d1: nat, d2: nat, r: Request) returns (steps: seq<Step>, t: State)
    requires GatesPass(s.ops, r) && Find(s.rows, r.name, EffectiveKey(r)).None?
    requires d1 !in s.calls && d2 !in s.calls && d1 != d2
    ensures Runs(s, steps, t) && |t.rows| == |s.rows| + 1 && t.rows[|s.rows|].status.Queued?
    ensures t.execs == s.execs && t.queue[|s.rows|] >= 2
  {
    FreshKeyIsPushed(s.rows, s.ops, r);
    var s1 := AfterCall(s, d1, r);
    t := AfterCall(s1, d2, r);
    UninterruptedCall(s, d1, r);
    UninterruptedCall(s1, d2, r);
    RunsJoin(s, CallSteps(s, d1, r), s1, CallSteps(s1, d2, r), t);
    steps := CallSteps(s, d1, r) + CallSteps(s1, d2, r);
  }

  lemma LoadedTwice(s: State, w1: nat, w2: nat, id: RowId) returns (steps: seq<Step>, t: State)
    requires id < |s.rows| && s.rows[id].status.Queued? && s.queue[id] >= 2
    requires w1 !in s.execs && w2 !in s.execs && w1 != w2
    ensures Runs(s, steps, t) && t.rows == s.rows && {w1, w2} <= t.execs.Keys
    ensures t.execs[w1].id == t.execs[w2].id == id && !t.execs[w1].marked
  {
    var u := Next(s, WorkerLoad(w1, id));
    t := Next(u, WorkerLoad(w2, id));
    OneStep(s, WorkerLoad(w1, id));
    RunsExtend(s, [WorkerLoad(w1, id)], u, WorkerLoad(w2, id));
    steps := [WorkerLoad(w1, id)] + [WorkerLoad(w2, id)];
  }

  /** A worker that has loaded a row can mark it and succeed. */
  lemma WorkerSucceeds(s: State, w: nat) returns (t: State)
    requires w in s.execs && s.execs[w].id < |s.rows| && !s.execs[w].marked
    ensures Runs(s, [WorkerMark(w), WorkerFinish(w, Success)], t)
    ensures |t.rows| == |s.rows| && t.rows[s.execs[w].id].status.Succeeded? && t.execs == s.execs - {w}
    ensures t.scan == s.scan && t.rows[s.execs[w].id].attempt == s.rows[s.execs[w].id].attempt + 1
  {
    var u := Next(s, WorkerMark(w));
    OneStep(s, WorkerMark(w));
    RunsExtend(s, [WorkerMark(w)], u, WorkerFinish(w, Success));
    t := Next(u, WorkerFinish(w, Success));
    assert [WorkerMark(w)] + [WorkerFinish(w, Success)] == [WorkerMark(w), WorkerFinish(w, Success)];
  }

  /** A settled row is not always quiet: in every state that lets a new request
      through, dispatching it twice pushes its row twice, and one of the two
      workers can succeed while the other still runs it. */
  lemma SuccessWhileHeld(s: State, d1: nat, d2: nat, w1: nat, w2: nat, r: Request) returns (steps: seq<Step>, t: State)
    requires GatesPass(s.ops, r) && Find(s.rows, r.name, EffectiveKey(r)).None?
    requires d1 !in s.calls && d2 !in s.calls && d1 != d2
    requires w1 !in s.execs && w2 !in s.execs && w1 != w2
    ensures Runs(s, steps, t) && |t.rows| == |s.rows| + 1
    ensures t.rows[|s.rows|].status.Succeeded? && w2 in t.execs && t.execs[w2].id == |s.rows|
  {
    var first, u := PushedTwice(s, d1, d2, r);
    var loads, v := LoadedTwice(u, w1, w2, |s.rows|);
    RunsJoin(s, first, u, loads, v);
    t := WorkerSucceeds(v, w1);
    RunsJoin(s, first + loads, v, [WorkerMark(w1), WorkerFinish(w1, Success)], t);
    steps := first + loads + [WorkerMark(w1), WorkerFinish(w1, Success)];
  }

  /** No row of the request's key but this one, and no call for it about to push. */
  ghost predicate KeyIsBurned(t: State, r: Request, id: RowId) {
    && id < |t.rows| && t.rows[id].status.Cancelled?
    && (forall i | 0 <= i < |t.rows| :: t.rows[i].name == r.name && t.rows[i].key == r.key <==> i == id)
    && (forall c | c in t.calls && t.calls[c].Created? ::
          t.calls[c].r.name == r.name ==> EffectiveKey(t.calls[c].r) != r.key)
  }

  lemma RefusedRowIsQuiet(s: State, d: nat)
    requires WellFormed(s) && UniqueKeys(s.rows)
    requires Enabled(s, Refuse(d)) && Find(s.rows, s.calls[d].r.name, s.calls[d].r.key).None?
    ensures var n := Next(s, Refuse(d));
            && |n.rows| == |s.rows| + 1 && WellFormed(n) && UniqueKeys(n.rows) && n.pushes == s.pushes
            && n.rows[|s.rows|] ==
               Row(s.calls[d].r.name, s.calls[d].r.key, Cancelled, 0, DEFAULT_MAX_ATTEMPTS, None)
            && Quiet(n, |s.rows|)
  {
    StepKeepsWellFormed(s, Refuse(d));
    StepKeepsRows(s, Refuse(d));
  }

  lemma QuietKeyIsBurned(t: State, r: Request, id: RowId)
    requires WellFormed(t) && UniqueKeys(t.rows) && id < |t.rows| && t.rows[id].status.Cancelled? && NoCallHas(t, id)
    requires t.rows[id].name == r.name && t.rows[id].key == r.key
    ensures KeyIsBurned(t, r, id)
  {
  }

  /** The row a refused dispatch of a new key leaves is cancelled for good and
      stays the only one of its key; it is never pushed, and no call for the key,
      forced ones excepted, ever comes to push anything. */
  lemma PausedDispatchBurnsKey(s: State, d: nat, steps: seq<Step>, t: State)
    requires WellFormed(s) && UniqueKeys(s.rows)
    requires Enabled(s, Refuse(d)) && Find(s.rows, s.calls[d].r.name, s.calls[d].r.key).None?
    requires Runs(Next(s, Refuse(d)), steps, t) && AdminRetry(|s.rows|) !in steps
    ensures KeyIsBurned(t, s.calls[d].r, |s.rows|)
    ensures Count(t.pushes, |s.rows|) == Count(s.pushes, |s.rows|)
  {
    var n := Next(s, Refuse(d));
    RefusedRowIsQuiet(s, d);
    SettledForever(n, steps, t, |s.rows|);
    RunKeepsWellFormed(n, steps, t);
    KeysStayUnique(n, steps, t);
    QuietKeyIsBurned(t, s.calls[d].r, |s.rows|);
  }

  /** So every push after the refusal is for another key or by an administrator. */
  lemma BurnedKeyNeverPushes(s: State, d: nat, steps: seq<Step>, t: State, k: nat, u: State)
    requires WellFormed(s) && UniqueKeys(s.rows)
    requires Enabled(s, Refuse(d)) && Find(s.rows, s.calls[d].r.name, s.calls[d].r.key).None?
    requires Runs(Next(s, Refuse(d)), steps, t) && AdminRetry(|s.rows|) !in steps
    requires TakenIn(Next(s, Refuse(d)), steps, k, u) && steps[k].Push?
    ensures var r := u.calls[steps[k].call].r;
            r.name != s.calls[d].r.name || EffectiveKey(r) != s.calls[d].r.key
  {
    assert forall x | x in steps[..k] :: x in steps;
    PausedDispatchBurnsKey(s, d, steps[..k], u);
  }

  // ---- how a row comes to be run again -------------------------------------

  /** Time does not run back. */
  lemma {:induction false} ClockAdvances(s: State, steps: seq<Step>, t: State)
    requires Runs(s, steps, t)
    ensures s.now <= t.now
    decreases |steps|
  {
    if steps != [] { ClockAdvances(Next(s, steps[0]), steps[1..], t); }
  }

  /** And the retry window closes: once it has passed since a row finished, the scan
      no longer selects the row for a retry. */
  lemma WindowCloses(s: State, id: RowId)
    requires id < |s.rows| && s.rows[id].finishedAt.Some? && s.rows[id].finishedAt.value <= s.now
    ensures var t := Next(s, Tick(4 * 3600 + 1));
            t.rows == s.rows && !RetryEligible(t.rows[id], t.now)
  {
  }

  /** A polling worker uses up one attempt of the row it claims, puts every retry
      request back as retryable, whatever the attempt, and buries every other
      error. */
  lemma ClaimedEnds(s: State, w: nat, id: RowId, ending: Ending) returns (t: State)
    requires Enabled(s, Claim(w, id))
    ensures Next(s, Claim(w, id)).execs[w].attempt == s.rows[id].attempt + 1
    ensures Runs(s, [Claim(w, id), WorkerFinish(w, ending)], t)
    ensures |t.rows| == |s.rows| && t.rows[id].attempt == s.rows[id].attempt + 1
    ensures t.execs == s.execs && t.scan == s.scan
    ensures t.rows[id].status == match ending
                                 case Success => Succeeded
                                 case SomeUnitsFailed => Succeeded
                                 case RetryableError => FailedRetryable
                                 case _ => DeadLettered
  {
    var claimed := Next(s, Claim(w, id));
    OneStep(s, Claim(w, id));
    RunsExtend(s, [Claim(w, id)], claimed, WorkerFinish(w, ending));
    assert [Claim(w, id)] + [WorkerFinish(w, ending)] == [Claim(w, id), WorkerFinish(w, ending)];
    t := Next(claimed, WorkerFinish(w, ending));
    assert t.execs == s.execs;
  }

  /** A worker that takes a queued row's message runs it as its next attempt. */
  lemma TakenUp(s: State, id: RowId, w: nat) returns (t: State)
    requires Enabled(s, WorkerLoad(w, id)) && s.rows[id].status.Queued?
    ensures Runs(s, [WorkerLoad(w, id), WorkerMark(w)], t)
    ensures |t.rows| == |s.rows| && t.rows[id].status.Running? && t.rows[id].attempt == s.rows[id].attempt + 1
    ensures t.execs == s.execs[w := Exec(id, s.rows[id].attempt, true, false)]
    ensures t.queue == s.queue - multiset{id} && t.pushes == s.pushes
  {
    var loaded := Next(s, WorkerLoad(w, id));
    OneStep(s, WorkerLoad(w, id));
    RunsExtend(s, [WorkerLoad(w, id)], loaded, WorkerMark(w));
    assert [WorkerLoad(w, id)] + [WorkerMark(w)] == [WorkerLoad(w, id), WorkerMark(w)];
    t := Next(loaded, WorkerMark(w));
    assert t.execs == s.execs[w := Exec(id, s.rows[id].attempt, true, false)];
  }

  /** An administrator's retry queues the row with all its attempts back, and a
      worker that takes the message then runs it as the first. */
  lemma RetriedRunsAnew(s: State, id: RowId, w: nat) returns (t: State)
    requires Enabled(s, AdminRetry(id)) && w !in s.execs
    ensures Next(s, AdminRetry(id)).rows[id].status.Queued?
    ensures Runs(s, [AdminRetry(id)] + [WorkerLoad(w, id), WorkerMark(w)], t)
    ensures |t.rows| == |s.rows| && t.rows[id].status.Running? && t.rows[id].attempt == 1
    ensures t.execs == s.execs[w := Exec(id, 0, true, false)]
    ensures t.queue == s.queue && t.pushes == s.pushes + [id]
  {
    var queued := Next(s, AdminRetry(id));
    t := TakenUp(queued, id, w);
    OneStep(s, AdminRetry(id));
    RunsJoin(s, [AdminRetry(id)], queued, [WorkerLoad(w, id), WorkerMark(w)], t);
  }

  /** A queue worker takes up a row exactly in an open status; a polling worker
      claims one that is queued or failed retryably and within its limit; and an
      administrator may retry any but a queued, running, partial or failed one. */
  lemma WhoMayStart(s: State, w: nat, id: RowId)
    requires id < |s.rows| && w !in s.execs && id in s.queue
    ensures w in Next(s, WorkerLoad(w, id)).execs <==> s.rows[id].status in {Queued, Running, Failed, FailedRetryable}
    ensures Next(s, WorkerLoad(w, id)).queue == s.queue - multiset{id}
    ensures Enabled(s, Claim(w, id)) <==>
            s.rows[id].status in {Queued, FailedRetryable} && s.rows[id].attempt < s.rows[id].maxAttempts
    ensures Enabled(s, AdminRetry(id)) <==> s.rows[id].status !in {Queued, Running, PartialResult, Failed}
  {
    SettledIff(s.rows[id].status);
    match s.rows[id].status { case Queued => case _ => }
  }
}
