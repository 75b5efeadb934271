/** The retry scan: what it does to the rows when nobody is in between, when its
    updates meet rows as it selected them, and how often it re-queues a row. */
module RetryScan {
  import opened Common
  import opened JobDispatch
  import opened JobLifecycle

  // ---- a scan with nobody in between ---------------------------------------

  /** The rows after the re-queue updates, and after the dead-letter updates. */
  function Requeued(rows: seq<Row>, ids: seq<RowId>, ok: RowId -> bool): (r: seq<Row>)
    ensures |r| == |rows|
  {
    seq(|rows|, i requires 0 <= i < |rows| =>
      if i in ids && ok(i) then rows[i].(status := Queued, attempt := rows[i].attempt + 1) else rows[i])
  }

  function Buried(rows: seq<Row>, ids: seq<RowId>, ok: RowId -> bool): (r: seq<Row>)
    ensures |r| == |rows|
  {
    seq(|rows|, i requires 0 <= i < |rows| =>
      if i in ids && ok(i) then rows[i].(status := DeadLettered) else rows[i])
  }

  /** The rows the two queries may return. */
  ghost predicate Queried(rows: seq<Row>, now: int, retry: seq<RowId>, dead: seq<RowId>, ok: RowId -> bool) {
    && Selected(retry, rows, RETRY_LIMIT, row => RetryEligible(row, now))
    && Selected(dead, Requeued(rows, retry, ok), DEAD_LIMIT, Exhausted)
  }

  function RetryUpdates(ids: seq<RowId>, ok: RowId -> bool): seq<Step> {
    seq(|ids|, k requires 0 <= k < |ids| => UpdateRetry(ok(ids[k])))
  }

  function DeadUpdates(ids: seq<RowId>, ok: RowId -> bool): seq<Step> {
    seq(|ids|, k requires 0 <= k < |ids| => UpdateDead(ok(ids[k])))
  }

  function RetrySteps(retry: seq<RowId>, ok: RowId -> bool): seq<Step> {
    [SelectRetry(retry)] + RetryUpdates(retry, ok)
  }

  function DeadSteps(dead: seq<RowId>, ok: RowId -> bool): seq<Step> {
    [SelectDead(dead)] + DeadUpdates(dead, ok) + [EndScan]
  }

  function ScanSteps(retry: seq<RowId>, dead: seq<RowId>, ok: RowId -> bool): seq<Step> {
    RetrySteps(retry, ok) + DeadSteps(dead, ok)
  }

  lemma RequeuedOneByOne(rows: seq<Row>, ids: seq<RowId>, ok: RowId -> bool)
    requires NoDup(ids) && ids != [] && forall i | i in ids :: i < |rows|
    ensures var rows' := Requeued(rows, ids[..1], ok);
            && Requeued(rows', ids[1..], ok) == Requeued(rows, ids, ok)
            && (forall i | i in ids[1..] :: i < |rows|) && PickAll(rows', ids[1..]) == PickAll(rows, ids)[1..]
  {
    var rest := ids[1..];
    assert forall i | i in rest :: i in ids;
    assert ids == ids[..1] + rest && ids[0] !in rest;
    forall k | 0 <= k < |rest| ensures PickAll(Requeued(rows, ids[..1], ok), rest)[k] == PickAll(rows, ids)[1..][k] {
      assert rest[k] in rest && rest[k] !in ids[..1];
    }
  }

  lemma RequeueHead(s: State, ids: seq<RowId>, ok: RowId -> bool)
    requires ids != [] && ids[0] < |s.rows| && (forall i | i in ids :: i < |s.rows|)
    requires s.scan == Requeueing(PickAll(s.rows, ids))
    ensures var step := UpdateRetry(ok(ids[0]));
            && Enabled(s, step)
            && Next(s, step) == s.(rows := Requeued(s.rows, ids[..1], ok), scan := Requeueing(s.scan.todo[1..]))
  {
    assert Next(s, UpdateRetry(ok(ids[0]))).rows == Requeued(s.rows, ids[..1], ok);
  }

  lemma {:induction false} RetryUpdatesRun(s: State, ids: seq<RowId>, ok: RowId -> bool)
    requires NoDup(ids) && (forall i | i in ids :: i < |s.rows|) && s.scan == Requeueing(PickAll(s.rows, ids))
    ensures Runs(s, RetryUpdates(ids, ok), s.(rows := Requeued(s.rows, ids, ok), scan := Requeueing([])))
    decreases |ids|
  {
    if ids == [] {
      assert Requeued(s.rows, ids, ok) == s.rows;
    } else {
      assert ids[0] in ids;
      var n := s.(rows := Requeued(s.rows, ids[..1], ok), scan := Requeueing(s.scan.todo[1..]));
      RequeueHead(s, ids, ok);
      RequeuedOneByOne(s.rows, ids, ok);
      RetryUpdatesRun(n, ids[1..], ok);
      assert RetryUpdates(ids, ok)[1..] == RetryUpdates(ids[1..], ok);
    }
  }

  lemma BuriedOneByOne(rows: seq<Row>, ids: seq<RowId>, ok: RowId -> bool)
    requires ids != []
    ensures Buried(Buried(rows, ids[..1], ok), ids[1..], ok) == Buried(rows, ids, ok)
  {
    assert ids == ids[..1] + ids[1..];
  }

  lemma BuryHead(s: State, ids: seq<RowId>, ok: RowId -> bool)
    requires ids != [] && ids[0] < |s.rows| && s.scan == Burying(ids)
    ensures var step := UpdateDead(ok(ids[0]));
            Enabled(s, step) && Next(s, step) == s.(rows := Buried(s.rows, ids[..1], ok), scan := Burying(ids[1..]))
  {
    assert Next(s, UpdateDead(ok(ids[0]))).rows == Buried(s.rows, ids[..1], ok);
  }

  lemma {:induction false} DeadUpdatesRun(s: State, ids: seq<RowId>, ok: RowId -> bool)
    requires (forall i | i in ids :: i < |s.rows|) && s.scan == Burying(ids)
    ensures Runs(s, DeadUpdates(ids, ok), s.(rows := Buried(s.rows, ids, ok), scan := Burying([])))
    decreases |ids|
  {
    if ids == [] {
      assert Buried(s.rows, ids, ok) == s.rows;
    } else {
      assert ids[0] in ids && forall i | i in ids[1..] :: i in ids;
      var n := s.(rows := Buried(s.rows, ids[..1], ok), scan := Burying(ids[1..]));
      BuryHead(s, ids, ok);
      BuriedOneByOne(s.rows, ids, ok);
      DeadUpdatesRun(n, ids[1..], ok);
      assert DeadUpdates(ids, ok)[1..] == DeadUpdates(ids[1..], ok);
    }
  }

  lemma RetryHalf(s: State, retry: seq<RowId>, ok: RowId -> bool)
    requires s.scan.Idle? && Selected(retry, s.rows, RETRY_LIMIT, row => RetryEligible(row, s.now))
    ensures Runs(s, RetrySteps(retry, ok),
                 s.(rows := Requeued(s.rows, retry, ok), scan := Requeueing([])))
  {
    var picked := Next(s, SelectRetry(retry));
    OneStep(s, SelectRetry(retry));
    RetryUpdatesRun(picked, retry, ok);
    RunsJoin(s, [SelectRetry(retry)], picked, RetryUpdates(retry, ok),
             s.(rows := Requeued(s.rows, retry, ok), scan := Requeueing([])));
  }

  lemma DeadHalf(s: State, dead: seq<RowId>, ok: RowId -> bool)
    requires s.scan == Requeueing([]) && Selected(dead, s.rows, DEAD_LIMIT, Exhausted)
    ensures Runs(s, DeadSteps(dead, ok),
                 s.(rows := Buried(s.rows, dead, ok), scan := Idle))
  {
    var picked := Next(s, SelectDead(dead));
    var done := s.(rows := Buried(s.rows, dead, ok), scan := Burying([]));
    OneStep(s, SelectDead(dead));
    DeadUpdatesRun(picked, dead, ok);
    RunsJoin(s, [SelectDead(dead)], picked, DeadUpdates(dead, ok), done);
    RunsExtend(s, [SelectDead(dead)] + DeadUpdates(dead, ok), done, EndScan);
  }

  /** A scan with nobody in between does what the scan method does. */
  lemma UninterruptedScan(s: State, retry: seq<RowId>, dead: seq<RowId>, ok: RowId -> bool)
    requires s.scan.Idle? && Queried(s.rows, s.now, retry, dead, ok)
    ensures Runs(s, ScanSteps(retry, dead, ok), s.(rows := Buried(Requeued(s.rows, retry, ok), dead, ok)))
  {
    var half := s.(rows := Requeued(s.rows, retry, ok), scan := Requeueing([]));
    RetryHalf(s, retry, ok);
    DeadHalf(half, dead, ok);
    RunsJoin(s, RetrySteps(retry, ok), half, DeadSteps(dead, ok),
             s.(rows := Buried(Requeued(s.rows, retry, ok), dead, ok)));
  }

  /** Such a scan re-queues rows that failed retryably and have attempts left,
      dead-letters the exhausted ones, and leaves every other row alone. */
  lemma ScanRowByRow(rows: seq<Row>, now: int, retry: seq<RowId>, dead: seq<RowId>, ok: RowId -> bool, i: RowId)
    requires Queried(rows, now, retry, dead, ok) && i < |rows|
    ensures var (row, after) := (rows[i], Buried(Requeued(rows, retry, ok), dead, ok)[i]);
            && (i in retry && ok(i) ==>
                  RetryEligible(row, now) && after.status.Queued? && after.attempt == row.attempt + 1)
            && (i in dead && ok(i) ==> Exhausted(row) && after == row.(status := DeadLettered))
            && (!(i in retry && ok(i)) && !(i in dead && ok(i)) ==> after == row)
            && !(i in retry && ok(i) && i in dead)
  {
  }

  /** Below the query limits and with no failing update, it moves a row exactly
      when the row failed retryably and is exhausted or finished within the
      window; so a row with attempts left and no recent finish time is never
      moved. */
  lemma ScanMovesIff(rows: seq<Row>, now: int, retry: seq<RowId>, dead: seq<RowId>, i: RowId)
    requires Queried(rows, now, retry, dead, _ => true) && i < |rows|
    requires |retry| < 5 && |dead| < 10
    ensures Buried(Requeued(rows, retry, _ => true), dead, _ => true)[i] != rows[i] <==>
            && rows[i].status.FailedRetryable?
            && (rows[i].attempt >= 2
                || (rows[i].finishedAt.Some? && rows[i].finishedAt.value >= now - 4 * 3600))
  {
    ScanRowByRow(rows, now, retry, dead, _ => true, i);
    var mid := Requeued(rows, retry, _ => true);
    if Exhausted(rows[i]) { assert i !in retry && mid[i] == rows[i]; }
  }

  /** One scan moves at most five rows to the queue and ten to the dead. */
  lemma ScanIsLimited(rows: seq<Row>, now: int, retry: seq<RowId>, dead: seq<RowId>, ok: RowId -> bool)
    requires Queried(rows, now, retry, dead, ok)
    ensures |set i: RowId | i < |rows| && Requeued(rows, retry, ok)[i] != rows[i]| <= 5
    ensures |set i: RowId | i < |rows| && Buried(rows, dead, ok)[i] != rows[i]| <= 10
  {
    var (back, gone) := (set i | i in retry, set i | i in dead);
    NoDupSize(retry);
    NoDupSize(dead);
    var moved := set i: RowId | i < |rows| && Requeued(rows, retry, ok)[i] != rows[i];
    var buried := set i: RowId | i < |rows| && Buried(rows, dead, ok)[i] != rows[i];
    SubsetSize(moved, back);
    SubsetSize(buried, gone);
  }

  // ---- a scan among workers ------------------------------------------------

  /** The scan has selected the row and not yet updated it. */
  ghost predicate Held(s: State, id: RowId) {
    match s.scan
    case Idle => false
    case Requeueing(todo) => exists k :: 0 <= k < |todo| && todo[k].id == id
    case Burying(doomed) => id in doomed
  }

  ghost predicate PickedAsIs(s: State, id: RowId) {
    id < |s.rows| &&
    (s.scan.Requeueing? ==> forall k | 0 <= k < |s.scan.todo| && s.scan.todo[k].id == id ::
       s.rows[id].status.FailedRetryable? && s.rows[id].attempt == s.scan.todo[k].attempt < 2)
  }

  ghost predicate DoomedAsIs(s: State, id: RowId) {
    id < |s.rows| && (s.scan.Burying? && id in s.scan.doomed ==> Exhausted(s.rows[id]))
  }

  /** If the scan holds the row, the row still is what was selected. */
  ghost predicate AsSelected(s: State, id: RowId) {
    PickedAsIs(s, id) && DoomedAsIs(s, id)
  }

  /** A step of a worker or an administrator on the row. */
  ghost predicate Meddles(s: State, step: Step, id: RowId) {
    match step
    case WorkerMark(w) => w in s.execs && s.execs[w].id == id
    case WorkerFinish(w, _) => w in s.execs && s.execs[w].id == id
    case Claim(_, x) => x == id
    case AdminRetry(x) => x == id
    case _ => false
  }

  /** Over the run, nobody meddles with the row while the scan holds it. */
  ghost predicate Undisturbed(s: State, steps: seq<Step>, id: RowId)
    decreases |steps|
  {
    steps != [] && Enabled(s, steps[0]) ==>
      && (Held(s, id) ==> !Meddles(s, steps[0], id))
      && Undisturbed(Next(s, steps[0]), steps[1..], id)
  }

  lemma StepKeepsPicked(s: State, step: Step, id: RowId)
    requires WellFormed(s) && PickedAsIs(s, id) && Enabled(s, step)
    requires Held(s, id) ==> !Meddles(s, step, id)
    ensures PickedAsIs(Next(s, step), id)
  {
    StepKeepsRows(s, step);
    if step.SelectRetry? {
      forall k | 0 <= k < |step.ids| && step.ids[k] == id ensures RetryEligible(s.rows[id], s.now) {
        assert step.ids[k] in step.ids;
      }
    }
  }

  lemma StepKeepsDoomed(s: State, step: Step, id: RowId)
    requires WellFormed(s) && DoomedAsIs(s, id) && Enabled(s, step)
    requires Held(s, id) ==> !Meddles(s, step, id)
    ensures DoomedAsIs(Next(s, step), id)
  {
    StepKeepsRows(s, step);
    if step.UpdateDead? { assert forall x | x in s.scan.doomed[1..] :: x in s.scan.doomed; }
  }

  lemma StepKeepsSelected(s: State, step: Step, id: RowId)
    requires WellFormed(s) && AsSelected(s, id) && Enabled(s, step)
    requires Held(s, id) ==> !Meddles(s, step, id)
    ensures AsSelected(Next(s, step), id)
  {
    StepKeepsPicked(s, step, id);
    StepKeepsDoomed(s, step, id);
  }

  lemma {:induction false} SelectionKept(s: State, steps: seq<Step>, t: State, id: RowId)
    requires WellFormed(s) && AsSelected(s, id) && Runs(s, steps, t) && Undisturbed(s, steps, id)
    ensures AsSelected(t, id)
    decreases |steps|
  {
    if steps != [] {
      StepKeepsSelected(s, steps[0], id);
      StepKeepsWellFormed(s, steps[0]);
      SelectionKept(Next(s, steps[0]), steps[1..], t, id);
    }
  }

  /** What an update that is due does to its row. */
  ghost predicate UpdateIsRight(t: State, id: RowId) {
    && (Enabled(t, UpdateRetry(true)) && t.scan.todo[0].id == id ==>
          && t.rows[id].status.FailedRetryable? && t.rows[id].attempt < 2
          && Next(t, UpdateRetry(true)).rows[id] == t.rows[id].(status := Queued, attempt := t.rows[id].attempt + 1))
    && (Enabled(t, UpdateDead(true)) && t.scan.doomed[0] == id ==> Exhausted(t.rows[id]))
  }

  lemma UpdateMeetsSelection(t: State, id: RowId)
    requires AsSelected(t, id)
    ensures UpdateIsRight(t, id)
  {
    assert t.scan.Burying? && t.scan.doomed != [] ==> t.scan.doomed[0] in t.scan.doomed;
  }

  /** Over every run in which nobody meddles with a row the scan holds, each
      update meets the row as it was selected: a re-queue adds one attempt to a
      row that failed retryably below two, and only exhausted rows are buried. */
  lemma UpdatesMeetSelection(s: State, steps: seq<Step>, t: State, id: RowId)
    requires WellFormed(s) && AsSelected(s, id) && Runs(s, steps, t) && Undisturbed(s, steps, id)
    ensures UpdateIsRight(t, id)
  {
    SelectionKept(s, steps, t, id);
    UpdateMeetsSelection(t, id);
  }

  /** And exactly then, step by step: while the scan holds a row as selected, a
      step spoils the selection if and only if it is a worker's or an
      administrator's step on the row, other than a worker ending it as failed
      retryably once more. */
  lemma SpoiledIff(s: State, step: Step, id: RowId)
    requires WellFormed(s) && AsSelected(s, id) && Held(s, id) && Enabled(s, step)
    ensures !AsSelected(Next(s, step), id) <==>
            && Meddles(s, step, id)
            && (step.WorkerFinish? ==>
                  !Ended(s.rows[id], s.execs[step.worker], step.ending, s.now).status.FailedRetryable?)
  {
    if !Meddles(s, step, id) {
      StepKeepsSelected(s, step, id);
    } else if s.scan.Burying? {
      assert id in Next(s, step).scan.doomed;
    } else {
      var k :| 0 <= k < |s.scan.todo| && s.scan.todo[k].id == id;
      assert Next(s, step).scan.todo[k].id == id;
    }
  }

  /** The row the scan updates next. */
  ghost function Head(s: State): RowId
    requires Enabled(s, UpdateRetry(true)) || Enabled(s, UpdateDead(true))
  {
    if s.scan.Requeueing? then s.scan.todo[0].id else s.scan.doomed[0]
  }

  /** The updates name a row by its id alone.  In every state where the scan is
      about to update a row it selected, and the row is within its attempt
      limit, a polling worker can claim the row and succeed, and the update then
      re-queues or dead-letters the success. */
  lemma UpdateUndoesSuccess(s: State, w: nat) returns (t: State, u: State)
    requires Enabled(s, UpdateRetry(true)) || Enabled(s, UpdateDead(true))
    requires AsSelected(s, Head(s)) && s.rows[Head(s)].attempt < s.rows[Head(s)].maxAttempts && w !in s.execs
    ensures Runs(s, [Claim(w, Head(s)), WorkerFinish(w, Success)], t)
    ensures |t.rows| == |s.rows| && t.rows[Head(s)].status.Succeeded?
    ensures var update := if s.scan.Requeueing? then UpdateRetry(true) else UpdateDead(true);
            && Enabled(t, update) && u == Next(t, update)
            && |u.rows| == |s.rows|
            && u.rows[Head(s)].status == if s.scan.Requeueing? then Queued else DeadLettered
  {
    if s.scan.Burying? { assert Head(s) in s.scan.doomed; }
    t := ClaimedEnds(s, w, Head(s), Success);
    u := Next(t, if s.scan.Requeueing? then UpdateRetry(true) else UpdateDead(true));
  }

  /** So can a worker that had loaded the row from a second message. */
  lemma UpdateUndoesQueuedSuccess(s: State, w: nat) returns (t: State, u: State)
    requires Enabled(s, UpdateRetry(true)) || Enabled(s, UpdateDead(true))
    requires w in s.execs && s.execs[w].id == Head(s) && !s.execs[w].marked
    ensures Runs(s, [WorkerMark(w), WorkerFinish(w, Success)], t)
    ensures |t.rows| == |s.rows| && t.rows[Head(s)].status.Succeeded?
    ensures var update := if s.scan.Requeueing? then UpdateRetry(true) else UpdateDead(true);
            && Enabled(t, update) && u == Next(t, update)
            && |u.rows| == |s.rows|
            && u.rows[Head(s)].status == if s.scan.Requeueing? then Queued else DeadLettered
  {
    t := WorkerSucceeds(s, w);
    u := Next(t, if s.scan.Requeueing? then UpdateRetry(true) else UpdateDead(true));
  }

  // ---- how often -----------------------------------------------------------

  predicate Requeues(s: State, step: Step, id: RowId) {
    step == UpdateRetry(true) && s.scan.Requeueing? && s.scan.todo != [] && s.scan.todo[0].id == id
  }

  /** How many updates of a run re-queue a row. */
  ghost function RequeueCount(s: State, steps: seq<Step>, id: RowId): nat
    decreases |steps|
  {
    if steps == [] || !Enabled(s, steps[0]) then 0
    else (if Requeues(s, steps[0], id) then 1 else 0) + RequeueCount(Next(s, steps[0]), steps[1..], id)
  }

  /** `f` is at most the row's attempt and any attempt the scan holds for it. */
  ghost predicate Floor(s: State, id: RowId, f: nat) {
    && id < |s.rows| && f <= s.rows[id].attempt
    && (s.scan.Requeueing? ==>
          forall k | 0 <= k < |s.scan.todo| && s.scan.todo[k].id == id :: f <= s.scan.todo[k].attempt)
  }

  lemma StepRaisesFloor(s: State, step: Step, id: RowId, f: nat)
    requires WellFormed(s) && Enabled(s, step) && Floor(s, id, f) && step != AdminRetry(id)
    ensures Floor(Next(s, step), id, if Requeues(s, step, id) then f + 1 else f)
    ensures Requeues(s, step, id) ==> f < 2
  {
    StepKeepsRows(s, step);
  }

  lemma {:induction false} RequeueBoundFrom(s: State, steps: seq<Step>, t: State, id: RowId, f: nat)
    requires WellFormed(s) && Runs(s, steps, t) && Floor(s, id, f) && AdminRetry(id) !in steps
    ensures RequeueCount(s, steps, id) <= if f >= 2 then 0 else 2 - f
    decreases |steps|
  {
    if steps != [] {
      StepRaisesFloor(s, steps[0], id, f);
      StepKeepsWellFormed(s, steps[0]);
      assert forall x | x in steps[1..] :: x in steps;
      RequeueBoundFrom(Next(s, steps[0]), steps[1..], t, id, if Requeues(s, steps[0], id) then f + 1 else f);
    }
  }

  /** Over any run, with any mix of worker failures, claims, dispatches and
      scans, a row at attempt a that the scan does not hold is re-queued by
      scans at most 2 - a times. */
  lemma RequeueBound(s: State, steps: seq<Step>, t: State, id: RowId)
    requires WellFormed(s) && Runs(s, steps, t) && id < |s.rows| && !Held(s, id) && AdminRetry(id) !in steps
    ensures RequeueCount(s, steps, id) <= if s.rows[id].attempt >= 2 then 0 else 2 - s.rows[id].attempt
  {
    RequeueBoundFrom(s, steps, t, id, s.rows[id].attempt);
  }

  // ---- the first failure ---------------------------------------------------

  /** A row that has failed retryably with attempts left for the scan, has never
      finished, and that nobody holds and no message names. */
  ghost predicate FailedOnce(s: State, id: RowId) {
    && id < |s.rows| && s.rows[id].status.FailedRetryable? && s.rows[id].attempt < 2 && s.rows[id].finishedAt.None?
    && Quiet(s, id) && id !in s.queue
  }

  /** The steps of a queue worker that loads a row and ends it. */
  function WorkSteps(w: nat, id: RowId, ending: Ending): seq<Step> {
    [WorkerLoad(w, id), WorkerMark(w), WorkerFinish(w, ending)]
  }

  /** A new row, queued once and held by nobody. */
  ghost predicate Fresh(s: State, id: RowId) {
    && id < |s.rows| && Quiet(s, id) && s.queue[id] == 1
    && var row := s.rows[id];
       row.status.Queued? && row.attempt == 0 && Limit(row) > 2 && row.finishedAt.None?
  }

  /** With a queue worker running it. */
  function Working(s: State, id: RowId, w: nat): State
    requires id < |s.rows|
  {
    s.(queue := s.queue - multiset{id}, execs := s.execs[w := Exec(id, 0, true, false)],
       rows := s.rows[id := s.rows[id].(status := Running, attempt := 1)])
  }

  lemma WorkStarts(s: State, id: RowId, w: nat)
    requires Fresh(s, id) && w !in s.execs
    ensures Runs(s, [WorkerLoad(w, id), WorkerMark(w)], Working(s, id, w))
  {
    var loaded := Next(s, WorkerLoad(w, id));
    OneStep(s, WorkerLoad(w, id));
    RunsExtend(s, [WorkerLoad(w, id)], loaded, WorkerMark(w));
    assert Next(loaded, WorkerMark(w)).execs == Working(s, id, w).execs;
    assert [WorkerLoad(w, id)] + [WorkerMark(w)] == [WorkerLoad(w, id), WorkerMark(w)];
  }

  lemma WorkingFails(s: State, id: RowId, w: nat, ending: Ending)
    requires Fresh(s, id) && w !in s.execs && (ending.RetryableError? || ending.OtherError?)
    ensures Enabled(Working(s, id, w), WorkerFinish(w, ending))
    ensures FailedOnce(Next(Working(s, id, w), WorkerFinish(w, ending)), id)
  {
    var t := Next(Working(s, id, w), WorkerFinish(w, ending));
    assert t.execs == s.execs && t.calls == s.calls && t.scan == s.scan;
    assert t.rows[id].status.FailedRetryable? && t.rows[id].attempt == 1;
  }

  lemma WorkFails(s: State, id: RowId, w: nat, ending: Ending) returns (t: State)
    requires Fresh(s, id) && w !in s.execs && (ending.RetryableError? || ending.OtherError?)
    ensures Runs(s, WorkSteps(w, id, ending), t) && FailedOnce(t, id)
  {
    WorkStarts(s, id, w);
    WorkingFails(s, id, w, ending);
    t := Next(Working(s, id, w), WorkerFinish(w, ending));
    RunsExtend(s, [WorkerLoad(w, id), WorkerMark(w)], Working(s, id, w), WorkerFinish(w, ending));
    assert [WorkerLoad(w, id), WorkerMark(w)] + [WorkerFinish(w, ending)] == WorkSteps(w, id, ending);
  }

  /** The first failure of a dispatched job leaves its row in that state: the
      failure report records no finish time. */
  lemma FirstFailureLeavesNoFinishTime(s: State, d: nat, r: Request, w: nat, ending: Ending) returns (t: State)
    requires WellFormed(s) && d !in s.calls && w !in s.execs && |s.rows| !in s.queue
    requires GatesPass(s.ops, r) && Find(s.rows, r.name, EffectiveKey(r)).None?
    requires ending.RetryableError? || ending.OtherError?
    ensures Runs(s, CallSteps(s, d, r) + WorkSteps(w, |s.rows|, ending), t) && FailedOnce(t, |s.rows|)
  {
    FreshKeyIsPushed(s.rows, s.ops, r);
    UninterruptedCall(s, d, r);
    var u := AfterCall(s, d, r);
    t := WorkFails(u, |s.rows|, w, ending);
    RunsJoin(s, CallSteps(s, d, r), u, WorkSteps(w, |s.rows|, ending), t);
  }

  /** An administrator's retry of the row, or a polling worker's claim of it. */
  predicate Rescues(step: Step, id: RowId) {
    step == AdminRetry(id) || (step.Claim? && step.id == id)
  }

  lemma StepLeavesQueue(s: State, step: Step, id: RowId)
    requires Enabled(s, step) && FailedOnce(s, id) && step != AdminRetry(id)
    ensures id !in Next(s, step).queue
    ensures Count(Next(s, step).pushes, id) == Count(s.pushes, id)
  {
    OnlyPushAndAdminPush(s, step);
  }

  lemma StepLeavesRow(s: State, step: Step, id: RowId)
    requires Enabled(s, step) && FailedOnce(s, id) && !Rescues(step, id)
    ensures Next(s, step).rows[id] == s.rows[id]
  {
    if step.UpdateDead? { assert s.scan.doomed[0] in s.scan.doomed; }
  }

  lemma StepLeavesFailedOnce(s: State, step: Step, id: RowId)
    requires Enabled(s, step) && FailedOnce(s, id) && !Rescues(step, id)
    ensures Untouched(s, Next(s, step), id) && id !in Next(s, step).queue
  {
    StepKeepsRows(s, step);
    StepLeavesQueue(s, step, id);
    StepLeavesRow(s, step, id);
  }

  /** Contrary to the scan's description, such a row is neither retried nor
      dead-lettered by any number of scans, and no dispatch pushes it again. */
  lemma {:induction false} FirstFailureIsStuck(s: State, steps: seq<Step>, t: State, id: RowId)
    requires Runs(s, steps, t) && FailedOnce(s, id) && forall step | step in steps :: !Rescues(step, id)
    ensures FailedOnce(t, id) && Untouched(s, t, id)
    decreases |steps|
  {
    if steps != [] {
      StepLeavesFailedOnce(s, steps[0], id);
      StepKeepsQuiet(s, steps[0], id);
      assert steps[0] in steps && forall x | x in steps[1..] :: x in steps;
      FirstFailureIsStuck(Next(s, steps[0]), steps[1..], t, id);
    }
  }

  /** Those two can move it: an administrator always, and a polling worker
      exactly when the row is within its attempt limit. */
  lemma RescueMovesIt(s: State, id: RowId, w: nat)
    requires FailedOnce(s, id) && w !in s.execs
    ensures Enabled(s, AdminRetry(id)) && !Untouched(s, Next(s, AdminRetry(id)), id)
    ensures Enabled(s, Claim(w, id)) <==> s.rows[id].attempt < s.rows[id].maxAttempts
    ensures Enabled(s, Claim(w, id)) ==> Next(s, Claim(w, id)).rows[id].status.Running?
  {
  }

  // ---- the code ------------------------------------------------------------

  /** The two update loops over the rows the queries returned. */
  method RetryFailedJobs(store: JobRunStore, now: int, retry: seq<RowId>, dead: seq<RowId>, ok: RowId -> bool)
    requires Queried(store.rows, now, retry, dead, ok)
    modifies store
    ensures store.rows == Buried(Requeued(old(store.rows), retry, ok), dead, ok)
  {
    ghost var before := store.rows;
    var attempts := PickAll(store.rows, retry);
    for k := 0 to |retry|
      invariant store.rows == Requeued(before, retry[..k], ok)
    {
      var id := retry[k];
      assert id in retry && id !in retry[..k];
      if ok(id) {
        store.rows := store.rows[id := store.rows[id].(status := Queued, attempt := attempts[k].attempt + 1)];
      }
    }
    assert retry[..|retry|] == retry;
    ghost var middle := store.rows;
    for k := 0 to |dead|
      invariant store.rows == Buried(middle, dead[..k], ok)
    {
      var id := dead[k];
      assert id in dead && id !in dead[..k];
      if ok(id) {
        store.rows := store.rows[id := store.rows[id].(status := DeadLettered)];
      }
    }
    assert dead[..|dead|] == dead;
  }
}
